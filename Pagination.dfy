/** The pagination control: whether it shows at all, which of Prev and Next
    are enabled, the page buttons, and the clamp every button goes through. */
module Pagination {
  import opened Directory

  /** `goToPage(page)` hands `Math.min(Math.max(page, 1), totalPages)` to
      `onPageChange`. */
  function GoToPage(page: int, totalPages: int): (r: int)
    ensures 1 <= totalPages ==> 1 <= r <= totalPages
    ensures 1 <= page <= totalPages ==> r == page
    ensures page < 1 && 1 <= totalPages ==> r == 1
    ensures totalPages < page && 1 <= totalPages ==> r == totalPages
  {
    var atLeastOne := if page < 1 then 1 else page;
    if atLeastOne < totalPages then atLeastOne else totalPages
  }

  /** Clamping twice is clamping once. */
  lemma GoToPageIdempotent(page: int, totalPages: int)
    requires 1 <= totalPages
    ensures GoToPage(GoToPage(page, totalPages), totalPages) == GoToPage(page, totalPages)
  {
  }

  /** The Prev button: `goToPage(currentPage - 1)`. From page 1 it stays at
      1; from any later page in range it goes one back. */
  function Prev(currentPage: int, totalPages: int): (r: int)
    ensures 1 <= totalPages ==> 1 <= r <= totalPages
    ensures currentPage == 1 && 1 <= totalPages ==> r == 1
    ensures 1 < currentPage <= totalPages ==> r == currentPage - 1
  {
    GoToPage(currentPage - 1, totalPages)
  }

  /** The Next button: `goToPage(currentPage + 1)`. From the last page it
      stays there; from any earlier page in range it goes one forward. */
  function Next(currentPage: int, totalPages: int): (r: int)
    ensures 1 <= totalPages ==> 1 <= r <= totalPages
    ensures currentPage == totalPages && 1 <= totalPages ==> r == totalPages
    ensures 1 <= currentPage < totalPages ==> r == currentPage + 1
  {
    GoToPage(currentPage + 1, totalPages)
  }

  /** `Array.from({ length: n }, (_, index) => index + 1)`. */
  function PageNumbers(n: nat): (r: seq<int>)
    ensures |r| == n
    ensures forall i, j :: 0 <= i < j < |r| ==> r[i] < r[j]
    ensures forall p :: p in r <==> 1 <= p <= n
  {
    var r := seq(n, i requires 0 <= i < n => i + 1);
    assert forall p :: p in r <==> 1 <= p <= n by {
      forall p ensures p in r <==> 1 <= p <= n {
        if 1 <= p <= n { assert r[p - 1] == p; }
        if p in r { var i :| 0 <= i < n && r[i] == p; }
      }
    }
    r
  }

  /** What the control shows when it shows anything. */
  datatype Controls = Controls(canGoBack: bool, canGoForward: bool, pageNumbers: seq<int>)

  /** The component: nothing when there is at most one page; otherwise Prev
      is enabled after page 1, Next before the last page, and there is one
      button per page, 1 to `totalPages`. */
  function Render(currentPage: int, totalPages: int): (r: Option<Controls>)
    ensures r.None? <==> totalPages <= 1
    ensures r.Some? ==> (r.value.canGoBack <==> currentPage > 1)
    ensures r.Some? ==> (r.value.canGoForward <==> currentPage < totalPages)
    ensures r.Some? ==> |r.value.pageNumbers| == totalPages
    ensures r.Some? ==> forall p :: p in r.value.pageNumbers <==> 1 <= p <= totalPages
    ensures r.Some? ==> r.value.pageNumbers == PageNumbers(totalPages)
  {
    if totalPages <= 1 then None
    else Some(Controls(currentPage > 1, currentPage < totalPages, PageNumbers(totalPages)))
  }

  /** Every button the control shows leads to a page in `[1, totalPages]`,
      and a page button leads to its own page. */
  lemma ButtonsStayInRange(currentPage: int, totalPages: int, button: int)
    requires Render(currentPage, totalPages).Some?
    requires button in Render(currentPage, totalPages).value.pageNumbers
    ensures GoToPage(button, totalPages) == button
    ensures 1 <= Prev(currentPage, totalPages) <= totalPages
    ensures 1 <= Next(currentPage, totalPages) <= totalPages
  {
  }
}
