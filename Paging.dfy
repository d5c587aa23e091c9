/** Page arithmetic of the top-level component: the page count and the slice
    of the filtered list that one page shows. */
module Paging {

  const PageSize: nat := 6

  function Max(a: int, b: int): int { if a < b then b else a }
  function Min(a: int, b: int): int { if a < b then a else b }

  /** `Math.ceil(n / d)` for a natural `n` and a positive `d`. */
  function CeilDiv(n: nat, d: nat): (r: nat)
    requires d > 0
    ensures (r - 1) * d < n <= r * d || (n == 0 && r == 0)
  {
    (n + d - 1) / d
  }

  /** `Math.max(1, Math.ceil(n / PAGE_SIZE))`: at least 1, and for a
      non-empty list the least number of pages of six that hold it. */
  function TotalPages(n: nat): (r: nat)
    ensures r >= 1
    ensures n == 0 ==> r == 1
    ensures n > 0 ==> (r - 1) * PageSize < n <= r * PageSize
  {
    Max(1, CeilDiv(n, PageSize))
  }

  /** How `Array.prototype.slice` reads one index argument: a negative index
      counts from the end, and the result is clamped to `[0, len]`. */
  function RelativeIndex(k: int, len: nat): (r: nat)
    ensures r <= len
    ensures 0 <= k ==> r == Min(k, len)
  {
    if k < 0 then Max(len + k, 0) else Min(k, len)
  }

  /** `s.slice(start, end)`. */
  function Slice<T>(s: seq<T>, start: int, end: int): (r: seq<T>)
    ensures |r| <= |s|
    ensures 0 <= start <= end ==> r == s[Min(start, |s|)..Min(end, |s|)]
  {
    var from := RelativeIndex(start, |s|);
    var to := RelativeIndex(end, |s|);
    if from < to then s[from..to] else []
  }

  /** `paginatedCompanies` for page `page`. */
  function PageOf<T>(s: seq<T>, page: int): (r: seq<T>)
    ensures |r| <= PageSize
    ensures 1 <= page ==> r == s[Min((page - 1) * PageSize, |s|)..Min(page * PageSize, |s|)]
  {
    var start := (page - 1) * PageSize;
    Slice(s, start, start + PageSize)
  }

  /** A page after the last one is empty. */
  lemma PageBeyondLast<T>(s: seq<T>, page: int)
    requires page > TotalPages(|s|)
    ensures PageOf(s, page) == []
  {
  }

  /** Every page up to the last holds six records, except the last, which
      holds the rest; for a non-empty list the last page is not empty. */
  lemma PageSizes<T>(s: seq<T>, page: int)
    requires 1 <= page <= TotalPages(|s|)
    ensures page < TotalPages(|s|) ==> |PageOf(s, page)| == PageSize
    ensures |s| > 0 && page == TotalPages(|s|) ==> |PageOf(s, page)| == |s| - (page - 1) * PageSize > 0
  {
  }

  /** Pages `1..k` one after another. */
  function Pages<T>(s: seq<T>, k: nat): seq<T> {
    if k == 0 then [] else Pages(s, k - 1) + PageOf(s, k)
  }

  /** Pages `1..k` are the first `6k` records. */
  lemma {:induction false} PagesPrefix<T>(s: seq<T>, k: nat)
    ensures Pages(s, k) == s[..Min(k * PageSize, |s|)]
  {
    if k > 0 {
      PagesPrefix(s, k - 1);
      var a := Min((k - 1) * PageSize, |s|);
      var b := Min(k * PageSize, |s|);
      assert s[..a] + s[a..b] == s[..b];
    }
  }

  /** Concatenating pages `1..TotalPages` rebuilds the whole list in order. */
  lemma PagesRebuildList<T>(s: seq<T>)
    ensures Pages(s, TotalPages(|s|)) == s
  {
    PagesPrefix(s, TotalPages(|s|));
    assert s[..|s|] == s;
  }
}
