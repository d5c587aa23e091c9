/** The company record the browser loads, and the header's employee total. */
module Directory {

  datatype Option<T> = None | Some(value: T)

  /** One company of the directory. An absent or empty string field
      (industry, country, state, city, postalCode) is the empty string;
      `employeeCount` may be absent. */
  datatype Company = Company(
    id: int,
    name: string,
    industry: string,
    country: string,
    state: string,
    city: string,
    postalCode: string,
    employeeCount: Option<int>,
    founded: int,
    tagline: string)

  /** `company.employeeCount ?? 0`. */
  function CountOrZero(c: Company): int {
    match c.employeeCount
    case Some(n) => n
    case None => 0
  }

  /** `companies.reduce((acc, c) => acc + (c.employeeCount ?? 0), 0)`: a left
      fold over the list. */
  function TotalEmployees(companies: seq<Company>): int {
    if companies == [] then 0
    else TotalEmployees(companies[..|companies| - 1]) + CountOrZero(companies[|companies| - 1])
  }

  /** The total is additive over concatenation, so it is the sum of the
      counts, a missing count adding nothing. */
  lemma {:induction false} TotalEmployeesAppend(a: seq<Company>, b: seq<Company>)
    ensures TotalEmployees(a + b) == TotalEmployees(a) + TotalEmployees(b)
  {
    if b == [] {
      assert a + b == a;
    } else {
      assert (a + b)[..|a + b| - 1] == a + b[..|b| - 1];
      assert (a + b)[|a + b| - 1] == b[|b| - 1];
      TotalEmployeesAppend(a, b[..|b| - 1]);
    }
  }

  /** A record whose count is missing adds 0, one whose count is present adds
      that count. */
  lemma TotalEmployeesCons(c: Company, rest: seq<Company>)
    ensures TotalEmployees([c] + rest) ==
      (if c.employeeCount.Some? then c.employeeCount.value else 0) + TotalEmployees(rest)
  {
    TotalEmployeesAppend([c], rest);
  }

  /** Taking one record out of a list takes its count out of the total. */
  lemma {:induction false} TotalEmployeesRemove(front: seq<Company>, x: Company, back: seq<Company>)
    ensures TotalEmployees(front + [x] + back) == CountOrZero(x) + TotalEmployees(front + back)
  {
    assert front + [x] + back == front + ([x] + back);
    TotalEmployeesAppend(front, [x] + back);
    TotalEmployeesCons(x, back);
    TotalEmployeesAppend(front, back);
  }

  /** Moving one record from the front of a list to another place keeps the
      total, given that the rest of the two lists have the same total. */
  lemma TotalEmployeesMoveOne(x: Company, rest: seq<Company>, front: seq<Company>, back: seq<Company>)
    requires TotalEmployees(rest) == TotalEmployees(front + back)
    ensures TotalEmployees([x] + rest) == TotalEmployees(front + [x] + back)
  {
    TotalEmployeesRemove(front, x, back);
    TotalEmployeesRemove([], x, rest);
    assert [] + [x] + rest == [x] + rest;
    assert [] + rest == rest;
  }

  /** The total does not depend on the order of the list. */
  lemma {:induction false} TotalEmployeesPermutation(a: seq<Company>, b: seq<Company>)
    requires multiset(a) == multiset(b)
    ensures TotalEmployees(a) == TotalEmployees(b)
  {
    if a != [] {
      var x := a[0];
      var rest := a[1..];
      assert x in multiset(b);
      var k :| 0 <= k < |b| && b[k] == x;
      var front := b[..k];
      var back := b[k + 1..];
      assert b == front + [x] + back;
      assert a == [x] + rest;
      assert multiset(rest) == multiset(front + back) by {
        assert multiset(b) == multiset(front) + multiset{x} + multiset(back);
        assert multiset(a) == multiset{x} + multiset(rest);
        assert multiset(rest) == multiset(a) - multiset{x};
        assert multiset(front + back) == multiset(b) - multiset{x};
      }
      TotalEmployeesPermutation(rest, front + back);
      TotalEmployeesMoveOne(x, rest, front, back);
    } else {
      assert b == [] by { assert |multiset(b)| == 0; }
    }
  }
}
