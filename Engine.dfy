/** The filter and sort engine: `filteredCompanies` applies up to five
    predicates one after another, then sorts the survivors in place by the
    selected key. */
module Engine {
  import opened Text
  import opened Directory
  import opened Filters

  // ---------------------------------------------------------------------
  // Filtering

  /** One `output.filter(...)` stage, with the query already lowercased where
      the source lowercases it. */
  datatype Criterion =
    | NameHas(term: string)
    | IndustryIs(industry: string)
    | CountryIs(country: string)
    | StateIs(state: string)
    | CityOrPostalHas(term: string)

  predicate Holds(cr: Criterion, c: Company) {
    match cr
    case NameHas(term) => Contains(Lower(c.name), term)
    case IndustryIs(v) => c.industry == v
    case CountryIs(v) => c.country == v
    case StateIs(v) => c.state == v
    case CityOrPostalHas(term) => Contains(Lower(c.city), term) || Contains(Lower(c.postalCode), term)
  }

  /** `s.filter(c => Holds(cr, c))`: the records that pass, each as often as
      it occurs in `s`, in their original order. */
  function Where(s: seq<Company>, cr: Criterion): (r: seq<Company>)
    ensures forall c :: c in r ==> Holds(cr, c)
    ensures forall c :: multiset(r)[c] == if Holds(cr, c) then multiset(s)[c] else 0
  {
    if s == [] then []
    else
      assert s == [s[0]] + s[1..];
      (if Holds(cr, s[0]) then [s[0]] else []) + Where(s[1..], cr)
  }

  /** The stages `filteredCompanies` runs for `f`, in its order; a field at
      its sentinel (`''` or `'all'`) contributes no stage. */
  function ActiveCriteria(f: Filters): (r: seq<Criterion>)
    ensures |r| <= 5
    ensures r == [] <==>
      f.searchTerm == "" && f.industry == "all" && f.country == "all" && f.state == "all" && f.city == ""
  {
    (if f.searchTerm != "" then [NameHas(Lower(f.searchTerm))] else [])
    + (if f.industry != "all" then [IndustryIs(f.industry)] else [])
    + (if f.country != "all" then [CountryIs(f.country)] else [])
    + (if f.state != "all" then [StateIs(f.state)] else [])
    + (if f.city != "" then [CityOrPostalHas(Lower(f.city))] else [])
  }

  /** Running the stages `crs` one after another. */
  function SelectBy(s: seq<Company>, crs: seq<Criterion>): seq<Company>
    decreases |crs|
  {
    if crs == [] then s else Where(SelectBy(s, crs[..|crs| - 1]), crs[|crs| - 1])
  }

  /** The records `filteredCompanies` keeps for `f`, before sorting. */
  function Selected(s: seq<Company>, f: Filters): seq<Company> {
    SelectBy(s, ActiveCriteria(f))
  }

  /** Every active predicate of `f` holds of `c`, written out field by field:
      the name contains the search term, ignoring case; industry, country and
      state equal their selections; the city or the postal code contains the
      city query, ignoring case. */
  predicate Matches(f: Filters, c: Company) {
    && (f.searchTerm != "" ==> Contains(Lower(c.name), Lower(f.searchTerm)))
    && (f.industry != "all" ==> c.industry == f.industry)
    && (f.country != "all" ==> c.country == f.country)
    && (f.state != "all" ==> c.state == f.state)
    && (f.city != "" ==> Contains(Lower(c.city), Lower(f.city)) || Contains(Lower(c.postalCode), Lower(f.city)))
  }

  /** Every criterion of `crs` holds of `c`. */
  predicate AllHold(crs: seq<Criterion>, c: Company) {
    forall cr :: cr in crs ==> Holds(cr, c)
  }

  lemma AllHoldConcat(a: seq<Criterion>, b: seq<Criterion>, c: Company)
    ensures AllHold(a + b, c) <==> AllHold(a, c) && AllHold(b, c)
  {
  }

  /** The stages so far all pass and the last one passes. */
  lemma AllHoldSnoc(crs: seq<Criterion>, c: Company)
    requires crs != []
    ensures AllHold(crs, c) <==> AllHold(crs[..|crs| - 1], c) && Holds(crs[|crs| - 1], c)
  {
    assert crs == crs[..|crs| - 1] + [crs[|crs| - 1]];
    AllHoldConcat(crs[..|crs| - 1], [crs[|crs| - 1]], c);
    AllHoldSingle(crs[|crs| - 1], c);
  }

  lemma AllHoldSingle(cr: Criterion, c: Company)
    ensures AllHold([cr], c) <==> Holds(cr, c)
  {
    assert cr in [cr];
  }

  /** Running the active stages of `f` keeps exactly what `Matches` says. */
  lemma ActiveCriteriaMatch(f: Filters, c: Company)
    ensures AllHold(ActiveCriteria(f), c) <==> Matches(f, c)
  {
    var s1 := if f.searchTerm != "" then [NameHas(Lower(f.searchTerm))] else [];
    var s2 := if f.industry != "all" then [IndustryIs(f.industry)] else [];
    var s3 := if f.country != "all" then [CountryIs(f.country)] else [];
    var s4 := if f.state != "all" then [StateIs(f.state)] else [];
    var s5 := if f.city != "" then [CityOrPostalHas(Lower(f.city))] else [];
    assert ActiveCriteria(f) == s1 + s2 + s3 + s4 + s5;
    if f.searchTerm != "" { AllHoldSingle(NameHas(Lower(f.searchTerm)), c); }
    if f.industry != "all" { AllHoldSingle(IndustryIs(f.industry), c); }
    if f.country != "all" { AllHoldSingle(CountryIs(f.country), c); }
    if f.state != "all" { AllHoldSingle(StateIs(f.state), c); }
    if f.city != "" { AllHoldSingle(CityOrPostalHas(Lower(f.city)), c); }
    assert AllHold(s1, c) <==> (f.searchTerm != "" ==> Contains(Lower(c.name), Lower(f.searchTerm)));
    assert AllHold(s2, c) <==> (f.industry != "all" ==> c.industry == f.industry);
    assert AllHold(s3, c) <==> (f.country != "all" ==> c.country == f.country);
    assert AllHold(s4, c) <==> (f.state != "all" ==> c.state == f.state);
    assert AllHold(s5, c) <==> (f.city != "" ==>
      Contains(Lower(c.city), Lower(f.city)) || Contains(Lower(c.postalCode), Lower(f.city)));
    AllHoldConcat(s1 + s2 + s3 + s4, s5, c);
    AllHoldConcat(s1 + s2 + s3, s4, c);
    AllHoldConcat(s1 + s2, s3, c);
    AllHoldConcat(s1, s2, c);
  }

  lemma {:induction false} SelectByCount(s: seq<Company>, crs: seq<Criterion>, c: Company)
    ensures multiset(SelectBy(s, crs))[c] == if AllHold(crs, c) then multiset(s)[c] else 0
    decreases |crs|
  {
    if crs != [] {
      var init := crs[..|crs| - 1];
      var last := crs[|crs| - 1];
      var prev := SelectBy(s, init);
      SelectByCount(s, init, c);
      assert SelectBy(s, crs) == Where(prev, last);
      assert multiset(Where(prev, last))[c] == if Holds(last, c) then multiset(prev)[c] else 0;
      AllHoldSnoc(crs, c);
    }
  }

  /** One more stage filters the output of the earlier ones. */
  lemma SelectByStage(s: seq<Company>, crs: seq<Criterion>, cr: Criterion)
    ensures SelectBy(s, crs + [cr]) == Where(SelectBy(s, crs), cr)
  {
    assert (crs + [cr])[..|crs|] == crs;
  }

  /** Soundness, completeness and no duplication: a record that satisfies
      every active predicate is kept exactly as often as it occurs in the
      input, any other record not at all. */
  lemma SelectedCount(s: seq<Company>, f: Filters, c: Company)
    ensures multiset(Selected(s, f))[c] == if Matches(f, c) then multiset(s)[c] else 0
  {
    SelectByCount(s, ActiveCriteria(f), c);
    ActiveCriteriaMatch(f, c);
  }

  /** With the five filter fields at their defaults there is no stage:
      everything is kept, in order, whatever the sort. */
  lemma DefaultSelectsAll(s: seq<Company>, f: Filters)
    requires f.searchTerm == "" && f.industry == "all" && f.country == "all"
    requires f.state == "all" && f.city == ""
    ensures Selected(s, f) == s
  {
    assert ActiveCriteria(f) == [];
  }

  // ---------------------------------------------------------------------
  // Sorting

  /** The four comparators of the `switch` on `sortBy`. */
  datatype SortKey = NameAsc | NameDesc | SizeDesc | SizeAsc

  /** The `switch (filters.sortBy)`: an unknown value falls through to the
      `default` branch, name ascending. */
  function SortKeyOf(sortBy: string): (k: SortKey)
    ensures k == NameDesc <==> sortBy == "name-desc"
    ensures k == SizeDesc <==> sortBy == "size-desc"
    ensures k == SizeAsc <==> sortBy == "size-asc"
    ensures k == NameAsc <==> sortBy !in {"name-desc", "size-desc", "size-asc"}
  {
    if sortBy == "name-desc" then NameDesc
    else if sortBy == "size-desc" then SizeDesc
    else if sortBy == "size-asc" then SizeAsc
    else NameAsc
  }

  /** The comparator of `key` does not put `x` after `y` (it returns a
      value <= 0). Names compare by the string order; a missing employee
      count compares as 0. */
  predicate InOrder(key: SortKey, x: Company, y: Company) {
    match key
    case NameAsc => LessEq(x.name, y.name)
    case NameDesc => LessEq(y.name, x.name)
    case SizeDesc => CountOrZero(y) <= CountOrZero(x)
    case SizeAsc => CountOrZero(x) <= CountOrZero(y)
  }

  lemma InOrderTotal(key: SortKey, x: Company, y: Company)
    ensures InOrder(key, x, y) || InOrder(key, y, x)
  {
    LessTotal(x.name, y.name);
  }

  lemma InOrderTransitive(key: SortKey, x: Company, y: Company, z: Company)
    requires InOrder(key, x, y) && InOrder(key, y, z)
    ensures InOrder(key, x, z)
  {
    match key
    case NameAsc => LessEqTransitive(x.name, y.name, z.name);
    case NameDesc => LessEqTransitive(z.name, y.name, x.name);
    case SizeDesc =>
    case SizeAsc =>
  }

  predicate SortedBy(s: seq<Company>, key: SortKey) {
    forall i, j :: 0 <= i < j < |s| ==> InOrder(key, s[i], s[j])
  }

  /** `output.sort(comparator)`, as an insertion sort by adjacent swaps. */
  method SortInPlace(a: array<Company>, key: SortKey)
    modifies a
    ensures SortedBy(a[..], key)
    ensures multiset(a[..]) == multiset(old(a[..]))
  {
    var i := 0;
    while i < a.Length
      invariant 0 <= i <= a.Length
      invariant forall p, q :: 0 <= p < q < i ==> InOrder(key, a[p], a[q])
      invariant multiset(a[..]) == multiset(old(a[..]))
    {
      SinkLast(a, i, key);
      i := i + 1;
    }
  }

  /** One round of the insertion sort: `a[i]` is swapped down into the sorted
      prefix `a[..i]`, which then extends to `a[..i + 1]`. */
  method SinkLast(a: array<Company>, i: nat, key: SortKey)
    requires i < a.Length
    requires forall p, q :: 0 <= p < q < i ==> InOrder(key, a[p], a[q])
    modifies a
    ensures forall p, q :: 0 <= p < q <= i ==> InOrder(key, a[p], a[q])
    ensures multiset(a[..]) == multiset(old(a[..]))
  {
    var j := i;
    while j > 0 && !InOrder(key, a[j - 1], a[j])
      invariant 0 <= j <= i
      invariant SortedExcept(a[..], i, j, key)
      invariant LeadsRest(a[..], i, j, key)
      invariant multiset(a[..]) == multiset(old(a[..]))
    {
      InOrderTotal(key, a[j - 1], a[j]);
      ghost var s := a[..];
      a[j - 1], a[j] := a[j], a[j - 1];
      SwapDown(s, a[..], i, j, key);
      j := j - 1;
    }
    SinkDone(a[..], i, j, key);
  }

  /** `s[..i + 1]` is in order except possibly around position `j`. */
  ghost predicate SortedExcept(s: seq<Company>, i: int, j: int, key: SortKey) {
    i < |s| && forall p, q :: 0 <= p < q <= i && p != j && q != j ==> InOrder(key, s[p], s[q])
  }

  /** `s[j]` is in order with everything after it up to `i`. */
  ghost predicate LeadsRest(s: seq<Company>, i: int, j: int, key: SortKey) {
    0 <= j <= i < |s| && forall q :: j < q <= i ==> InOrder(key, s[j], s[q])
  }

  /** Swapping the sinking record with its predecessor moves the gap down. */
  lemma SwapDown(s: seq<Company>, t: seq<Company>, i: int, j: int, key: SortKey)
    requires 0 < j
    requires SortedExcept(s, i, j, key) && LeadsRest(s, i, j, key)
    requires InOrder(key, s[j], s[j - 1])
    requires t == s[j - 1 := s[j]][j := s[j - 1]]
    ensures SortedExcept(t, i, j - 1, key) && LeadsRest(t, i, j - 1, key)
  {
  }

  /** Once the sinking record is in order with its predecessor, the whole
      prefix is in order. */
  lemma SinkDone(s: seq<Company>, i: int, j: int, key: SortKey)
    requires SortedExcept(s, i, j, key) && LeadsRest(s, i, j, key)
    requires j == 0 || InOrder(key, s[j - 1], s[j])
    ensures forall p, q :: 0 <= p < q <= i ==> InOrder(key, s[p], s[q])
  {
    forall p | 0 <= p < j ensures InOrder(key, s[p], s[j]) {
      if p < j - 1 { InOrderTransitive(key, s[p], s[j - 1], s[j]); }
    }
  }

  /** No two records share a name. */
  predicate DistinctNames(s: seq<Company>) {
    forall i, j :: 0 <= i < j < |s| ==> s[i].name != s[j].name
  }

  lemma SortedBySlice(s: seq<Company>, key: SortKey, lo: int, hi: int)
    requires SortedBy(s, key) && 0 <= lo <= hi <= |s|
    ensures SortedBy(s[lo..hi], key)
  {
    forall i, j | 0 <= i < j < hi - lo ensures InOrder(key, s[lo..hi][i], s[lo..hi][j]) {
      assert s[lo..hi][i] == s[lo + i] && s[lo..hi][j] == s[lo + j];
    }
  }

  /** Taking the same record off the end of one list and the front of the
      other keeps their multisets equal. */
  lemma MultisetPeel(a: seq<Company>, b: seq<Company>)
    requires multiset(a) == multiset(b) && a != [] && b != [] && a[|a| - 1] == b[0]
    ensures multiset(a[..|a| - 1]) == multiset(b[1..])
  {
    var top := b[0];
    assert a == a[..|a| - 1] + [top];
    assert b == [top] + b[1..];
    assert multiset(a[..|a| - 1]) == multiset(a) - multiset{top};
    assert multiset(b[1..]) == multiset(b) - multiset{top};
  }

  /** The first record in name-descending order is the last one in
      name-ascending order. */
  lemma NameSortsEnds(a: seq<Company>, b: seq<Company>)
    requires multiset(a) == multiset(b) && a != []
    requires DistinctNames(a)
    requires SortedBy(a, NameAsc) && SortedBy(b, NameDesc)
    ensures b != [] && b[0] == a[|a| - 1]
  {
    var n := |a|;
    var top := a[n - 1];
    assert top in multiset(b);
    var k :| 0 <= k < |b| && b[k] == top;
    assert b[0] in multiset(a);
    var j :| 0 <= j < n && a[j] == b[0];
    if j < n - 1 { assert InOrder(NameAsc, a[j], a[n - 1]); }
    if k > 0 { assert InOrder(NameDesc, b[0], b[k]); }
    LessEqAntisymmetric(a[j].name, top.name);
  }

  /** Predicates `NameSortsReverse` passes on to the lists without their
      shared extreme record. */
  lemma NameSortsTails(a: seq<Company>, b: seq<Company>)
    requires multiset(a) == multiset(b) && a != []
    requires DistinctNames(a)
    requires SortedBy(a, NameAsc) && SortedBy(b, NameDesc)
    ensures b != [] && b[0] == a[|a| - 1]
    ensures multiset(a[..|a| - 1]) == multiset(b[1..])
    ensures DistinctNames(a[..|a| - 1])
    ensures SortedBy(a[..|a| - 1], NameAsc) && SortedBy(b[1..], NameDesc)
  {
    NameSortsEnds(a, b);
    MultisetPeel(a, b);
    SortedBySlice(a, NameAsc, 0, |a| - 1);
    assert |b| == |a| by { assert |multiset(a)| == |multiset(b)|; }
    SortedBySlice(b, NameDesc, 1, |b|);
  }

  /** One record placed at the front of one list and the end of the other
      keeps them each other's reverse. */
  lemma ReverseCons(a: seq<Company>, b: seq<Company>)
    requires a != [] && |a| == |b| && b[0] == a[|a| - 1]
    requires forall i :: 0 <= i < |a| - 1 ==> b[1..][i] == a[..|a| - 1][|a| - 2 - i]
    ensures forall i :: 0 <= i < |a| ==> b[i] == a[|a| - 1 - i]
  {
    forall i | 0 < i < |a| ensures b[i] == a[|a| - 1 - i] {
      assert b[i] == b[1..][i - 1];
      assert a[|a| - 1 - i] == a[..|a| - 1][|a| - 2 - (i - 1)];
    }
  }

  /** With no two records sharing a name, the name-ascending and the
      name-descending orders of the same records are each other's reverse. */
  lemma {:induction false} NameSortsReverse(a: seq<Company>, b: seq<Company>)
    requires multiset(a) == multiset(b)
    requires DistinctNames(a)
    requires SortedBy(a, NameAsc) && SortedBy(b, NameDesc)
    ensures |a| == |b|
    ensures forall i :: 0 <= i < |a| ==> b[i] == a[|a| - 1 - i]
  {
    assert |a| == |b| by { assert |multiset(a)| == |multiset(b)|; }
    if a != [] {
      NameSortsTails(a, b);
      NameSortsReverse(a[..|a| - 1], b[1..]);
      ReverseCons(a, b);
    }
  }

  // ---------------------------------------------------------------------
  // The engine

  /** One `if (...) { output = output.filter(...) }` block: when `active`,
      the stage `cr` is run on the output of the stages `applied` so far. */
  method ApplyStage(ghost companies: seq<Company>, ghost applied: seq<Criterion>,
                    output: seq<Company>, active: bool, cr: Criterion)
    returns (output': seq<Company>, ghost applied': seq<Criterion>)
    requires output == SelectBy(companies, applied)
    ensures applied' == applied + (if active then [cr] else [])
    ensures output' == SelectBy(companies, applied')
  {
    if active {
      SelectByStage(companies, applied, cr);
      output' := Where(output, cr);
      applied' := applied + [cr];
    } else {
      output', applied' := output, applied;
      assert applied + [] == applied;
    }
  }

  /** The filtering half of `filteredCompanies`: `output` starts as a copy
      of the list and is replaced by each active stage in turn. */
  method ApplyFilters(companies: seq<Company>, f: Filters) returns (output: seq<Company>)
    ensures output == Selected(companies, f)
  {
    output := companies;
    ghost var applied: seq<Criterion> := [];
    output, applied := ApplyStage(companies, applied, output, f.searchTerm != "", NameHas(Lower(f.searchTerm)));
    output, applied := ApplyStage(companies, applied, output, f.industry != "all", IndustryIs(f.industry));
    output, applied := ApplyStage(companies, applied, output, f.country != "all", CountryIs(f.country));
    output, applied := ApplyStage(companies, applied, output, f.state != "all", StateIs(f.state));
    output, applied := ApplyStage(companies, applied, output, f.city != "", CityOrPostalHas(Lower(f.city)));
    assert applied == ActiveCriteria(f);
  }

  /** What sortedness by the selected key says for each value of `sortBy`. */
  lemma SortedByReadings(s: seq<Company>, sortBy: string)
    requires SortedBy(s, SortKeyOf(sortBy))
    ensures sortBy == "size-asc" ==>
      forall i, j :: 0 <= i < j < |s| ==> CountOrZero(s[i]) <= CountOrZero(s[j])
    ensures sortBy == "size-desc" ==>
      forall i, j :: 0 <= i < j < |s| ==> CountOrZero(s[i]) >= CountOrZero(s[j])
    ensures sortBy == "name-desc" ==>
      forall i, j :: 0 <= i < j < |s| ==> LessEq(s[j].name, s[i].name)
    ensures sortBy !in {"name-desc", "size-desc", "size-asc"} ==>
      forall i, j :: 0 <= i < j < |s| ==> LessEq(s[i].name, s[j].name)
  {
  }

  /** `filteredCompanies`: every active stage in turn, then the sort selected
      by `sortBy`. The result holds exactly the matching records, each as
      often as in the input, in the order of the sort key. */
  method FilteredCompanies(companies: seq<Company>, f: Filters) returns (output: seq<Company>)
    ensures multiset(output) == multiset(Selected(companies, f))
    ensures forall c :: multiset(output)[c] == if Matches(f, c) then multiset(companies)[c] else 0
    ensures SortedBy(output, SortKeyOf(f.sortBy))
    ensures f.sortBy == "size-asc" ==>
      forall i, j :: 0 <= i < j < |output| ==> CountOrZero(output[i]) <= CountOrZero(output[j])
    ensures f.sortBy == "size-desc" ==>
      forall i, j :: 0 <= i < j < |output| ==> CountOrZero(output[i]) >= CountOrZero(output[j])
    ensures f.sortBy == "name-desc" ==>
      forall i, j :: 0 <= i < j < |output| ==> LessEq(output[j].name, output[i].name)
    ensures f.sortBy !in {"name-desc", "size-desc", "size-asc"} ==>
      forall i, j :: 0 <= i < j < |output| ==> LessEq(output[i].name, output[j].name)
  {
    var selected := ApplyFilters(companies, f);
    var a := new Company[|selected|](i requires 0 <= i < |selected| => selected[i]);
    assert a[..] == selected;
    SortInPlace(a, SortKeyOf(f.sortBy));
    output := a[..];
    forall c ensures multiset(output)[c] == if Matches(f, c) then multiset(companies)[c] else 0 {
      SelectedCount(companies, f, c);
    }
    SortedByReadings(output, f.sortBy);
  }
}
