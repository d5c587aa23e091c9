/** The option lists derived from the whole company list: industries,
    countries, states per country, cities per state and the lowercase city to
    postal-code lookup. */
module Options {
  import opened Text
  import opened Directory

  /** `Array.from(new Set(companies.map(c => c.industry))).sort()`: every
      industry value once, ascending. Empty values are kept. */
  function Industries(cs: seq<Company>): (r: seq<string>)
    ensures StrictlyAscending(r)
    ensures forall x :: x in r <==> exists c :: c in cs && c.industry == x
  {
    var column := seq(|cs|, i requires 0 <= i < |cs| => cs[i].industry);
    assert forall c :: c in cs ==> c.industry in column by {
      forall c | c in cs ensures c.industry in column {
        var i :| 0 <= i < |cs| && cs[i] == c;
        assert column[i] == c.industry;
      }
    }
    SortedDistinct(column)
  }

  /** One entry of a state's city list: `{ name, postalCode }`. */
  datatype CityOption = CityOption(name: string, postalCode: string)

  /** The value of `locationOptions`. `cities[state]` is the entry list of the
      state's JS `Map` in insertion order. */
  datatype LocationOptions = LocationOptions(
    countries: seq<string>,
    states: map<string, seq<string>>,
    cities: map<string, seq<CityOption>>,
    cityLookup: map<string, string>)

  // ---------------------------------------------------------------------
  // What each accumulator of the derivation holds after a list of companies

  /** `countriesSet`, and the keys of `statesByCountry`: the truthy countries. */
  function CountrySet(cs: seq<Company>): set<string> {
    set c | c in cs && c.country != "" :: c.country
  }

  /** `statesByCountry[country]`: the truthy states of that country's
      companies. */
  function StatesOf(cs: seq<Company>, country: string): set<string> {
    set c | c in cs && c.country == country && c.state != "" :: c.state
  }

  /** The keys of `citiesByState`: the truthy states. */
  function StateSet(cs: seq<Company>): set<string> {
    set c | c in cs && c.state != "" :: c.state
  }

  /** Company `c` writes the city `name` into the city map of `state`. */
  predicate Carries(c: Company, state: string, name: string) {
    state != "" && name != "" && c.state == state && c.city == name
  }

  predicate NamesDistinct(m: seq<CityOption>) {
    forall i, j :: 0 <= i < j < |m| ==> m[i].name != m[j].name
  }

  /** `Map.prototype.set` on an entry list: an existing key keeps its place
      and takes the new value, a new key goes at the end. */
  function MapSet(m: seq<CityOption>, name: string, postal: string): (r: seq<CityOption>)
    requires NamesDistinct(m)
    ensures NamesDistinct(r)
    ensures (forall i :: 0 <= i < |m| ==> m[i].name != name) ==> r == m + [CityOption(name, postal)]
    ensures forall i :: 0 <= i < |m| && m[i].name == name ==> r == m[i := CityOption(name, postal)]
  {
    if m == [] then [CityOption(name, postal)]
    else if m[0].name == name then [CityOption(name, postal)] + m[1..]
    else [m[0]] + MapSet(m[1..], name, postal)
  }

  /** `citiesByState[state]` after the companies `cs`. */
  function CityMap(cs: seq<Company>, state: string): (r: seq<CityOption>)
    ensures NamesDistinct(r)
  {
    if cs == [] then []
    else
      var m := CityMap(cs[..|cs| - 1], state);
      var c := cs[|cs| - 1];
      if Carries(c, state, c.city) then MapSet(m, c.city, c.postalCode) else m
  }

  /** Company `c` is looked at by the city lookup under `key`. */
  predicate Feeds(c: Company, key: string) {
    c.state != "" && c.city != "" && Lower(c.city) == key
  }

  /** The keys of `cityLookup`: lowercased cities of companies with a truthy
      state and city. */
  function LookupKeys(cs: seq<Company>): set<string> {
    set c | c in cs && c.state != "" && c.city != "" :: Lower(c.city)
  }

  /** `cityLookup[key]` after the companies `cs`: a falsy entry is
      overwritten, a truthy one is kept. */
  function LookupValue(cs: seq<Company>, key: string): string {
    if cs == [] then ""
    else
      var v := LookupValue(cs[..|cs| - 1], key);
      var c := cs[|cs| - 1];
      if Feeds(c, key) && v == "" then c.postalCode else v
  }

  /** What `locationOptions` is for the companies `cs`. */
  ghost predicate IsLocationOptions(cs: seq<Company>, o: LocationOptions) {
    && StrictlyAscending(o.countries)
    && (forall x :: x in o.countries <==> x in CountrySet(cs))
    && o.states.Keys == CountrySet(cs)
    && (forall k :: k in o.states ==> StrictlyAscending(o.states[k]))
    && (forall k, s :: k in o.states ==> (s in o.states[k] <==> s in StatesOf(cs, k)))
    && o.cities.Keys == StateSet(cs)
    && (forall k :: k in o.cities ==> o.cities[k] == CityMap(cs, k))
    && o.cityLookup.Keys == LookupKeys(cs)
    && (forall k :: k in o.cityLookup ==> o.cityLookup[k] == LookupValue(cs, k))
  }

  // ---------------------------------------------------------------------
  // How each accumulator changes when one more company is visited

  lemma VisitCountrySet(before: seq<Company>, c: Company)
    ensures CountrySet(before + [c]) == CountrySet(before) + (if c.country != "" then {c.country} else {})
  {
  }

  lemma VisitStateSet(before: seq<Company>, c: Company)
    ensures StateSet(before + [c]) == StateSet(before) + (if c.state != "" then {c.state} else {})
  {
  }

  lemma VisitLookupKeys(before: seq<Company>, c: Company)
    ensures LookupKeys(before + [c]) ==
      LookupKeys(before) + (if c.state != "" && c.city != "" then {Lower(c.city)} else {})
  {
  }

  lemma VisitStates(before: seq<Company>, c: Company, k: string)
    ensures StatesOf(before + [c], k) ==
      StatesOf(before, k) + (if c.country == k && c.state != "" then {c.state} else {})
  {
  }

  lemma VisitCityMapStep(before: seq<Company>, c: Company, k: string)
    ensures CityMap(before + [c], k) ==
      if Carries(c, k, c.city) then MapSet(CityMap(before, k), c.city, c.postalCode) else CityMap(before, k)
  {
    assert (before + [c])[..|before|] == before;
  }

  lemma VisitLookupStep(before: seq<Company>, c: Company, k: string)
    ensures LookupValue(before + [c], k) ==
      if Feeds(c, k) && LookupValue(before, k) == "" then c.postalCode else LookupValue(before, k)
  {
    assert (before + [c])[..|before|] == before;
  }

  /** A country not yet seen has no states. */
  lemma StatesOfUnseen(cs: seq<Company>, k: string)
    requires k != "" && k !in CountrySet(cs)
    ensures StatesOf(cs, k) == {}
  {
  }

  /** A state not yet seen has an empty city map. */
  lemma {:induction false} CityMapUnseen(cs: seq<Company>, k: string)
    requires k !in StateSet(cs)
    ensures CityMap(cs, k) == []
  {
    if cs != [] {
      var init := cs[..|cs| - 1];
      var c := cs[|cs| - 1];
      assert cs == init + [c];
      VisitStateSet(init, c);
      CityMapUnseen(init, k);
    }
  }

  /** A key not yet seen has no lookup value. */
  lemma {:induction false} LookupValueUnseen(cs: seq<Company>, k: string)
    requires k !in LookupKeys(cs)
    ensures LookupValue(cs, k) == ""
  {
    if cs != [] {
      var init := cs[..|cs| - 1];
      var c := cs[|cs| - 1];
      assert cs == init + [c];
      VisitLookupKeys(init, c);
      LookupValueUnseen(init, k);
    }
  }

  // ---------------------------------------------------------------------
  // The derivation: one pass over the companies, then a sorting pass

  /** `countriesSet` and `statesByCountry` describe the companies `cs`. */
  ghost predicate CountryAccumulators(cs: seq<Company>, countriesSet: set<string>,
                                      statesByCountry: map<string, set<string>>) {
    && countriesSet == CountrySet(cs)
    && statesByCountry.Keys == CountrySet(cs)
    && forall k :: k in statesByCountry ==> statesByCountry[k] == StatesOf(cs, k)
  }

  /** `citiesByState` describes the companies `cs`. */
  ghost predicate CityAccumulator(cs: seq<Company>, citiesByState: map<string, seq<CityOption>>) {
    && citiesByState.Keys == StateSet(cs)
    && forall k :: k in citiesByState ==> citiesByState[k] == CityMap(cs, k)
  }

  /** `cityLookup` describes the companies `cs`. */
  ghost predicate LookupAccumulator(cs: seq<Company>, cityLookup: map<string, string>) {
    && cityLookup.Keys == LookupKeys(cs)
    && forall k :: k in cityLookup ==> cityLookup[k] == LookupValue(cs, k)
  }

  /** The country part of the `forEach` callback: a truthy country is added
      to `countriesSet`, gets a (possibly empty) state set, and the company's
      truthy state is added to it. */
  method VisitCountry(ghost before: seq<Company>, c: Company,
                      countriesSet: set<string>, statesByCountry: map<string, set<string>>)
    returns (countriesSet': set<string>, statesByCountry': map<string, set<string>>)
    requires CountryAccumulators(before, countriesSet, statesByCountry)
    ensures CountryAccumulators(before + [c], countriesSet', statesByCountry')
  {
    VisitCountrySet(before, c);
    countriesSet', statesByCountry' := countriesSet, statesByCountry;
    if c.country != "" {
      countriesSet' := countriesSet' + {c.country};
      if c.country !in statesByCountry' {
        StatesOfUnseen(before, c.country);
        statesByCountry' := statesByCountry'[c.country := {}];
      }
      if c.state != "" {
        statesByCountry' := statesByCountry'[c.country := statesByCountry'[c.country] + {c.state}];
      }
    }
    forall k | k in statesByCountry' ensures statesByCountry'[k] == StatesOf(before + [c], k) {
      VisitStates(before, c, k);
    }
  }

  /** The city-map part of the callback: a truthy state gets a (possibly
      empty) `Map`, and a truthy city is `set` in it with its postal code. */
  method VisitCityMap(ghost before: seq<Company>, c: Company, citiesByState: map<string, seq<CityOption>>)
    returns (citiesByState': map<string, seq<CityOption>>)
    requires CityAccumulator(before, citiesByState)
    ensures CityAccumulator(before + [c], citiesByState')
  {
    VisitStateSet(before, c);
    citiesByState' := citiesByState;
    if c.state != "" {
      if c.state !in citiesByState' {
        CityMapUnseen(before, c.state);
        citiesByState' := citiesByState'[c.state := []];
      }
      if c.city != "" {
        citiesByState' := citiesByState'[c.state := MapSet(citiesByState'[c.state], c.city, c.postalCode)];
      }
    }
    forall k | k in citiesByState' ensures citiesByState'[k] == CityMap(before + [c], k) {
      VisitCityMapStep(before, c, k);
    }
  }

  /** The lookup part of the callback: a truthy city of a company with a
      truthy state enters `cityLookup` under its lowercase name unless a
      truthy postal code is already stored there. */
  method VisitCityLookup(ghost before: seq<Company>, c: Company, cityLookup: map<string, string>)
    returns (cityLookup': map<string, string>)
    requires LookupAccumulator(before, cityLookup)
    ensures LookupAccumulator(before + [c], cityLookup')
  {
    VisitLookupKeys(before, c);
    cityLookup' := cityLookup;
    if c.state != "" && c.city != "" {
      var key := Lower(c.city);
      if key !in cityLookup' || cityLookup'[key] == "" {
        cityLookup' := cityLookup'[key := c.postalCode];
      }
    }
    forall k | k in cityLookup' ensures cityLookup'[k] == LookupValue(before + [c], k) {
      VisitLookupStep(before, c, k);
      if k !in cityLookup { LookupValueUnseen(before, k); }
    }
  }

  /** `locationOptions`: the `forEach` over the companies fills
      `countriesSet`, `statesByCountry`, `citiesByState` and `cityLookup`;
      then countries and every country's states are sorted. */
  method DeriveLocationOptions(companies: seq<Company>) returns (o: LocationOptions)
    ensures IsLocationOptions(companies, o)
  {
    var countriesSet: set<string> := {};
    var statesByCountry: map<string, set<string>> := map[];
    var citiesByState: map<string, seq<CityOption>> := map[];
    var cityLookup: map<string, string> := map[];
    var i := 0;
    while i < |companies|
      invariant 0 <= i <= |companies|
      invariant CountryAccumulators(companies[..i], countriesSet, statesByCountry)
      invariant CityAccumulator(companies[..i], citiesByState)
      invariant LookupAccumulator(companies[..i], cityLookup)
    {
      var c := companies[i];
      assert companies[..i + 1] == companies[..i] + [c];
      countriesSet, statesByCountry := VisitCountry(companies[..i], c, countriesSet, statesByCountry);
      citiesByState := VisitCityMap(companies[..i], c, citiesByState);
      cityLookup := VisitCityLookup(companies[..i], c, cityLookup);
      i := i + 1;
    }
    assert companies[..i] == companies;

    var countries := SortSet(countriesSet);
    var states: map<string, seq<string>> := map[];
    var pending := statesByCountry.Keys;
    while pending != {}
      invariant pending <= statesByCountry.Keys
      invariant states.Keys == statesByCountry.Keys - pending
      invariant forall k :: k in states ==> StrictlyAscending(states[k])
      invariant forall k, s :: k in states ==> (s in states[k] <==> s in statesByCountry[k])
      decreases pending
    {
      var k :| k in pending;
      var sorted := SortSet(statesByCountry[k]);
      states := states[k := sorted];
      pending := pending - {k};
    }
    o := LocationOptions(countries, states, citiesByState, cityLookup);
  }

  // ---------------------------------------------------------------------
  // Properties of the derived options

  /** The derivation is a function of the company list: two results that
      both meet the description are the same value. */
  lemma LocationOptionsUnique(cs: seq<Company>, o1: LocationOptions, o2: LocationOptions)
    requires IsLocationOptions(cs, o1) && IsLocationOptions(cs, o2)
    ensures o1 == o2
  {
    AscendingUnique(o1.countries, o2.countries);
    forall k | k in o1.states ensures o1.states[k] == o2.states[k] {
      AscendingUnique(o1.states[k], o2.states[k]);
    }
    assert o1.states == o2.states;
    assert o1.cities == o2.cities;
    assert o1.cityLookup == o2.cityLookup;
  }

  /** Every state listed under a country comes from a company of that
      country whose state is truthy, and every such state is listed. */
  lemma StatesComeFromCompanies(cs: seq<Company>, o: LocationOptions, country: string, s: string)
    requires IsLocationOptions(cs, o)
    requires country in o.states
    ensures s in o.states[country] <==>
      exists c :: c in cs && c.country == country && c.state != "" && c.state == s
  {
    assert s in o.states[country] <==> s in StatesOf(cs, country);
  }

  /** Some entry of `m` is named `n`. */
  predicate HasName(m: seq<CityOption>, n: string) {
    exists i :: 0 <= i < |m| && m[i].name == n
  }

  /** Some company of `cs` writes the city `name` into the map of `state`. */
  predicate SomeCarries(cs: seq<Company>, state: string, name: string) {
    exists p :: 0 <= p < |cs| && Carries(cs[p], state, name)
  }

  /** After `Map.set(name, ...)` the names are the old ones and `name`. */
  lemma MapSetHasName(m: seq<CityOption>, name: string, postal: string, n: string)
    requires NamesDistinct(m)
    ensures HasName(MapSet(m, name, postal), n) <==> HasName(m, n) || n == name
  {
    var r := MapSet(m, name, postal);
    if HasName(m, name) {
      var i :| 0 <= i < |m| && m[i].name == name;
      assert r == m[i := CityOption(name, postal)];
      assert r[i].name == name;
      if HasName(m, n) {
        var j :| 0 <= j < |m| && m[j].name == n;
        assert r[j].name == n;
      }
      if HasName(r, n) {
        var j :| 0 <= j < |r| && r[j].name == n;
        assert j == i || m[j].name == n;
      }
    } else {
      assert r == m + [CityOption(name, postal)];
      assert r[|m|].name == name;
      if HasName(m, n) {
        var j :| 0 <= j < |m| && m[j].name == n;
        assert r[j].name == n;
      }
      if HasName(r, n) {
        var j :| 0 <= j < |r| && r[j].name == n;
        assert j == |m| || m[j].name == n;
      }
    }
  }

  lemma SomeCarriesSnoc(init: seq<Company>, c: Company, state: string, name: string)
    ensures SomeCarries(init + [c], state, name) <==> SomeCarries(init, state, name) || Carries(c, state, name)
  {
    var cs := init + [c];
    if SomeCarries(init, state, name) {
      var p :| 0 <= p < |init| && Carries(init[p], state, name);
      assert cs[p] == init[p];
    }
    if Carries(c, state, name) {
      assert cs[|init|] == c;
    }
    if SomeCarries(cs, state, name) {
      var p :| 0 <= p < |cs| && Carries(cs[p], state, name);
      if p < |init| { assert init[p] == cs[p]; }
    }
  }

  /** The city names of a state are exactly the truthy cities of that state's
      companies. */
  lemma {:induction false} CityMapNames(cs: seq<Company>, state: string, name: string)
    ensures HasName(CityMap(cs, state), name) <==> SomeCarries(cs, state, name)
  {
    if cs != [] {
      var init := cs[..|cs| - 1];
      var c := cs[|cs| - 1];
      assert cs == init + [c];
      CityMapNames(init, state, name);
      SomeCarriesSnoc(init, c, state, name);
      if Carries(c, state, c.city) {
        MapSetHasName(CityMap(init, state), c.city, c.postalCode, name);
      }
    }
  }

  /** `Map.set` overwrites: each city's postal code is the one of the last
      company of that state that names the city. */
  lemma {:induction false} CityMapLastPostal(cs: seq<Company>, state: string, i: int)
    requires 0 <= i < |CityMap(cs, state)|
    ensures exists p :: (0 <= p < |cs|
      && Carries(cs[p], state, CityMap(cs, state)[i].name)
      && cs[p].postalCode == CityMap(cs, state)[i].postalCode
      && forall q :: p < q < |cs| ==> !Carries(cs[q], state, CityMap(cs, state)[i].name))
  {
    var init := cs[..|cs| - 1];
    var c := cs[|cs| - 1];
    var m := CityMap(init, state);
    var r := CityMap(cs, state);
    var e := r[i];
    if Carries(c, state, c.city) && e.name == c.city {
      // the last company wrote this entry
      if exists j :: 0 <= j < |m| && m[j].name == c.city {
        var j :| 0 <= j < |m| && m[j].name == c.city;
        assert r == m[j := CityOption(c.city, c.postalCode)];
        assert i == j;
      } else {
        assert r == m + [CityOption(c.city, c.postalCode)];
      }
      assert Carries(cs[|cs| - 1], state, e.name) && cs[|cs| - 1].postalCode == e.postalCode;
    } else {
      // the entry is unchanged from the earlier companies
      var i' := i;
      if Carries(c, state, c.city) {
        if exists j :: 0 <= j < |m| && m[j].name == c.city {
          var j :| 0 <= j < |m| && m[j].name == c.city;
          assert r == m[j := CityOption(c.city, c.postalCode)];
        } else {
          assert r == m + [CityOption(c.city, c.postalCode)];
        }
      }
      assert i' < |m| && m[i'] == e;
      CityMapLastPostal(init, state, i');
      var p :| 0 <= p < |init|
        && Carries(init[p], state, e.name)
        && init[p].postalCode == e.postalCode
        && forall q :: p < q < |init| ==> !Carries(init[q], state, e.name);
      assert cs[p] == init[p];
      forall q | p < q < |cs| ensures !Carries(cs[q], state, e.name) {
        if q < |init| { assert cs[q] == init[q]; }
      }
    }
  }

  /** `Map` entries keep first-insertion order: an earlier entry's city was
      named by some company before any company named the later entry's city. */
  lemma {:induction false} CityMapFirstSeenOrder(cs: seq<Company>, state: string, i: int, j: int)
    requires 0 <= i < j < |CityMap(cs, state)|
    ensures exists p :: (0 <= p < |cs|
      && Carries(cs[p], state, CityMap(cs, state)[i].name)
      && forall q :: 0 <= q <= p ==> !Carries(cs[q], state, CityMap(cs, state)[j].name))
  {
    var init := cs[..|cs| - 1];
    var c := cs[|cs| - 1];
    var m := CityMap(init, state);
    var r := CityMap(cs, state);
    var appended := Carries(c, state, c.city) && !HasName(m, c.city);
    if appended {
      assert r == m + [CityOption(c.city, c.postalCode)];
    } else if Carries(c, state, c.city) {
      var k :| 0 <= k < |m| && m[k].name == c.city;
      assert r == m[k := CityOption(c.city, c.postalCode)];
    }
    assert forall t :: 0 <= t < |m| ==> r[t].name == m[t].name;
    var p: int;
    if appended && j == |m| {
      // the later entry is new: no earlier company named it
      assert HasName(m, m[i].name);
      CityMapNames(init, state, m[i].name);
      CityMapNames(init, state, c.city);
      p :| 0 <= p < |init| && Carries(init[p], state, m[i].name);
      assert forall q :: 0 <= q <= p ==> !Carries(init[q], state, r[j].name);
    } else {
      CityMapFirstSeenOrder(init, state, i, j);
      p :| 0 <= p < |init|
        && Carries(init[p], state, m[i].name)
        && forall q :: 0 <= q <= p ==> !Carries(init[q], state, m[j].name);
    }
    assert cs[p] == init[p];
    forall q | 0 <= q <= p ensures !Carries(cs[q], state, r[j].name) {
      assert cs[q] == init[q];
    }
  }

  /** The first truthy postal code wins: a non-empty lookup value is the
      postal code of some company fed under that key all of whose earlier
      such companies had an empty postal code; an empty value means every
      such company had an empty postal code. */
  lemma {:induction false} LookupFirstTruthy(cs: seq<Company>, key: string)
    ensures LookupValue(cs, key) == "" ==>
      forall q :: 0 <= q < |cs| && Feeds(cs[q], key) ==> cs[q].postalCode == ""
    ensures LookupValue(cs, key) != "" ==>
      exists p :: 0 <= p < |cs| && Feeds(cs[p], key) && cs[p].postalCode == LookupValue(cs, key)
        && forall q :: 0 <= q < p && Feeds(cs[q], key) ==> cs[q].postalCode == ""
  {
    if cs != [] {
      var init := cs[..|cs| - 1];
      LookupFirstTruthy(init, key);
      var v := LookupValue(init, key);
      if v == "" {
        forall q | 0 <= q < |init| && Feeds(cs[q], key) ensures cs[q].postalCode == "" {
          assert cs[q] == init[q];
        }
        if LookupValue(cs, key) != "" {
          assert Feeds(cs[|cs| - 1], key);
        }
      } else {
        var p :| 0 <= p < |init| && Feeds(init[p], key) && init[p].postalCode == v
          && forall q :: 0 <= q < p && Feeds(init[q], key) ==> init[q].postalCode == "";
        assert cs[p] == init[p];
        forall q | 0 <= q < p && Feeds(cs[q], key) ensures cs[q].postalCode == "" {
          assert cs[q] == init[q];
        }
      }
    }
  }
}
