/** The derived values of the filter panel: the state and city suggestion
    lists, the postal code shown next to a chosen city, and the strip of
    active-filter chips, each of which restores one field to its default. */
module FilterPanel {
  import opened Text
  import opened Directory
  import opened Filters
  import opened Options

  // ---------------------------------------------------------------------
  // Lookups into the location options

  /** `locationOptions.states[filters.country] || []`. */
  function IndianStates(o: LocationOptions, f: Filters): seq<string> {
    if f.country in o.states then o.states[f.country] else []
  }

  /** The state list offered for a country is ascending and holds exactly the
      truthy states of that country's companies; a falsy country has none. */
  lemma IndianStatesFromCompanies(cs: seq<Company>, o: LocationOptions, f: Filters)
    requires IsLocationOptions(cs, o)
    ensures StrictlyAscending(IndianStates(o, f))
    ensures forall s :: s in IndianStates(o, f) <==>
      (f.country != "" && exists c :: c in cs && c.country == f.country && c.state == s && s != "")
  {
    if f.country != "" && f.country !in o.states {
      StatesOfUnseen(cs, f.country);
    }
  }

  /** `filters.state !== 'all' ? locationOptions.cities[filters.state] || [] : []`. */
  function CitySuggestions(o: LocationOptions, f: Filters): seq<CityOption> {
    if f.state != "all" then
      if f.state in o.cities then o.cities[f.state] else []
    else []
  }

  /** No suggestions before a state is picked; afterwards the suggestions are
      that state's city map, whose names are distinct and are exactly the
      truthy cities of the state's companies. */
  lemma CitySuggestionsFromCompanies(cs: seq<Company>, o: LocationOptions, f: Filters, name: string)
    requires IsLocationOptions(cs, o)
    ensures f.state == "all" ==> CitySuggestions(o, f) == []
    ensures f.state != "all" ==> CitySuggestions(o, f) == CityMap(cs, f.state)
    ensures NamesDistinct(CitySuggestions(o, f))
    ensures f.state != "all" ==>
      ((exists i :: 0 <= i < |CitySuggestions(o, f)| && CitySuggestions(o, f)[i].name == name) <==>
       (exists p :: 0 <= p < |cs| && Carries(cs[p], f.state, name)))
  {
    if f.state != "all" {
      if f.state !in o.cities {
        CityMapUnseen(cs, f.state);
      }
      CityMapNames(cs, f.state, name);
    }
  }

  /** `filters.city && locationOptions.cityLookup[filters.city.toLowerCase()]`,
      with every falsy outcome (an empty query, a missing key) as `""`. */
  function SelectedCityPostal(o: LocationOptions, f: Filters): string {
    if f.city == "" then ""
    else
      var key := Lower(f.city);
      if key in o.cityLookup then o.cityLookup[key] else ""
  }

  /** The postal code shown for a city query is the first truthy postal code
      recorded for that lowercase name, and nothing for an empty query. */
  lemma SelectedCityPostalFromCompanies(cs: seq<Company>, o: LocationOptions, f: Filters)
    requires IsLocationOptions(cs, o)
    ensures f.city == "" ==> SelectedCityPostal(o, f) == ""
    ensures f.city != "" ==> SelectedCityPostal(o, f) == LookupValue(cs, Lower(f.city))
  {
    if f.city != "" && Lower(f.city) !in o.cityLookup {
      LookupValueUnseen(cs, Lower(f.city));
    }
  }

  // ---------------------------------------------------------------------
  // The active-filter chips

  /** One chip: `{ key, label, resetValue }`; the label is `caption` here. */
  datatype Chip = Chip(key: FilterKey, caption: string, resetValue: string)

  /** `City/Village: <city>`, followed by ` (<postal>)` when the postal code
      is truthy. */
  function CityLabel(city: string, postal: string): (r: string)
    ensures Contains(r, city)
    ensures postal == "" <==> r == "City/Village: " + city
    ensures postal != "" ==> Contains(r, " (" + postal + ")")
  {
    var suffix := if postal != "" then " (" + postal + ")" else "";
    ContainsInside("City/Village: ", city, suffix);
    ContainsInside("City/Village: " + city, suffix, "");
    assert "City/Village: " + city + suffix + "" == "City/Village: " + city + suffix;
    assert suffix == "" ==> "City/Village: " + city + suffix == "City/Village: " + city;
    assert |"City/Village: " + city + suffix| == |"City/Village: " + city| + |suffix|;
    "City/Village: " + city + suffix
  }

  /** A string occurs in any string that has it in the middle. */
  lemma ContainsInside(a: string, s: string, b: string)
    ensures Contains(a + s + b, s)
  {
    assert (a + s + b)[|a|..|a| + |s|] == s;
    assert OccursAt(a + s + b, s, |a|);
    ContainsAt(a + s + b, s);
  }

  /** The position of a key in the chip strip. */
  function Rank(k: FilterKey): nat {
    match k
    case SearchTerm => 0
    case Industry => 1
    case Country => 2
    case State => 3
    case City => 4
    case SortBy => 5
  }

  /** The keys of the chip strip, in the order of the JS array literal. */
  const ChipKeys: seq<FilterKey> := [SearchTerm, Industry, Country, State, City]

  /** The field `key` is away from its default: `filters.searchTerm` and
      `filters.city` are truthy, the three selections are not `'all'`. */
  predicate IsActive(f: Filters, key: FilterKey) {
    key != SortBy && Get(f, key) != DefaultValue(key)
  }

  /** The chip literal for one key: its label shows the field's value and its
      reset value is the field's default. */
  function ChipOf(o: LocationOptions, f: Filters, key: FilterKey): (r: Chip)
    requires key != SortBy
    ensures r.key == key
    ensures r.resetValue == DefaultValue(key)
    ensures Contains(r.caption, Get(f, key))
  {
    match key
    case SearchTerm =>
      ContainsInside("Name: \"", f.searchTerm, "\"");
      Chip(SearchTerm, "Name: \"" + f.searchTerm + "\"", "")
    case Industry =>
      ContainsInside("Industry: ", f.industry, "");
      assert "Industry: " + f.industry + "" == "Industry: " + f.industry;
      Chip(Industry, "Industry: " + f.industry, "all")
    case Country =>
      ContainsInside("Country: ", f.country, "");
      assert "Country: " + f.country + "" == "Country: " + f.country;
      Chip(Country, "Country: " + f.country, "all")
    case State =>
      ContainsInside("State: ", f.state, "");
      assert "State: " + f.state + "" == "State: " + f.state;
      Chip(State, "State: " + f.state, "all")
    case City =>
      Chip(City, CityLabel(f.city, SelectedCityPostal(o, f)), "")
  }

  /** The chips of the keys `keys`, in order, dropping inactive ones: the
      array literal followed by `.filter(Boolean)`. */
  function Chips(o: LocationOptions, f: Filters, keys: seq<FilterKey>): seq<Chip>
    requires forall i :: 0 <= i < |keys| ==> keys[i] != SortBy
  {
    if keys == [] then []
    else (if IsActive(f, keys[0]) then [ChipOf(o, f, keys[0])] else []) + Chips(o, f, keys[1..])
  }

  /** Every chip is the chip literal of an active key from `keys`. */
  lemma {:induction false} ChipsSound(o: LocationOptions, f: Filters, keys: seq<FilterKey>)
    requires forall i :: 0 <= i < |keys| ==> keys[i] != SortBy
    ensures forall i :: 0 <= i < |Chips(o, f, keys)| ==>
      Chips(o, f, keys)[i].key in keys && IsActive(f, Chips(o, f, keys)[i].key)
      && Chips(o, f, keys)[i] == ChipOf(o, f, Chips(o, f, keys)[i].key)
  {
    if keys != [] {
      ChipsSound(o, f, keys[1..]);
      var rest := Chips(o, f, keys[1..]);
      var head := if IsActive(f, keys[0]) then [ChipOf(o, f, keys[0])] else [];
      var r := head + rest;
      assert Chips(o, f, keys) == r;
      forall i | 0 <= i < |r|
        ensures r[i].key in keys && IsActive(f, r[i].key) && r[i] == ChipOf(o, f, r[i].key)
      {
        if i < |head| {
          assert r[i] == ChipOf(o, f, keys[0]);
        } else {
          assert r[i] == rest[i - |head|];
          assert rest[i - |head|].key in keys[1..];
        }
      }
    }
  }

  /** Every active key from `keys` has a chip. */
  lemma {:induction false} ChipsComplete(o: LocationOptions, f: Filters, keys: seq<FilterKey>)
    requires forall i :: 0 <= i < |keys| ==> keys[i] != SortBy
    ensures forall k :: k in keys && IsActive(f, k) ==>
      exists i :: 0 <= i < |Chips(o, f, keys)| && Chips(o, f, keys)[i].key == k
  {
    if keys != [] {
      ChipsComplete(o, f, keys[1..]);
      var rest := Chips(o, f, keys[1..]);
      var head := if IsActive(f, keys[0]) then [ChipOf(o, f, keys[0])] else [];
      var r := head + rest;
      assert Chips(o, f, keys) == r;
      forall k | k in keys && IsActive(f, k)
        ensures exists i :: 0 <= i < |r| && r[i].key == k
      {
        if k == keys[0] {
          assert r[0].key == k;
        } else {
          assert k in keys[1..];
          var i :| 0 <= i < |rest| && rest[i].key == k;
          assert r[|head| + i] == rest[i];
        }
      }
    }
  }

  /** Every chip's key comes from `keys`. */
  lemma {:induction false} ChipKeysFrom(o: LocationOptions, f: Filters, keys: seq<FilterKey>)
    requires forall i :: 0 <= i < |keys| ==> keys[i] != SortBy
    ensures forall i :: 0 <= i < |Chips(o, f, keys)| ==> Chips(o, f, keys)[i].key in keys
  {
    if keys != [] {
      ChipKeysFrom(o, f, keys[1..]);
      var rest := Chips(o, f, keys[1..]);
      var head := if IsActive(f, keys[0]) then [ChipOf(o, f, keys[0])] else [];
      var r := head + rest;
      assert Chips(o, f, keys) == r;
      forall i | 0 <= i < |r| ensures r[i].key in keys {
        if i < |head| {
          assert r[i] == ChipOf(o, f, keys[0]);
        } else {
          assert r[i] == rest[i - |head|];
          assert rest[i - |head|].key in keys[1..];
        }
      }
    }
  }

  /** Chips come in the order of their keys in `keys`. */
  lemma {:induction false} ChipsOrdered(o: LocationOptions, f: Filters, keys: seq<FilterKey>)
    requires forall i :: 0 <= i < |keys| ==> keys[i] != SortBy
    requires forall i, j :: 0 <= i < j < |keys| ==> Rank(keys[i]) < Rank(keys[j])
    ensures forall i, j :: 0 <= i < j < |Chips(o, f, keys)| ==>
      Rank(Chips(o, f, keys)[i].key) < Rank(Chips(o, f, keys)[j].key)
  {
    if keys != [] {
      ChipsOrdered(o, f, keys[1..]);
      ChipKeysFrom(o, f, keys[1..]);
      var rest := Chips(o, f, keys[1..]);
      forall i | 0 <= i < |rest| ensures Rank(keys[0]) < Rank(rest[i].key) {
        var j :| 0 <= j < |keys[1..]| && keys[1..][j] == rest[i].key;
        assert keys[j + 1] == rest[i].key;
      }
      if IsActive(f, keys[0]) {
        var r := [ChipOf(o, f, keys[0])] + rest;
        assert r[0].key == keys[0];
        assert forall i :: 0 < i < |r| ==> r[i] == rest[i - 1];
      }
    }
  }

  /** `activeFilters` for the filter record `f` and the location options `o`:
      one chip per field away from its default, never one for the sort,
      in the order search term, industry, country, state, city; each chip's
      reset value is its field's default and its label shows the field's
      value. */
  function ActiveFilters(o: LocationOptions, f: Filters): (r: seq<Chip>)
    ensures forall i :: 0 <= i < |r| ==> IsActive(f, r[i].key)
    ensures forall k :: IsActive(f, k) ==> exists i :: 0 <= i < |r| && r[i].key == k
    ensures forall i, j :: 0 <= i < j < |r| ==> Rank(r[i].key) < Rank(r[j].key)
    ensures forall i :: 0 <= i < |r| ==> r[i].resetValue == DefaultValue(r[i].key)
    ensures forall i :: 0 <= i < |r| ==> Contains(r[i].caption, Get(f, r[i].key))
    ensures forall i :: 0 <= i < |r| ==> r[i].key != SortBy && r[i] == ChipOf(o, f, r[i].key)
  {
    assert forall k :: k != SortBy ==> k in ChipKeys;
    ChipsSound(o, f, ChipKeys);
    ChipsComplete(o, f, ChipKeys);
    ChipsOrdered(o, f, ChipKeys);
    Chips(o, f, ChipKeys)
  }

  /** The city chip, when there is one, shows a parenthesised postal code
      exactly when the lookup gives a truthy one. */
  lemma CityChipLabel(o: LocationOptions, f: Filters)
    requires f.city != ""
    ensures exists i :: 0 <= i < |ActiveFilters(o, f)| && ActiveFilters(o, f)[i].key == City
    ensures forall i :: 0 <= i < |ActiveFilters(o, f)| && ActiveFilters(o, f)[i].key == City ==>
      (SelectedCityPostal(o, f) == "" <==> ActiveFilters(o, f)[i].caption == "City/Village: " + f.city)
  {
    assert IsActive(f, City);
    var r := ActiveFilters(o, f);
    forall i | 0 <= i < |r| && r[i].key == City
      ensures SelectedCityPostal(o, f) == "" <==> r[i].caption == "City/Village: " + f.city
    {
      assert r[i] == ChipOf(o, f, City);
    }
  }

  /** The chips left after dropping those for `key`. */
  function Without(chips: seq<Chip>, key: FilterKey): seq<Chip> {
    if chips == [] then []
    else (if chips[0].key == key then [] else [chips[0]]) + Without(chips[1..], key)
  }

  /** Dropping `key` removes exactly the chips for `key`. */
  lemma {:induction false} WithoutMembers(chips: seq<Chip>, key: FilterKey)
    ensures forall ch :: ch in Without(chips, key) <==> ch in chips && ch.key != key
  {
    if chips != [] {
      WithoutMembers(chips[1..], key);
      assert chips == [chips[0]] + chips[1..];
    }
  }

  lemma {:induction false} WithoutConcat(a: seq<Chip>, b: seq<Chip>, key: FilterKey)
    ensures Without(a + b, key) == Without(a, key) + Without(b, key)
  {
    if a != [] {
      assert (a + b)[0] == a[0];
      assert (a + b)[1..] == a[1..] + b;
      WithoutConcat(a[1..], b, key);
    } else {
      assert a + b == b;
    }
  }

  /** A chip depends on its own field only. */
  lemma ChipOfAgrees(o: LocationOptions, f: Filters, g: Filters, key: FilterKey)
    requires key != SortBy
    requires Get(f, key) == Get(g, key)
    ensures ChipOf(o, f, key) == ChipOf(o, g, key)
  {
  }

  /** Resetting `key` to its default drops its chip from any strip and leaves
      every other chip, label included, where it was. */
  lemma {:induction false} ResetDropsChip(o: LocationOptions, f: Filters, key: FilterKey,
                                          keys: seq<FilterKey>)
    requires forall i :: 0 <= i < |keys| ==> keys[i] != SortBy
    ensures Chips(o, Set(f, key, DefaultValue(key)), keys) == Without(Chips(o, f, keys), key)
  {
    if keys != [] {
      var g := Set(f, key, DefaultValue(key));
      var k := keys[0];
      ResetDropsChip(o, f, key, keys[1..]);
      var headF := if IsActive(f, k) then [ChipOf(o, f, k)] else [];
      var headG := if IsActive(g, k) then [ChipOf(o, g, k)] else [];
      assert Chips(o, f, keys) == headF + Chips(o, f, keys[1..]);
      assert Chips(o, g, keys) == headG + Chips(o, g, keys[1..]);
      WithoutConcat(headF, Chips(o, f, keys[1..]), key);
      if k == key {
        assert headG == [];
      } else {
        ChipOfAgrees(o, f, g, k);
        assert headG == Without(headF, key);
      }
    }
  }

  /** Clicking a chip (`onFilterChange(filter.key, filter.resetValue)`): the
      strip recomputed from the new record is the old strip without that chip,
      the other chips keeping their labels and their order. */
  lemma ClearChip(o: LocationOptions, f: Filters, i: int)
    requires 0 <= i < |ActiveFilters(o, f)|
    ensures ActiveFilters(o, Set(f, ActiveFilters(o, f)[i].key, ActiveFilters(o, f)[i].resetValue))
         == Without(ActiveFilters(o, f), ActiveFilters(o, f)[i].key)
  {
    var ch := ActiveFilters(o, f)[i];
    ResetDropsChip(o, f, ch.key, ChipKeys);
  }

  /** The default record shows no chips, and a record showing no chips has
      every field but the sort at its default. */
  lemma NoChipsIffDefault(o: LocationOptions, f: Filters)
    ensures ActiveFilters(o, f) == [] <==>
      (forall k :: k != SortBy ==> Get(f, k) == DefaultValue(k))
  {
    if ActiveFilters(o, f) != [] {
      assert IsActive(f, ActiveFilters(o, f)[0].key);
    } else {
      forall k | k != SortBy ensures Get(f, k) == DefaultValue(k) {
        assert !IsActive(f, k);
      }
    }
  }
}
