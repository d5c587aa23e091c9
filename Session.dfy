/** The state of the top-level component once the company list is loaded:
    the companies, the filter record, the current page and the reload
    counter; the handlers that update them; and the page of rows the
    component shows. */
module Session {
  import opened Directory
  import opened Filters
  import opened Engine
  import opened Paging
  import opened Pagination
  import opened Options
  import opened FilterPanel

  class AppSession {
    var companies: seq<Company>
    var filters: Filters
    var page: int
    var reloadFlag: nat

    /** `totalPages` for the current companies and filters. */
    function PageCount(): (r: nat)
      reads this
      ensures r >= 1
    {
      TotalPages(|Selected(companies, filters)|)
    }

    /** The page shown is always one of the pages there are. */
    ghost predicate Valid()
      reads this
    {
      1 <= page <= PageCount()
    }

    /** The initial state: the default filter record, page 1, reload
        counter 0, with the companies the loader delivered. */
    constructor(loaded: seq<Company>)
      ensures companies == loaded
      ensures filters == DefaultFilters && page == 1 && reloadFlag == 0
      ensures Valid()
    {
      companies := loaded;
      filters := DefaultFilters;
      page := 1;
      reloadFlag := 0;
    }

    /** The loader delivering a new company list (`setCompanies(data)`). It
        only completes after the page was reset to 1: initially, or after
        `handleRetry`; the pagination control is hidden while loading. */
    method Load(data: seq<Company>)
      requires page == 1
      modifies this
      ensures companies == data
      ensures filters == old(filters) && page == 1 && reloadFlag == old(reloadFlag)
      ensures Valid()
    {
      companies := data;
    }

    /** `handleFilterChange(key, value)`: page 1, field `key` set to `value`,
        every other field kept. */
    method HandleFilterChange(key: FilterKey, value: string)
      modifies this
      ensures filters == Set(old(filters), key, value)
      ensures forall k :: k != key ==> Get(filters, k) == Get(old(filters), k)
      ensures page == 1
      ensures companies == old(companies) && reloadFlag == old(reloadFlag)
      ensures Valid()
    {
      page := 1;
      filters := Set(filters, key, value);
    }

    /** `handleRetry`: page 1, the default filter record, and a reload
        counter one higher, which starts a new load. */
    method HandleRetry()
      modifies this
      ensures filters == DefaultFilters && page == 1
      ensures reloadFlag == old(reloadFlag) + 1
      ensures companies == old(companies)
      ensures Valid()
    {
      page := 1;
      filters := DefaultFilters;
      reloadFlag := reloadFlag + 1;
    }

    /** The "Reset Filters" button of the empty-result panel. */
    method ResetFilters()
      modifies this
      ensures filters == DefaultFilters && page == 1
      ensures companies == old(companies) && reloadFlag == old(reloadFlag)
      ensures Valid()
    {
      filters := DefaultFilters;
      page := 1;
    }

    /** `onPageChange(goToPage(requested))`: any request lands on a page that
        exists, and a page that exists is taken as asked. */
    method GoTo(requested: int)
      modifies this
      ensures page == GoToPage(requested, old(PageCount()))
      ensures 1 <= requested <= PageCount() ==> page == requested
      ensures filters == old(filters) && companies == old(companies) && reloadFlag == old(reloadFlag)
      ensures Valid()
    {
      page := GoToPage(requested, PageCount());
    }

    /** The Prev button. */
    method PrevPage()
      requires Valid()
      modifies this
      ensures page == (if old(page) > 1 then old(page) - 1 else 1)
      ensures filters == old(filters) && companies == old(companies) && reloadFlag == old(reloadFlag)
      ensures Valid()
    {
      GoTo(page - 1);
    }

    /** The Next button. */
    method NextPage()
      requires Valid()
      modifies this
      ensures page == (if old(page) < PageCount() then old(page) + 1 else PageCount())
      ensures filters == old(filters) && companies == old(companies) && reloadFlag == old(reloadFlag)
      ensures Valid()
    {
      GoTo(page + 1);
    }

    /** `handleCountryChange(value)`: the country, then the state back to
        `'all'`, then the city query back to `''`. */
    method HandleCountryChange(value: string)
      modifies this
      ensures filters == old(filters).(country := value, state := "all", city := "")
      ensures page == 1
      ensures companies == old(companies) && reloadFlag == old(reloadFlag)
      ensures Valid()
    {
      HandleFilterChange(Country, value);
      HandleFilterChange(State, "all");
      HandleFilterChange(City, "");
    }

    /** `handleStateChange(value)`: the state, then the city query back to
        `''`. */
    method HandleStateChange(value: string)
      modifies this
      ensures filters == old(filters).(state := value, city := "")
      ensures page == 1
      ensures companies == old(companies) && reloadFlag == old(reloadFlag)
      ensures Valid()
    {
      HandleFilterChange(State, value);
      HandleFilterChange(City, "");
    }

    /** "Reset all": search term, industry, the country cascade, then the
        sort. Whatever the record was, it ends as the default record. */
    method ResetAll()
      modifies this
      ensures filters == DefaultFilters && page == 1
      ensures companies == old(companies) && reloadFlag == old(reloadFlag)
      ensures Valid()
    {
      HandleFilterChange(SearchTerm, "");
      HandleFilterChange(Industry, "all");
      HandleCountryChange("all");
      HandleFilterChange(SortBy, "name-asc");
    }

    /** Clicking chip `i` of the active-filter strip: its field goes back to
        the default, and the strip loses exactly that chip. */
    method ClearChip(o: LocationOptions, i: int)
      requires 0 <= i < |ActiveFilters(o, filters)|
      modifies this
      ensures filters == Set(old(filters), old(ActiveFilters(o, filters))[i].key, DefaultValue(old(ActiveFilters(o, filters))[i].key))
      ensures ActiveFilters(o, filters) == Without(old(ActiveFilters(o, filters)), old(ActiveFilters(o, filters))[i].key)
      ensures page == 1
      ensures companies == old(companies) && reloadFlag == old(reloadFlag)
      ensures Valid()
    {
      var chips := ActiveFilters(o, filters);
      FilterPanel.ClearChip(o, filters, i);
      HandleFilterChange(chips[i].key, chips[i].resetValue);
    }

    /** `filteredCompanies` and `paginatedCompanies` for the current state:
        the sorted filtered list and the slice of it the current page shows,
        at most six rows, and at least one when there are results. */
    method Rows() returns (filtered: seq<Company>, rows: seq<Company>)
      requires Valid()
      ensures multiset(filtered) == multiset(Selected(companies, filters))
      ensures SortedBy(filtered, SortKeyOf(filters.sortBy))
      ensures rows == PageOf(filtered, page)
      ensures |rows| <= PageSize
      ensures |filtered| > 0 ==> |rows| > 0
      ensures forall c :: c in rows ==> Matches(filters, c)
    {
      filtered := FilteredCompanies(companies, filters);
      assert |filtered| == |Selected(companies, filters)| by {
        assert |multiset(filtered)| == |multiset(Selected(companies, filters))|;
      }
      rows := PageOf(filtered, page);
      PageSizes(filtered, page);
      forall c | c in rows ensures Matches(filters, c) {
        assert c in multiset(filtered);
      }
    }
  }

  /** A filter record no company matches (say an industry nobody is in):
      the filtered list is empty, there is one page, and it is empty. */
  lemma NoMatchGivesOneEmptyPage(companies: seq<Company>, f: Filters)
    requires forall c :: c in companies ==> !Matches(f, c)
    ensures Selected(companies, f) == []
    ensures TotalPages(|Selected(companies, f)|) == 1
    ensures PageOf(Selected(companies, f), 1) == []
  {
    var r := Selected(companies, f);
    if r != [] {
      SelectedCount(companies, f, r[0]);
    }
  }
}
