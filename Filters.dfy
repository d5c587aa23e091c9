/** The filter record of the browser (`filters` in the top-level component)
    and the one operation that changes it: set one field. */
module Filters {

  /** The keys `onFilterChange` is called with. */
  datatype FilterKey = SearchTerm | Industry | Country | State | City | SortBy

  datatype Filters = Filters(
    searchTerm: string,
    industry: string,
    country: string,
    state: string,
    city: string,
    sortBy: string)

  /** The record the app starts from and every reset restores. */
  const DefaultFilters := Filters("", "all", "all", "all", "", "name-asc")

  /** `filters[key]`. */
  function Get(f: Filters, key: FilterKey): string {
    match key
    case SearchTerm => f.searchTerm
    case Industry => f.industry
    case Country => f.country
    case State => f.state
    case City => f.city
    case SortBy => f.sortBy
  }

  /** The default value of one key: `''` for the search term and the city
      query, `'all'` for the three selections, `'name-asc'` for the sort. */
  function DefaultValue(key: FilterKey): string {
    Get(DefaultFilters, key)
  }

  /** `{ ...prev, [key]: value }`: `key` now holds `value` and every other
      field is what it was. */
  function Set(f: Filters, key: FilterKey, value: string): (r: Filters)
    ensures Get(r, key) == value
    ensures forall k :: k != key ==> Get(r, k) == Get(f, k)
  {
    match key
    case SearchTerm => f.(searchTerm := value)
    case Industry => f.(industry := value)
    case Country => f.(country := value)
    case State => f.(state := value)
    case City => f.(city := value)
    case SortBy => f.(sortBy := value)
  }
}
