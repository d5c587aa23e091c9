# Company directory browser: filter, sort and paginate pipeline

This project is a Dafny model of the core of a small company-directory browser, a React app.
The app loads a list of company records. From that list it derives option lists:
- industries;
- countries;
- states per country;
- cities per state, each with a postal code;
- a lowercase city-to-postal-code lookup.

It then filters the list by a filter record with five fields: name search, industry, country, state, and a city or postal-code query. It sorts the result by one of four keys and shows it six records per page.

The filter panel lists the active filters as chips, and clicking a chip clears that filter. Changing the country resets the state and the city query. Changing the state resets the city query. "Reset all" and "Reset Filters" restore the default record.

Modules, following the program's structure:

- `Text`: models the string operations the app relies on.
  - `toLowerCase` is ASCII case folding (`Lower`).
  - `includes` is substring search (`Contains`).
  - One lexicographic order (`Less`) stands for both `localeCompare` and the default `Array.prototype.sort` order.
  - Strictly ascending, duplicate-free lists model `Array.from(new Set(...)).sort()`.
- `Directory`: the company record and the header's employee total.
- `Filters`: the filter record, its default value and the one-field update `{ ...prev, [key]: value }`.
- `Options`: the option derivation.
  - `DeriveLocationOptions` is the `forEach` loop over the companies, written as a loop with three callback methods. It is proved against the description `IsLocationOptions`.
  - Each accumulator is described by its own function: `CountrySet`, `StatesOf`, `CityMap` (a JS `Map` held as an entry list) and `LookupValue`.
- `Engine`: the filter stages, the `switch` on `sortBy`, and the in-place sort (an insertion sort on an `array`).
  - Filtering is proved sound and complete, without duplication. The result is proved sorted and a permutation of the matching records.
- `Paging`: `totalPages`, JS `slice` semantics and the page slice.
- `Pagination`: the pagination control. This covers the null render, the Prev/Next enablement, the clamp and the page-number list.
- `FilterPanel`: the state and city suggestion lists, the postal code shown for a city query, and the chip strip.
- `Session`: the class `AppSession`. It holds the state of the top-level component once data is loaded: `companies`, `filters`, `page` and `reloadFlag`. Its methods are the handlers.
  - Every handler keeps the invariant `Valid()`, which says the current page is one of the pages there are.
  - The filter-panel handler sequences (country cascade, state cascade, "Reset all", chip click) are methods calling `HandleFilterChange` in the source's order.

Three behaviours of the code that the model follows as written:
- Industries: empty industry values are not skipped when the industry list is built. They appear in `Options.Industries` as `""`.
- Missing cities: the city filter calls `company.city.toLowerCase()`. A record without a city would make it throw, not skip. The model represents a missing city as `""`, so this failure is not modelled (see Left out).
- Page clamping: the requested page is clamped only by the pagination control's `goToPage`. `paginatedCompanies` itself does not clamp, and a page beyond the last is empty (`Paging.PageBeyondLast`).

## Model

| member | source | states |
|---|---|---|
| Text.ContainsAt | src/App.jsx:114 | `includes` holds exactly when the query sits at some position of the string. |
| Text.LessIrreflexive | src/App.jsx:155 | No name sorts strictly before itself. |
| Text.LessAsymmetric | src/App.jsx:155 | Two names never sort strictly before each other. |
| Text.LessTransitive | src/App.jsx:155 | The name order is transitive. |
| Text.LessTotal | src/App.jsx:155 | Any two different names are ordered one way or the other. |
| Text.LessEqAntisymmetric | src/App.jsx:151-153 | Two names each at most the other are equal. |
| Text.LessEqTransitive | src/App.jsx:145 | The non-strict name order is transitive. |
| Text.Insert | src/App.jsx:51-52 | Adding a value to a sorted, duplicate-free list keeps it sorted and duplicate-free and adds exactly that value. |
| Text.SortedDistinct | src/App.jsx:51-52 | `Array.from(new Set(xs)).sort()` is strictly ascending and holds exactly the values of `xs`. |
| Text.SortSet | src/App.jsx:88 | Sorting a set gives a strictly ascending list of exactly its elements. |
| Text.AscendingUnique | src/App.jsx:92 | Two strictly ascending lists with the same elements are equal, so the sorted option lists are determined. |
| Directory.TotalEmployees | src/App.jsx:169-173 | The `reduce` total as a left fold, a missing count adding 0. Its properties are in `TotalEmployeesAppend`, `TotalEmployeesCons` and `TotalEmployeesPermutation`. |
| Directory.TotalEmployeesAppend | src/App.jsx:169-173 | The employee total of two lists joined is the sum of their totals. |
| Directory.TotalEmployeesCons | src/App.jsx:171 | A record adds its count, or 0 when the count is missing. |
| Directory.TotalEmployeesPermutation | src/App.jsx:169-173 | The employee total does not depend on the order of the companies. |
| Filters.DefaultValue | src/App.jsx:18-25 | The initial filter record `DefaultFilters`, read one key at a time: `''` for the search term and the city query, `'all'` for industry, country and state, `'name-asc'` for the sort. `FilterPanel.ChipOf` resets to it, and `FilterPanel.NoChipsIffDefault` and `Engine.DefaultSelectsAll` state what it means. |
| Filters.Set | src/App.jsx:177-180 | The updated key holds the new value and every other field is unchanged. |
| Options.Industries | src/App.jsx:50-53 | Industries are strictly ascending and are exactly the industry values of the companies, empty values included. |
| Options.MapSet | src/App.jsx:78 | `Map.set` keeps the names distinct: a new name goes at the end, and an existing name keeps its place and takes the new postal code. |
| Options.MapSetHasName | src/App.jsx:78 | After `Map.set`, a name is present iff it was present before or is the one set. |
| Options.CityMap | src/App.jsx:73-78 | A state's city entries have distinct names. |
| Options.StatesOfUnseen | src/App.jsx:65-67 | A country not yet seen has no states. |
| Options.CityMapUnseen | src/App.jsx:74-76 | A state not yet seen has an empty city map. |
| Options.LookupValueUnseen | src/App.jsx:80-81 | A lookup key not yet seen has no value. |
| Options.VisitCountry | src/App.jsx:63-71 | The country step of the callback extends the country set and the states per country exactly by one more company. |
| Options.VisitCityMap | src/App.jsx:73-78 | The city-map step of the callback extends the per-state city maps exactly by one more company. |
| Options.VisitCityLookup | src/App.jsx:77-82 | The lookup step of the callback extends the lookup exactly by one more company. |
| Options.DeriveLocationOptions | src/App.jsx:55-106 | The result meets `IsLocationOptions`. Countries: strictly ascending, exactly the truthy countries. States: one entry per truthy country, ascending, holding exactly that country's truthy states. Cities: one entry per truthy state, holding its city map. Lookup: keyed by the lowercased truthy cities of records with a truthy state, holding their first truthy postal code. |
| Options.LocationOptionsUnique | src/App.jsx:87-105 | Two values that both meet the description are equal, so the description fixes the result. |
| Options.StatesComeFromCompanies | src/App.jsx:63-71 | A state is listed under a country iff some company of that country has that truthy state. |
| Options.CityMapNames | src/App.jsx:73-78 | A state's city names are exactly the truthy cities of that state's companies. |
| Options.CityMapLastPostal | src/App.jsx:78 | Each city's postal code is the one written by the last company of that state with that city. |
| Options.CityMapFirstSeenOrder | src/App.jsx:98 | City entries are in first-seen order: an earlier entry's city was named before the later entry's city first appeared. |
| Options.LookupFirstTruthy | src/App.jsx:79-82 | A non-empty lookup value is the postal code of the first record under that key with a truthy postal code. An empty value means every such record had an empty postal code. |
| Engine.Holds | src/App.jsx:113-140 | The predicate of each `output.filter(...)` stage. `Engine.ActiveCriteriaMatch` ties the stages to the field-by-field `Matches`. |
| Engine.ActiveCriteria | src/App.jsx:111-141 | At most five stages. There are none iff search term and city are `''` and industry, country and state are `'all'`. |
| Engine.Where | src/App.jsx:113-115 | A filter stage keeps exactly the records that pass, each as often as in its input. |
| Engine.ActiveCriteriaMatch | src/App.jsx:111-141 | The active stages all pass for a record iff it meets every active predicate: name contains the search term ignoring case; industry, country and state equal their selections; city or postal code contains the city query ignoring case. |
| Engine.SelectByCount | src/App.jsx:111-141 | Running stages one after another keeps a record as often as it occurs iff every stage passes, else not at all. |
| Engine.SelectByStage | src/App.jsx:118-122 | One more stage filters the output of the earlier ones. |
| Engine.SelectedCount | src/App.jsx:108-141 | Soundness, completeness and no duplication: a matching record is kept as often as it occurs, any other record not at all. |
| Engine.DefaultSelectsAll | src/App.jsx:108-141 | With search term and city `''` and industry, country and state `'all'`, every record is kept in order, whatever `sortBy` is. |
| Engine.SortKeyOf | src/App.jsx:143-156 | Each known `sortBy` value selects its comparator, and any other value selects name ascending. |
| Engine.InOrder | src/App.jsx:143-155 | The four comparators as a "not after" relation. `Engine.InOrderTotal` and `Engine.InOrderTransitive` make each a total preorder. |
| Engine.InOrderTotal | src/App.jsx:145-155 | Every comparator orders any two records one way or the other. |
| Engine.InOrderTransitive | src/App.jsx:145-155 | Every comparator is transitive. |
| Engine.SinkLast | src/App.jsx:145-155 | One insertion round: a sorted prefix of length `i` plus the next record becomes a sorted prefix of length `i + 1`, with the same records. |
| Engine.NameSortsReverse | src/App.jsx:145-153 | When no two records share a name, name-descending order is exactly the reverse of name-ascending order of the same records. |
| Engine.SortInPlace | src/App.jsx:145 | The array ends sorted by the key and is a permutation of its old contents. |
| Engine.ApplyStage | src/App.jsx:111-141 | One `if (...) output = output.filter(...)` step: an active stage is added to the stages run so far, an inactive one leaves them, and the output is the result of running them. |
| Engine.ApplyFilters | src/App.jsx:109-141 | The filtering pass yields exactly the selected records. |
| Engine.SortedByReadings | src/App.jsx:143-156 | Sorted by the selected key means: size-asc is non-decreasing in count; size-desc is non-increasing; name-desc is non-increasing in name; name-asc and any unknown value are non-decreasing in name. |
| Engine.FilteredCompanies | src/App.jsx:108-159 | `filteredCompanies` holds exactly the matching records, each as often as in the input, sorted as `sortBy` says. |
| Paging.CeilDiv | src/App.jsx:161 | `ceil(n / d)` is the least multiple count covering `n`. |
| Paging.TotalPages | src/App.jsx:161 | Total pages is at least 1. It is 1 for an empty list, and otherwise the least number of pages of six that hold the list. |
| Paging.RelativeIndex | src/App.jsx:165 | A slice index is clamped to the list, and a non-negative index is taken as is. |
| Paging.Slice | src/App.jsx:165 | `slice(start, end)` with `0 <= start <= end` is the sub-list between the clamped bounds. |
| Paging.PageOf | src/App.jsx:163-166 | A page has at most six records: for page `p >= 1`, the records from `(p-1)*6` to `p*6`, clamped. |
| Paging.PageBeyondLast | src/App.jsx:163-166 | A page after the last is empty. |
| Paging.PageSizes | src/App.jsx:161-166 | Every page before the last is full, and the last page of a non-empty list holds the remainder, at least one record. |
| Paging.PagesPrefix | src/App.jsx:163-166 | Pages 1 to k together are the first 6k records. |
| Paging.PagesRebuildList | src/App.jsx:161-166 | Concatenating pages 1 to `totalPages` rebuilds the filtered list. |
| Pagination.GoToPage | src/components/Pagination.jsx:12-14 | `goToPage` always passes a page in `[1, totalPages]`, passes an in-range page unchanged, and sends too-small requests to 1 and too-large ones to the last page. |
| Pagination.GoToPageIdempotent | src/components/Pagination.jsx:13 | Clamping an already-clamped page returns it. |
| Pagination.Prev | src/components/Pagination.jsx:24 | Prev stays in range, stays at 1 from page 1, and goes one back from later pages. |
| Pagination.Next | src/components/Pagination.jsx:53 | Next stays in range, stays at the last page from the last page, and goes one forward from earlier pages. |
| Pagination.PageNumbers | src/components/Pagination.jsx:32 | The page buttons are 1 to n, strictly increasing, n of them. |
| Pagination.Render | src/components/Pagination.jsx:4-10 | Nothing renders iff there is at most one page. Otherwise Prev is enabled iff the page is after 1, and Next is enabled iff the page is before the last. The buttons are `PageNumbers(totalPages)`: exactly 1 to `totalPages`, in increasing order. |
| Pagination.ButtonsStayInRange | src/components/Pagination.jsx:42 | A page button leads to its own page, and Prev and Next lead to pages that exist. |
| FilterPanel.IndianStates | src/components/CompanyFilters.jsx:14 | `states[country] || []`. `FilterPanel.IndianStatesFromCompanies` states what it holds. |
| FilterPanel.IndianStatesFromCompanies | src/components/CompanyFilters.jsx:14 | The state list for the selected country is ascending and holds exactly the truthy states of that country's companies, and nothing for a falsy country. |
| FilterPanel.CitySuggestions | src/components/CompanyFilters.jsx:15-18 | The city map of the selected state, or nothing for `'all'`. `FilterPanel.CitySuggestionsFromCompanies` states what it holds. |
| FilterPanel.CitySuggestionsFromCompanies | src/components/CompanyFilters.jsx:15-18 | There are no suggestions while the state is `'all'`. Otherwise the suggestions are that state's city map: distinct names, exactly the state's truthy cities. |
| FilterPanel.SelectedCityPostal | src/components/CompanyFilters.jsx:19-20 | The lookup value of the lowercased city query, `""` when falsy. `FilterPanel.SelectedCityPostalFromCompanies` states what it is. |
| FilterPanel.SelectedCityPostalFromCompanies | src/components/CompanyFilters.jsx:19-20 | The postal code shown for a city query is the lookup value of its lowercase form, or nothing for an empty query. |
| FilterPanel.CityLabel | src/components/CompanyFilters.jsx:45-47 | The city label shows the city, and carries a parenthesised postal code iff the postal code is truthy. |
| FilterPanel.ContainsInside | src/components/CompanyFilters.jsx:25 | A value placed inside a label occurs in that label. |
| FilterPanel.ChipOf | src/components/CompanyFilters.jsx:23-49 | Each chip literal has its own key, resets its field to that field's default, and shows the field's value in its label. |
| FilterPanel.ChipsSound | src/components/CompanyFilters.jsx:22-50 | Every chip is the literal of an active key. |
| FilterPanel.ChipsComplete | src/components/CompanyFilters.jsx:22-50 | Every active key has a chip. |
| FilterPanel.ChipsOrdered | src/components/CompanyFilters.jsx:22-50 | Chips appear in the order of their keys. |
| FilterPanel.ActiveFilters | src/components/CompanyFilters.jsx:22-50 | There is one chip per field away from its default, and none for the sort. Chips come in the order search term, industry, country, state, city. Each resets its field to the default and shows the field's value. |
| FilterPanel.CityChipLabel | src/components/CompanyFilters.jsx:43-49 | A city query has a chip, and its label shows a postal code iff the lookup gives a truthy one. |
| FilterPanel.WithoutMembers | src/components/CompanyFilters.jsx:50 | Dropping a key's chips removes exactly the chips for that key and keeps every other chip. |
| FilterPanel.WithoutConcat | src/components/CompanyFilters.jsx:50 | Dropping chips distributes over concatenation. |
| FilterPanel.ChipOfAgrees | src/components/CompanyFilters.jsx:23-49 | A chip depends only on its own field. |
| FilterPanel.ResetDropsChip | src/components/CompanyFilters.jsx:246 | Resetting a field to its default removes its chip and leaves the others, labels and order included. |
| FilterPanel.ClearChip | src/components/CompanyFilters.jsx:246 | Clicking a chip yields the old strip minus exactly that chip. |
| FilterPanel.NoChipsIffDefault | src/components/CompanyFilters.jsx:22-50 | The strip is empty iff every field except the sort is at its default. |
| Session.AppSession.PageCount | src/App.jsx:161 | The page count is at least 1. |
| Session.AppSession.constructor | src/App.jsx:14-26 | The session starts with the default filter record, page 1 and reload counter 0. |
| Session.AppSession.Load | src/App.jsx:39 | Loading replaces the companies and changes nothing else. |
| Session.AppSession.HandleFilterChange | src/App.jsx:175-181 | The page becomes 1, the key takes the value, and every other field, the companies and the reload counter are unchanged. |
| Session.AppSession.HandleRetry | src/App.jsx:183-194 | Retry restores the default record, sets page 1 and increments `reloadFlag` by exactly 1. |
| Session.AppSession.ResetFilters | src/App.jsx:287-297 | "Reset Filters" restores the default record and page 1. |
| Session.AppSession.GoTo | src/components/Pagination.jsx:12-14 | The new page is the clamp of the request, and an in-range request is taken as is. |
| Session.AppSession.PrevPage | src/components/Pagination.jsx:24 | Prev goes one page back, or stays at 1. |
| Session.AppSession.NextPage | src/components/Pagination.jsx:53 | Next goes one page forward, or stays at the last page. |
| Session.AppSession.HandleCountryChange | src/components/CompanyFilters.jsx:52-56 | Country is set, state becomes `'all'` and city becomes `''`. Search term, industry and sort are unchanged, and the page becomes 1. |
| Session.AppSession.HandleStateChange | src/components/CompanyFilters.jsx:58-61 | State is set and city becomes `''`. Every other field is unchanged, and the page becomes 1. |
| Session.AppSession.ResetAll | src/components/CompanyFilters.jsx:78-83 | "Reset all", from any record, yields exactly the default record and page 1. |
| Session.AppSession.ClearChip | src/components/CompanyFilters.jsx:246 | Clicking a chip resets its field to the default, and the strip loses exactly that chip. |
| Session.AppSession.Rows | src/App.jsx:108-166 | The filtered list holds exactly the selected records, sorted by `sortBy`. The shown page is its slice for the current page: at most six rows, each matching the filters, and at least one when there are results. |
| Session.NoMatchGivesOneEmptyPage | src/App.jsx:161-166 | When no company matches, the result is empty, there is one page, and page 1 is empty. |

## Left out

- Data loading is not modelled (src/App.jsx:29-48): `fetch`, the status and error message states, and the last-response-wins retry race. This is network I/O and concurrency. `Session.AppSession.Load` stands for `setCompanies(data)`.
- Session.AppSession.Load: requires `page == 1`. The source does not check this, but it holds in the app: a load completes only from the initial state or after `handleRetry` set page 1, and the pagination control is hidden while loading.
- JSX markup, styling, `viewMode` switching, the `disabled` flags and the `'India'`-only rendering of the state and city inputs are not modelled. They are presentation only.
- `toLocaleString` and number formatting of the header values are not modelled. They are locale formatting, outside the logic.
- Locale and Unicode semantics are not modelled. `toLowerCase` is ASCII folding, and `localeCompare` and the default sort order are both plain lexicographic character order. ICU collation and Unicode case mapping are outside the model.
- Absent and empty string fields are not distinguished: an absent string field is `""`, which is falsy like `undefined`.
- Engine.Holds: does not model the `TypeError` that `company.city.toLowerCase()` throws for a record without a city, because a missing city is `""` here.
- Engine.InOrder: a missing `employeeCount` sorts as 0. In JS the size comparators then return `NaN` and the resulting order is implementation-defined.
- Engine.SortInPlace: states sortedness and permutation, not stability. JS `Array.prototype.sort` is stable, so records that compare equal keep their filtered order there.
- Engine.Where: states which records are kept and how often, not that their relative order is kept. The sort that follows fixes the final order up to ties.
- JS object quirks are not modelled. Lookups by inherited prototype keys (a state named `constructor`, say) are not modelled, and `Object.entries` key order is irrelevant because `states` and `cities` are only indexed.
- Counts and page arithmetic use unbounded integers. The JS numbers' floating-point range is not modelled.
- React scheduling and batching are not modelled. Each `onFilterChange` call is a sequential update of the filter record, in call order.
