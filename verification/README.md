# HiMap search-and-filter core, modelled in Dafny

HiMap shows Korean high schools on a map. This project models its client-side
engine and proves properties of it:

- **Normaliser** (`SchoolsApi`). It turns each raw dataset row into a canonical
  `School`, or drops the row when a coordinate is missing, empty or NaN. It
  then serves the survivors in dataset order.
- **Facet filter** (`SchoolMap.Keeps`, `SchoolMap.FilterSchools`). Facets
  combine by AND. Within the type, coed and establishment lists, values combine
  by OR. The region is one exact match. An empty list or region places no
  constraint.
- **Filter-state editing** (`FilterPanel`). This covers chip toggling, the
  "any filter active" test, replacing the region, and reset.
- **Region list** (`SchoolMap.Regions`). It is the sorted list of the distinct
  regions in the collection.
- **Search** (`SearchBar`). Matching is case-insensitive substring matching
  on name, address or region. An empty query gives nothing. Results keep
  collection order and are capped at 20. The module also models the search
  box's query, suggestions and dropdown.
- **Selection and viewport** (`SchoolMap.MapState`). Selecting a school sets
  the selection, the center and the focus level 4. Closing the card clears
  only the selection. A zoom changes only the level.
- **The page** (`Page`). All of the above form one state machine, driven by
  the events the rendered controls and the map widget can raise. It has an
  invariant that every enabled event preserves.

`parseFloat`/`isNaN` and `toLowerCase` are not modelled. They are parameters
of the functions that use them:

- `parse: string -> Option<Number>`, where `None` stands for NaN.
- `lower: string -> string`, left uninterpreted.

Coordinates are `Number = Finite(real) | Infinite(negative)`. They are only
ever copied.

Files: `wrappers.dfy` (Option), `seqs.dfy` (order-preserving subsequences),
`strings.dfy` (substring search, lexicographic order, sorted insertion),
`types.dfy` (record shapes), `schools_api.dfy`, `filter_panel.dfy`,
`school_map.dfy`, `search_bar.dfy`, `page.dfy`.

Raw field names: 행정표준코드 `adminCode`, 학교명 `schoolName`,
영문학교명 `englishSchoolName`, 고등학교구분명 `highSchoolCategory`,
설립명 `foundationName`, 도로명주소 `roadAddress`,
도로명상세주소 `roadAddressDetail`, Latitude/Longitude `latitude`/`longitude`,
전화번호 `phoneNumber`, 팩스번호 `faxNumber`, 홈페이지주소 `homepage`,
남녀공학구분명 `coedName`, 시도명 `provinceName`,
입시전후기구분명 `admissionPeriod`, 주야구분명 `dayNightName`,
설립일자 `foundedOn`. The fields `toSchool` does not read keep similar names
(`officeCode`, `schoolKind`, …). The canonical field `type` is `kind`,
because `type` is a Dafny keyword.

`toSchool` rejects only NaN, so a coordinate such as `"Infinity"` is
accepted and stored (`SchoolsApi.InfiniteCoordinateAccepted`).

## Model

| member | source | states |
|---|---|---|
| `SchoolsApi.ToSchool` | app/api/schools/route.ts:5-30 | A row is dropped exactly when Latitude or Longitude is absent or empty, or either parses to NaN. A kept school has the parsed coordinates. Its establishment is 설립명 when present and "기타" when absent, and its other text fields are the raw fields renamed, unchanged. |
| `SchoolsApi.EmptyEstablishmentKept` | app/api/schools/route.ts:16 | An empty 설립명 stays "", because `??` only replaces an absent value. |
| `SchoolsApi.InfiniteCoordinateAccepted` | app/api/schools/route.ts:7-9 | A coordinate that parses to an infinity passes the NaN test and is stored. |
| `SchoolsApi.NonNull` | app/api/schools/route.ts:35 | The null-dropping filter keeps exactly the present schools and is never longer than its input. |
| `SchoolsApi.Collect` | app/api/schools/route.ts:32-35 | The served collection holds exactly the schools some row normalises to, and is never longer than the dataset. |
| `SchoolsApi.CollectConcat` | app/api/schools/route.ts:33-35 | Normalising a concatenation of rows gives the concatenation of the results, so rows are independent and dataset order is kept. |
| `SchoolsApi.CollectOne` | app/api/schools/route.ts:33-35 | One row contributes its school when it has usable coordinates, and nothing otherwise. |
| `SchoolsApi.CollectKeepsValidRows` | app/api/schools/route.ts:33-35 | When every row has usable coordinates, the collection is as long as the dataset. |
| `FilterPanel.With` | app/components/FilterPanel.tsx:59 | Replacing one list facet sets that list and leaves the other two lists and the region unchanged. |
| `FilterPanel.Without` | app/components/FilterPanel.tsx:56-57 | Removing a value drops every occurrence of it. Every other element is kept as often as it occurred, in its original order. |
| `FilterPanel.Toggle` | app/components/FilterPanel.tsx:54-60 | The value is selected afterwards exactly when it was not selected before. Toggling off removes it everywhere and keeps every other element, as often as it occurred and in order. Toggling on appends it after the existing selection. Other facets and the region are unchanged. |
| `FilterPanel.ToggleTwiceRestores` | app/components/FilterPanel.tsx:56-58 | For an unselected value, toggling it on and then off restores the original filters. |
| `FilterPanel.ToggleKeepsNoDuplicates` | app/components/FilterPanel.tsx:56-58 | A facet list without repeats never gains a repeat by toggling. |
| `FilterPanel.HasActiveFilters` | app/components/FilterPanel.tsx:62-66 | It is false exactly when all three lists are empty and the region is "". |
| `FilterPanel.ChangeRegion` | app/components/FilterPanel.tsx:124 | The region selector replaces the region and leaves the three lists unchanged. |
| `FilterPanel.Reset` | app/components/FilterPanel.tsx:138-140 | Reset gives all-empty filters whatever was selected before, and no filter is active afterwards. |
| `SchoolMap.Keeps` | app/components/SchoolMap.tsx:38-50 | The early-return predicate keeps a school exactly when every facet admits it. A list facet admits a school when the list is empty or holds its value. The region admits it when the region is "" or equal to the school's. |
| `SchoolMap.FilterSchools` | app/components/SchoolMap.tsx:37-51 | The visible schools are exactly the kept schools of the collection, as an order-preserving subsequence. |
| `SchoolMap.FilterSchoolsCounts` | app/components/SchoolMap.tsx:37-51 | Each kept school appears in the filtered list as often as in the collection, and a school that is not kept does not appear. |
| `SchoolMap.FilterIdempotent` | app/components/SchoolMap.tsx:37-51 | Filtering the filtered list again with the same filters changes nothing. |
| `SchoolMap.InactiveFilterIsIdentity` | app/components/SchoolMap.tsx:39-48 | With no facet active, and in particular after reset, the filter returns the whole collection. |
| `SchoolMap.ToggleOnWidensNonEmptyFacet` | app/components/SchoolMap.tsx:39-47 | Selecting one more value in a facet that already has a selection never hides a school that was visible. |
| `SchoolMap.Regions` | app/components/SchoolMap.tsx:32-35 | The region list is strictly sorted and holds exactly the regions of the collection. |
| `SchoolMap.RegionsDistinct` | app/components/SchoolMap.tsx:32-35 | No region appears twice in the list. |
| `SchoolMap.RegionsCanonical` | app/components/SchoolMap.tsx:32-35 | Any strictly sorted list of exactly the collection's regions equals the region list, so the result does not depend on how the list is built. |
| `SchoolMap.Select` | app/components/SchoolMap.tsx:53-57 | Selecting a school makes it the selection, centers the map on its coordinates and sets level 4. |
| `SchoolMap.SelectForgetsPrior` | app/components/SchoolMap.tsx:53-57 | The result of a selection does not depend on the previous state. |
| `SchoolMap.Close` | app/components/SchoolMap.tsx:177 | Closing clears the selection and keeps the center and the level. |
| `SchoolMap.CloseIdempotent` | app/components/SchoolMap.tsx:177 | Closing a second time is a no-op. |
| `SchoolMap.CloseAfterSelectKeepsViewport` | app/components/SchoolMap.tsx:177 | After a school is selected and closed, nothing is selected and the map stays on that school at level 4. |
| `SchoolMap.Zoom` | app/components/SchoolMap.tsx:148 | A zoom event sets the level and leaves the selection and the center unchanged. |
| `SchoolMap.ZoomCloseCommute` | app/components/SchoolMap.tsx:148 | Zooming then closing gives the same state as closing then zooming. |
| `SchoolMap.ZoomKeepsFocus` | app/components/SchoolMap.tsx:148 | A zoom keeps a focused map centered on its selected school. |
| `Strings.ContainsIff` | app/components/SearchBar.tsx:27-29 | The left-to-right scan modelling `includes` holds exactly when the needle occurs at some position of the haystack. |
| `SearchBar.AllMatches` | app/components/SearchBar.tsx:24-30 | The matching step keeps exactly the schools whose lowered name, address or region contains the lowered query, as an order-preserving subsequence. |
| `SearchBar.AllMatchesCounts` | app/components/SearchBar.tsx:24-30 | Each matching school appears among the matches as often as in the collection, and no other school appears. |
| `SearchBar.Search` | app/components/SearchBar.tsx:17-35 | An empty query gives no results. Otherwise there are at most 20 results, each a match. They are the first min(20, number of matches) matches, in collection order, and form a subsequence of the collection. |
| `SearchBar.SearchReturnsAllFewMatches` | app/components/SearchBar.tsx:24-31 | When at most 20 schools match, every matching school is suggested. |
| `SearchBar.SearchResultHasOccurrence` | app/components/SearchBar.tsx:23-30 | Each suggestion has the lowered query at some position of its lowered name, address or region. |
| `SearchBar.Edit` | app/components/SearchBar.tsx:54-58 | Typing sets the query to the text and opens the dropdown. The suggestions are the search results for the new text, so they come from the collection and number at most 20. An empty text shows no dropdown. |
| `SearchBar.EditShowsDropdown` | app/components/SearchBar.tsx:54-63 | After typing, the suggestion dropdown is shown exactly when the text is non-empty and some school of the collection matches it. |
| `SearchBar.Pick` | app/components/SearchBar.tsx:69-73 | Picking a suggestion sets the query to the school's name and closes the dropdown. The suggestions are not recomputed. |
| `Page.Enabled` | app/components/FilterPanel.tsx:16-18 | An event is possible exactly when the page renders the control that raises it. Every option chip can be toggled, and no other value (FilterPanel.tsx:75-115). The region selector offers exactly "" and the collection's regions (FilterPanel.tsx:127-132). The reset button exists exactly while a filter is active (FilterPanel.tsx:136). The always-rendered input accepts any text, and the widget can report any zoom level. A suggestion can be clicked exactly when it is in the open, non-empty dropdown (SearchBar.tsx:63). A marker exists exactly for each school the facets keep (SchoolMap.tsx:158-164). The card's close button exists exactly while a school is selected (SchoolMap.tsx:167-177). |
| `Page.Step` | app/components/SchoolMap.tsx:109-177 | A chip toggles that facet, the region selector replaces the region, and reset clears all filters. Typing runs the search box's edit. Picking a suggestion runs its pick and selects that school (`onSelect={handleSelectSchool}`), as a marker click does (SchoolMap.tsx:162). Closing the card closes, and a zoom event zooms. Filter events change only the filters, and other events leave the filters unchanged. Only typing and picking change the search box. The collection never changes. |
| `Page.InitialSatisfiesInv` | app/components/SchoolMap.tsx:14-24 | The initial page (no filters, default view, empty search box) satisfies the page invariant. |
| `Page.StepPreservesInv` | app/components/SchoolMap.tsx:109-177 | Every event the page can raise keeps these facts. Chips hold only offered values and never repeat. The region is "" or one the collection has. Suggestions and the selection come from the collection. The map is centered on the selected school. |
| `Page.WalkthroughFilter` | app/components/SchoolMap.tsx:37-51 | In a two-school collection, selecting the 특목고 chip leaves only the Busan school. |
| `Page.WalkthroughSearch` | app/components/SearchBar.tsx:17-35 | In the same collection, the query "seoul" suggests only the Seoul school. |
| `Page.WalkthroughSelectClose` | app/components/SchoolMap.tsx:53-57 | Selecting the Busan school and closing its card leaves nothing selected and the map on Busan's coordinates. |

## Left out

- Loading the collection (`fetch("/api/schools")` and the JSON round trip, app/components/SchoolMap.tsx:26-30 and app/api/schools/route.ts:37) is asynchronous I/O. The page takes the collection as a given sequence. JSON serialisation would turn an infinite coordinate into `null`; that is not modelled.
- The contents of the bundled `data.json` are external data. Raw fields the type declares as plain strings are modelled as always present.
- `parseFloat`/`isNaN` are the `parse` parameter and `toLowerCase` is the `lower` parameter, because their floating-point and Unicode semantics are out of scope.
- `Strings.Less` compares characters by code point. JavaScript's default `sort()` compares UTF-16 code units. The two orders agree on the Basic Multilingual Plane, which includes all Hangul, but differ for supplementary-plane characters.
- `Strings.Contains` works on code points rather than UTF-16 code units. For well-formed strings the answer is the same.
- The Kakao map widget is third-party rendering: markers, clustering, cluster styles, panning, `isPanto` (app/components/SchoolMap.tsx:59-93, 143-181). The widget's own pan position is not page state, so the model's `center` is only what the page last set. The zoom level the widget reports is any integer.
- app/components/KakaoMapLoader.tsx, app/components/SchoolCard.tsx, app/layout.tsx and app/page.tsx are SDK loading, presentation and layout. They hold no engine logic.
- The document mousedown listener and the focus handler that reopens the dropdown (app/components/SearchBar.tsx:37-45, 59-61) are DOM event plumbing.
- The sidebar toggle (app/components/SchoolMap.tsx:18, 132) is presentation-only state.
- Dismissing the selection by clicking the map background does not exist in this code, so it is not modelled.
