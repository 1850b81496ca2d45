# Project search and page navigation of the DTAS transparency viewer

DTAS is a React viewer over hard-coded mock data. Citizens search government
projects by location or by project id and then open a project's details.
This Dafny project models the two pieces of that program that hold logic:

- **The project search page** (`src/components/ProjectSearchPage.tsx`). It covers
  the fixtures: 17 regions, a province table keyed by only three regions, and
  three mock projects. It covers the page state: mode, region, province, typed id
  and results. It also covers the two search handlers and the guards that enable
  the province selector and the two search buttons.
- **The application shell** (`src/App.tsx`). Its state is the current page and
  the selected project id. Three handlers change it, and four guards choose which
  page view renders.

Modules:

| file | module | contents |
|---|---|---|
| `wrappers.dfy` | `Wrappers` | `Option`, standing for `string \| null` |
| `ascii.dfy` | `Ascii` | ASCII `toLowerCase`, and `includes` proved equal to "occurs at some position" |
| `catalog.dfy` | `Catalog` | regions, province table, mock projects, province-selector guard |
| `project_search.dfy` | `ProjectSearch` | search state, input bindings, location search, first-match id search, page events |
| `app_navigation.dfy` | `AppNavigation` | page/selection state, handlers, render guards, events the app can raise, reachability |

Every handler is a pure function from state to state. A React `setState` pair
inside one handler is treated as one atomic transition.

Two facts about the code shape the search model. The id search uses `find`
(`ProjectSearchPage.tsx:84`), so it yields only the first match in list order
and opens it directly. The location search (`ProjectSearchPage.tsx:78`) lists
the whole mock list whenever region and province are both non-empty, whatever
they are.

## Model

| member | source | states |
|---|---|---|
| Ascii.ToLower | src/components/ProjectSearchPage.tsx:84 | lower-casing keeps the length and lower-cases each character in place; no capital survives |
| Ascii.Includes | src/components/ProjectSearchPage.tsx:84 | `includes` is true exactly when the needle occurs at some position of the hay (the empty needle always does) |
| Catalog.ProvinceOptions | src/components/ProjectSearchPage.tsx:153 | a province selector exists exactly for NCR, Central Luzon and CALABARZON; each such region is in the region list, and the selector offers exactly that region's non-empty province list from the table (as mapped at :161) |
| Catalog.OnlyThreeRegionsHaveProvinces | src/components/ProjectSearchPage.tsx:20-44 | there are 17 regions, and only those at positions 0, 4 and 5 offer provinces; the other 14 have no selector |
| Catalog.MockIdsWellFormed | src/components/ProjectSearchPage.tsx:46-74 | the three mock ids are non-empty and pairwise distinct |
| ProjectSearch.LocationSearch | src/components/ProjectSearchPage.tsx:76-80 | with both region and province non-empty the results become the full mock list in order; otherwise the state is unchanged; only the results ever change |
| ProjectSearch.LocationSearchIgnoresLocation | src/components/ProjectSearchPage.tsx:78 | any two enabled location searches give the same results, the full mock list: no filtering by location |
| ProjectSearch.NcrManilaListsEveryProject | src/components/ProjectSearchPage.tsx:76-80 | NCR/Manila lists all three projects, although all of them are located in Bataan |
| ProjectSearch.StaleProvinceKeepsSearchEnabled | src/components/ProjectSearchPage.tsx:139-173 | choosing a region keeps the earlier province, so a non-empty region with a stale province still enables location search, and that search lists every project |
| ProjectSearch.StaleProvinceExample | src/components/ProjectSearchPage.tsx:139-173 | Central Luzon/Bataan, then CAR: CAR has no province selector, but "Bataan" stays and the search stays enabled |
| ProjectSearch.FindFirst | src/components/ProjectSearchPage.tsx:84 | `find` returns the position of the first project whose lower-cased id includes the lower-cased query, or nothing when none does |
| ProjectSearch.FindFirstDependsOnLowerQuery | src/components/ProjectSearchPage.tsx:84 | queries with the same lower-cased form find the same position |
| ProjectSearch.IdSearch | src/components/ProjectSearchPage.tsx:82-89 | an empty query selects nothing; otherwise the result is the id of the first matching mock project in list order; no id means that no mock id matches |
| ProjectSearch.IdSearchReportsFirstMatch | src/components/ProjectSearchPage.tsx:84-86 | conversely, whenever a position holds the first match of a non-empty query, the id search yields that project's id |
| ProjectSearch.IdSearchYieldsMockId | src/components/ProjectSearchPage.tsx:84-86 | any id the search yields is a non-empty mock project id |
| ProjectSearch.IdSearchIgnoresCase | src/components/ProjectSearchPage.tsx:84 | queries that differ only in ASCII letter case select the same project |
| ProjectSearch.YearQuerySelectsFirstOnly | src/components/ProjectSearchPage.tsx:84-86 | all three ids contain "2024", yet the search yields one id, DPWH-2024-001 |
| ProjectSearch.AgencyPrefixSearch | src/components/ProjectSearchPage.tsx:84-86 | the lower-case query "deped" selects DEPED-2024-002 |
| ProjectSearch.SequenceSuffixSearch | src/components/ProjectSearchPage.tsx:84-86 | the query "003" skips the first two projects and selects DOH-2024-003 |
| ProjectSearch.UnknownQuerySelectsNothing | src/components/ProjectSearchPage.tsx:85-87 | "NCR" is part of no mock id in any letter case, so nothing is selected |
| ProjectSearch.InitialSearch | src/components/ProjectSearchPage.tsx:14-18 | a freshly mounted page is in location mode with empty region, province and typed id and no results; neither search button is enabled and no province selector shows; the results invariant holds |
| ProjectSearch.ChooseRegion | src/components/ProjectSearchPage.tsx:139 | choosing a region keeps the province, the results, the typed id and the mode; with a non-empty region and a kept province the location search stays enabled |
| ProjectSearch.ChooseProvince | src/components/ProjectSearchPage.tsx:156 | choosing a province keeps the region, the results, the typed id and the mode; location search is enabled afterwards exactly when the region and the new province are both non-empty |
| ProjectSearch.TypeId | src/components/ProjectSearchPage.tsx:187 | typing sets the query and keeps the location fields, the results and the mode; the Find button is enabled exactly when the typed text is non-empty |
| ProjectSearch.LocationSearchEnabled | src/components/ProjectSearchPage.tsx:173 | the Search Projects button is enabled unless the region or the province is the empty string |
| ProjectSearch.IdSearchEnabled | src/components/ProjectSearchPage.tsx:193 | the Find Project button is enabled unless the typed id is the empty string |
| ProjectSearch.SearchStep | src/components/ProjectSearchPage.tsx:119-211 | of all page events only the location-search button changes the results, and only to the mock list; the Find button leaves the page state unchanged |
| ProjectSearch.SearchRunKeepsResultsInvariant | src/components/ProjectSearchPage.tsx:18-80 | any sequence of page events from a state whose results are empty or the mock list keeps them so |
| ProjectSearch.LoweredQuerySearchesAlike | src/components/ProjectSearchPage.tsx:84 | lower-casing the typed query first selects the same project |
| ProjectSearch.SearchStepKeepsResultsInvariant | src/components/ProjectSearchPage.tsx:76-80 | under every page event the results stay either empty or exactly the mock list |
| ProjectSearch.DisabledButtonsDoNothing | src/components/ProjectSearchPage.tsx:171-198 | when a button's guard disables it, its handler would change nothing anyway: the guards and the handlers' own checks agree; the location button is enabled exactly when pressing it on an empty result list lists projects |
| ProjectSearch.ResultCardYieldsMockId | src/components/ProjectSearchPage.tsx:207-211 | every listed result card carries a non-empty mock id |
| AppNavigation.InitialApp | src/App.tsx:9-10 | start-up state is the home page with no selection, and it meets both selection invariants |
| AppNavigation.PageChange | src/App.tsx:12-17 | the page becomes the one requested; any page other than "details" clears the selection, and "details" keeps the existing one |
| AppNavigation.ProjectSelect | src/App.tsx:19-22 | the page becomes "details" and the selection becomes exactly the given id |
| AppNavigation.BackToSearch | src/App.tsx:24-27 | from any state the result is the search page with no selection |
| AppNavigation.RenderedViews | src/App.tsx:33-50 | at most one view renders; each view's guard holds exactly when its page is current; details renders only for a present, non-empty selection, and passes that id to the details view; nothing renders for an unknown page or an empty details page |
| AppNavigation.Step | src/App.tsx:31-44 | a page-change event (navigation bar, home page) moves to the requested page, a selection event (search page) opens "details" on exactly that id, and back (details page) gives the search page with no selection; after any event, a page other than "details" has no selection |
| AppNavigation.StepKeepsSelectionInvariant | src/App.tsx:12-27 | after any handler, on any input, a page other than "details" has no selection |
| AppNavigation.EmittableStepKeepsInvariants | src/App.tsx:12-27 | one event the app can raise keeps the page known and keeps a non-empty selection on the details page |
| AppNavigation.EmittableRunKeepsInvariants | src/App.tsx:12-27 | any sequence of such events keeps both invariants |
| AppNavigation.ReachableStatesRenderOneView | src/App.tsx:12-50 | every state reachable from start-up through events the app can raise has a non-empty selection on "details" and renders exactly one view |
| AppNavigation.DirectDetailsRendersNothing | src/App.tsx:12-46 | a page change to "details" with no selection would render no view; only events outside what the app raises reach this |
| AppNavigation.EmptySelectionRendersNothing | src/App.tsx:19-46 | selecting the empty id would reach "details" and render no view, because of the truthiness guard |
| AppNavigation.FindProject | src/components/ProjectSearchPage.tsx:82-89 | pressing Find Project with an empty or unmatched query leaves the app state unchanged; otherwise it opens "details" on the id found, a non-empty mock id |
| AppNavigation.FindByYearOpensFirstProject | src/components/ProjectSearchPage.tsx:84-86 | from the search page, "2024" opens the details of DPWH-2024-001 |
| AppNavigation.IdSearchSelectionIsEmittable | src/components/ProjectSearchPage.tsx:86 | any selection made by the id search is an event the app can raise |
| AppNavigation.Emittable | src/components/Navigation.tsx:10-14 | the events the running app raises: page changes only to home, search or dashboard (navigation items, used at Navigation.tsx:35, and HomePage.tsx:67, 75, 123); selections only of mock ids (ProjectSearchPage.tsx:86, 211); and the back button (ProjectDetailsPage.tsx:65) |
| AppNavigation.ReachableResultCardIsEmittable | src/components/ProjectSearchPage.tsx:207-211 | on a search page reached from a fresh mount by any page events, clicking any listed result card raises an event the app can raise |
| AppNavigation.ResultCardSelectionIsEmittable | src/components/ProjectSearchPage.tsx:211 | clicking a result card selects through an event the app can raise |

## Left out

- Rendering, styling, icons and the `./ui/*` widgets are presentation only.
  The same goes for `getStatusColor` (`ProjectSearchPage.tsx:91-98`) and
  `toLocaleString`.
- The search mode (`searchType`) only chooses which form is shown. `ChooseMode`
  sets it and carries no contract.
- The select widgets only offer listed regions and the current region's
  provinces. The model lets region and province be any string. The
  stale-province lemmas show what the widgets do not prevent.
- The event models allow more than the page does.
  - `SearchStep` accepts either search button in either mode. The page shows the
    location button (`ProjectSearchPage.tsx:171`) only in location mode and the
    Find button (`:191`) only in id mode.
  - `Emittable` allows `Back` from any page. The back button exists only on a
    rendered details page (`App.tsx:41-45`).
  - Allowing more events only makes the proved invariants stronger.
- Catalog.ProvinceOptions: treats the province table as a plain map. The source
  looks the region up on a JavaScript object literal (`ProjectSearchPage.tsx:153`),
  and that lookup also finds inherited `Object.prototype` names such as
  `"constructor"`, `"__proto__"` or `"toString"`. For those the source's guard
  is truthy and the `.map` at `:161` throws. The model returns None instead. No
  value the region select can set is such a name.
- When the app leaves the search page, React unmounts it and its state is lost.
  On return it starts again as `InitialSearch()`. The two state machines are
  modelled separately and joined only through the events the search page raises
  (`FindProject`, the result-card lemmas).
- `Ascii.ToLower` lower-cases only the 26 ASCII capitals. JavaScript's
  `toLowerCase` is full Unicode: for example the Kelvin sign becomes `k`, and
  `İ` becomes two characters. All mock ids are ASCII, so only non-ASCII queries
  could differ.
- `src/components/OfficialsDashboard.tsx` is not part of this model.
  - Project creation there only shows an alert with a clock-derived id and
    resets the form.
  - The fund-update button has no handler.
  - No project store, ledger, validation or id sequence exists in it.
- `src/components/ProjectDetailsPage.tsx` is not part of this model. It ignores
  its `projectId` prop, and every figure on it is a literal. No progress,
  percentage or budget aggregation is computed anywhere, so none is modelled.
- `alert`, `Date.now()` and React's asynchronous, batched state updates are
  runtime behaviour. Each handler is one atomic transition.
