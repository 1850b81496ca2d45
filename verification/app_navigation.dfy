/**
 * The application shell: which page is shown and which project is selected.
 * Three handlers change that pair; four guards decide which page view renders.
 */
module AppNavigation {
  import opened Wrappers
  import opened Catalog
  import ProjectSearch

  const Home := "home"
  const Search := "search"
  const Details := "details"
  const Dashboard := "dashboard"

  /** The current page name and the selected project id, if any. */
  datatype AppState = AppState(page: string, selected: Option<string>)

  /** JavaScript truthiness of `string | null`: present and non-empty. */
  predicate Truthy(o: Option<string>) {
    o.Some? && o.value != ""
  }

  /** Outside the details page nothing is selected. */
  predicate SelectionInvariant(s: AppState) {
    s.page != Details ==> s.selected.None?
  }

  /** On the details page the selection is present and non-empty. */
  predicate DetailsHasSelection(s: AppState) {
    s.page == Details ==> Truthy(s.selected)
  }

  /** The state on start-up: the home page, nothing selected. */
  function InitialApp(): (r: AppState)
    ensures r.page == Home && r.selected.None?
    ensures SelectionInvariant(r) && DetailsHasSelection(r)
  {
    AppState(Home, None)
  }

  // ---------------------------------------------------------------------------
  // Handlers.

  /**
   * Go to `page`. Leaving for any page other than the details page clears the
   * selection; going to the details page keeps whatever was selected.
   */
  function PageChange(s: AppState, page: string): (r: AppState)
    ensures r.page == page
    ensures page != Details ==> r.selected.None?
    ensures page == Details ==> r.selected == s.selected
    ensures SelectionInvariant(r)
  {
    var cleared := if page != Details then None else s.selected;
    AppState(page, cleared)
  }

  /** Open the details page for exactly the given project id. */
  function ProjectSelect(s: AppState, id: string): (r: AppState)
    ensures r.page == Details && r.selected == Some(id)
    ensures id != "" ==> DetailsHasSelection(r)
  {
    AppState(Details, Some(id))
  }

  /** Return to the search page with nothing selected, whatever the state was. */
  function BackToSearch(s: AppState): (r: AppState)
    ensures r.page == Search && r.selected.None?
  {
    AppState(Search, None)
  }

  // ---------------------------------------------------------------------------
  // Page views and their render guards.

  datatype View = HomeView | SearchView | DetailsView(projectId: string) | DashboardView

  predicate ShowsHome(s: AppState) { s.page == Home }
  predicate ShowsSearch(s: AppState) { s.page == Search }
  predicate ShowsDetails(s: AppState) { s.page == Details && Truthy(s.selected) }
  predicate ShowsDashboard(s: AppState) { s.page == Dashboard }

  /** A page name for which some view exists. */
  predicate KnownPage(page: string) {
    page == Home || page == Search || page == Details || page == Dashboard
  }

  /**
   * The set of page views that render for a state. The guards test distinct
   * page names, so at most one view renders; none renders for an unknown page,
   * or for the details page without a truthy selection.
   */
  function RenderedViews(s: AppState): (r: set<View>)
    ensures |r| <= 1
    ensures HomeView in r <==> s.page == Home
    ensures SearchView in r <==> s.page == Search
    ensures DashboardView in r <==> s.page == Dashboard
    ensures forall v :: v in r && v.DetailsView? ==> s.page == Details && s.selected == Some(v.projectId)
    ensures (exists v :: v in r && v.DetailsView?) <==> s.page == Details && Truthy(s.selected)
    ensures r == {} <==> !KnownPage(s.page) || (s.page == Details && !Truthy(s.selected))
  {
    if ShowsHome(s) then {HomeView}
    else if ShowsSearch(s) then {SearchView}
    else if ShowsDetails(s) then {DetailsView(s.selected.value)}
    else if ShowsDashboard(s) then {DashboardView}
    else {}
  }

  // ---------------------------------------------------------------------------
  // Events and reachability.

  datatype Event = ChangePage(page: string) | SelectProject(id: string) | Back

  /**
   * Which handler each child's callback reaches: the navigation bar and the home
   * page call the page change, the search page the project selection, the
   * details page the back button.
   */
  function Step(s: AppState, e: Event): (r: AppState)
    ensures e.ChangePage? ==> r.page == e.page
    ensures e.SelectProject? ==> r == AppState(Details, Some(e.id))
    ensures e.Back? ==> r == AppState(Search, None)
    ensures SelectionInvariant(r)
  {
    match e
    case ChangePage(p) => PageChange(s, p)
    case SelectProject(id) => ProjectSelect(s, id)
    case Back => BackToSearch(s)
  }

  /** The state after the events `es`, applied in order. */
  function Run(s: AppState, es: seq<Event>): AppState
    decreases |es|
  {
    if es == [] then s else Run(Step(s, es[0]), es[1..])
  }

  /**
   * The events the running application can raise: the navigation bar and the
   * home page ask only for the home, search and dashboard pages; the search
   * page selects only mock project ids; the details page's back button.
   */
  predicate Emittable(e: Event) {
    match e
    case ChangePage(p) => p == Home || p == Search || p == Dashboard
    case SelectProject(id) => IsMockId(id)
    case Back => true
  }

  /** Every handler, on any input, leaves nothing selected outside the details page. */
  lemma StepKeepsSelectionInvariant(s: AppState, e: Event)
    ensures SelectionInvariant(Step(s, e))
  {
  }

  /** Emittable events keep both the selection invariant and a truthy selection on the details page. */
  lemma EmittableStepKeepsInvariants(s: AppState, e: Event)
    requires DetailsHasSelection(s) && Emittable(e)
    ensures SelectionInvariant(Step(s, e)) && DetailsHasSelection(Step(s, e))
    ensures KnownPage(Step(s, e).page)
  {
    MockIdsWellFormed();
  }

  /** Runs of emittable events from a well-formed state stay well-formed. */
  lemma {:induction false} EmittableRunKeepsInvariants(s: AppState, es: seq<Event>)
    requires SelectionInvariant(s) && DetailsHasSelection(s) && KnownPage(s.page)
    requires forall i :: 0 <= i < |es| ==> Emittable(es[i])
    ensures var r := Run(s, es);
            SelectionInvariant(r) && DetailsHasSelection(r) && KnownPage(r.page)
    decreases |es|
  {
    if es != [] {
      EmittableStepKeepsInvariants(s, es[0]);
      EmittableRunKeepsInvariants(Step(s, es[0]), es[1..]);
    }
  }

  /**
   * Every state the running application can reach renders exactly one page
   * view; in particular the details page always has a non-empty selection.
   */
  lemma {:induction false} ReachableStatesRenderOneView(es: seq<Event>)
    requires forall i :: 0 <= i < |es| ==> Emittable(es[i])
    ensures var r := Run(InitialApp(), es);
            && SelectionInvariant(r)
            && (r.page == Details ==> Truthy(r.selected))
            && |RenderedViews(r)| == 1
  {
    EmittableRunKeepsInvariants(InitialApp(), es);
    var r := Run(InitialApp(), es);
    assert RenderedViews(r) != {};
  }

  /** Outside that event set the invariant is fragile: asking for the details page directly renders nothing. */
  lemma DirectDetailsRendersNothing()
    ensures var r := PageChange(InitialApp(), Details);
            && r.page == Details && r.selected.None? && RenderedViews(r) == {}
  {
  }

  /** Selecting the empty id also reaches the details page with nothing rendered. */
  lemma EmptySelectionRendersNothing(s: AppState)
    ensures var r := ProjectSelect(s, "");
            && r.page == Details && RenderedViews(r) == {}
  {
  }

  /**
   * Pressing "Find Project" on the search page: the id search hands its result,
   * if any, to project selection; an empty or unmatched query changes nothing.
   */
  function FindProject(a: AppState, q: ProjectSearch.SearchState): (r: AppState)
    ensures !ProjectSearch.IdSearchEnabled(q) ==> r == a
    ensures ProjectSearch.IdSearch(q).None? ==> r == a
    ensures ProjectSearch.IdSearch(q).Some? ==>
              && r.page == Details
              && r.selected == ProjectSearch.IdSearch(q)
              && Truthy(r.selected)
              && IsMockId(r.selected.value)
  {
    ProjectSearch.IdSearchYieldsMockId(q);
    match ProjectSearch.IdSearch(q)
    case Some(id) => ProjectSelect(a, id)
    case None => a
  }

  /** From the search page, the query "2024" opens the details of the first mock project. */
  lemma FindByYearOpensFirstProject()
    ensures var q := ProjectSearch.TypeId(ProjectSearch.InitialSearch(), "2024");
            FindProject(AppState(Search, None), q) == AppState(Details, Some("DPWH-2024-001"))
  {
    ProjectSearch.YearQuerySelectsFirstOnly();
  }

  /** The id-search handler only ever selects through an emittable event. */
  lemma IdSearchSelectionIsEmittable(q: ProjectSearch.SearchState)
    ensures ProjectSearch.IdSearch(q).Some? ==> Emittable(SelectProject(ProjectSearch.IdSearch(q).value))
  {
    ProjectSearch.IdSearchYieldsMockId(q);
  }

  /** On a page reached from a fresh mount by any page events, every result card click is emittable. */
  lemma {:induction false} ReachableResultCardIsEmittable(es: seq<ProjectSearch.SearchEvent>, i: int)
    requires 0 <= i < |ProjectSearch.SearchRun(ProjectSearch.InitialSearch(), es).results|
    ensures Emittable(SelectProject(ProjectSearch.SearchRun(ProjectSearch.InitialSearch(), es).results[i].id))
  {
    ProjectSearch.SearchRunKeepsResultsInvariant(ProjectSearch.InitialSearch(), es);
    ResultCardSelectionIsEmittable(ProjectSearch.SearchRun(ProjectSearch.InitialSearch(), es), i);
  }

  /** A result card click selects through an emittable event. */
  lemma ResultCardSelectionIsEmittable(q: ProjectSearch.SearchState, i: int)
    requires ProjectSearch.ResultsInvariant(q) && 0 <= i < |q.results|
    ensures Emittable(SelectProject(q.results[i].id))
  {
    ProjectSearch.ResultCardYieldsMockId(q, i);
  }
}
