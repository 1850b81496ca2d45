/**
 * The state and handlers of the project search page: the search mode, the
 * chosen region and province, the typed project id and the listed results.
 * Each handler is one atomic state transition.
 */
module ProjectSearch {
  import opened Wrappers
  import opened Ascii
  import opened Catalog

  datatype SearchMode = ByLocation | ById

  datatype SearchState = SearchState(
    mode: SearchMode,
    region: string,
    province: string,
    idQuery: string,
    results: seq<Project>)

  /** A freshly mounted page: location mode, nothing chosen, nothing typed, no results. */
  function InitialSearch(): (r: SearchState)
    ensures r.mode == ByLocation && r.results == []
    ensures r.region == "" && r.province == "" && r.idQuery == ""
    ensures !LocationSearchEnabled(r) && !IdSearchEnabled(r)
    ensures ProvinceOptions(r.region).None?
    ensures ResultsInvariant(r)
  {
    SearchState(ByLocation, "", "", "", [])
  }

  // ---------------------------------------------------------------------------
  // Input bindings. Each sets one field; choosing a region does NOT reset the
  // province.

  function ChooseMode(s: SearchState, m: SearchMode): SearchState {
    s.(mode := m)
  }

  /** The region select: the province chosen before survives, and so do the results. */
  function ChooseRegion(s: SearchState, region: string): (r: SearchState)
    ensures r.region == region
    ensures r.province == s.province && r.results == s.results && r.idQuery == s.idQuery && r.mode == s.mode
    ensures region != "" && s.province != "" ==> LocationSearchEnabled(r)
  {
    s.(region := region)
  }

  /** The province select: the region and the results are kept. */
  function ChooseProvince(s: SearchState, province: string): (r: SearchState)
    ensures r.province == province
    ensures r.region == s.region && r.results == s.results && r.idQuery == s.idQuery && r.mode == s.mode
    ensures LocationSearchEnabled(r) <==> s.region != "" && province != ""
  {
    s.(province := province)
  }

  /** The id input: the typed text becomes the query; location fields and results are kept. */
  function TypeId(s: SearchState, query: string): (r: SearchState)
    ensures r.idQuery == query
    ensures r.region == s.region && r.province == s.province && r.results == s.results && r.mode == s.mode
    ensures IdSearchEnabled(r) <==> query != ""
  {
    s.(idQuery := query)
  }

  // ---------------------------------------------------------------------------
  // Enabling guards of the two search buttons (JavaScript truthiness of strings).

  predicate LocationSearchEnabled(s: SearchState) {
    !(s.region == "" || s.province == "")
  }

  predicate IdSearchEnabled(s: SearchState) {
    s.idQuery != ""
  }

  // ---------------------------------------------------------------------------
  // Location search.

  /**
   * The location-search handler: with both a region and a province chosen the
   * results become the whole mock list; otherwise nothing changes. Nothing but
   * the results is ever touched.
   */
  function LocationSearch(s: SearchState): (r: SearchState)
    ensures LocationSearchEnabled(s) ==> r.results == MockProjects
    ensures !LocationSearchEnabled(s) ==> r == s
    ensures r.(results := s.results) == s
  {
    if s.region != "" && s.province != "" then s.(results := MockProjects) else s
  }

  /** The outcome of a location search does not depend on which region and province were chosen. */
  lemma LocationSearchIgnoresLocation(s: SearchState, t: SearchState)
    requires LocationSearchEnabled(s) && LocationSearchEnabled(t)
    ensures LocationSearch(s).results == LocationSearch(t).results == MockProjects
  {
  }

  /** NCR / Manila, where no mock project is located, still lists all three projects in order. */
  lemma NcrManilaListsEveryProject()
    ensures var s := ChooseProvince(ChooseRegion(InitialSearch(), Ncr), "Manila");
            && LocationSearch(s).results == MockProjects
            && |LocationSearch(s).results| == 3
            && forall i :: 0 <= i < 3 ==> LocationSearch(s).results[i].location == "Bataan, Region III"
  {
  }

  /**
   * A province chosen under one region survives a change of region, even to a
   * region that offers no province selector, and keeps the search button enabled.
   */
  lemma StaleProvinceKeepsSearchEnabled(s: SearchState, region: string)
    requires region != "" && s.province != ""
    ensures ChooseRegion(s, region).province == s.province
    ensures LocationSearchEnabled(ChooseRegion(s, region))
    ensures LocationSearch(ChooseRegion(s, region)).results == MockProjects
  {
  }

  /** Concretely: Bataan under Central Luzon, then CAR, which has no province list. */
  lemma StaleProvinceExample()
    ensures var s := ChooseRegion(ChooseProvince(ChooseRegion(InitialSearch(), CentralLuzon), "Bataan"),
                                  "CAR - Cordillera Administrative Region");
            && ProvinceOptions(s.region).None?
            && s.province == "Bataan"
            && LocationSearchEnabled(s)
            && LocationSearch(s).results == MockProjects
  {
  }

  // ---------------------------------------------------------------------------
  // Id search.

  /** A project matches a query when its lower-cased id includes the lower-cased query. */
  predicate MatchesQuery(p: Project, query: string) {
    IncludesIgnoringCase(p.id, query)
  }

  /** Position `i` holds the first project of `ps` that matches `query`. */
  ghost predicate IsFirstMatch(ps: seq<Project>, query: string, i: int) {
    && 0 <= i < |ps|
    && MatchesQuery(ps[i], query)
    && forall j :: 0 <= j < i ==> !MatchesQuery(ps[j], query)
  }

  /** `Array.prototype.find` with the id predicate: the position of the first match, if any. */
  function FindFirst(ps: seq<Project>, query: string): (r: Option<nat>)
    ensures r.Some? ==> IsFirstMatch(ps, query, r.value)
    ensures r.None? ==> forall j :: 0 <= j < |ps| ==> !MatchesQuery(ps[j], query)
  {
    if |ps| == 0 then None
    else if MatchesQuery(ps[0], query) then Some(0)
    else
      match FindFirst(ps[1..], query)
      case None => None
      case Some(k) => Some(k + 1)
  }

  /** Only the lower-cased query matters to the search. */
  lemma {:induction false} FindFirstDependsOnLowerQuery(ps: seq<Project>, q1: string, q2: string)
    requires ToLower(q1) == ToLower(q2)
    ensures FindFirst(ps, q1) == FindFirst(ps, q2)
  {
    if |ps| > 0 {
      FindFirstDependsOnLowerQuery(ps[1..], q1, q2);
    }
  }

  /**
   * The id-search handler: the id it hands to project selection, or None.
   * An empty query is ignored; otherwise the first mock project whose id
   * contains the query, ignoring case, is chosen. The page state is unchanged.
   */
  function IdSearch(s: SearchState): (r: Option<string>)
    ensures !IdSearchEnabled(s) ==> r.None?
    ensures r.Some? ==> exists i :: IsFirstMatch(MockProjects, s.idQuery, i) && MockProjects[i].id == r.value
    ensures r.None? && IdSearchEnabled(s) ==>
              forall j :: 0 <= j < |MockProjects| ==> !MatchesQuery(MockProjects[j], s.idQuery)
  {
    if s.idQuery != "" then
      match FindFirst(MockProjects, s.idQuery)
      case Some(i) => Some(MockProjects[i].id)
      case None => None
    else
      None
  }

  /** Any id the id search yields is the id of a mock project, hence non-empty. */
  lemma IdSearchYieldsMockId(s: SearchState)
    ensures IdSearch(s).Some? ==> IsMockId(IdSearch(s).value) && IdSearch(s).value != ""
  {
  }

  /** Queries that differ only in ASCII letter case select the same project. */
  lemma {:induction false} IdSearchIgnoresCase(s: SearchState, t: SearchState)
    requires SameIgnoringCase(s.idQuery, t.idQuery)
    ensures IdSearch(s) == IdSearch(t)
  {
    SameIgnoringCaseIffSameLower(s.idQuery, t.idQuery);
    FindFirstDependsOnLowerQuery(MockProjects, s.idQuery, t.idQuery);
  }

  /** A query that every mock id contains still yields one id: the first in list order. */
  lemma YearQuerySelectsFirstOnly()
    ensures forall j :: 0 <= j < |MockProjects| ==> MatchesQuery(MockProjects[j], "2024")
    ensures IdSearch(TypeId(InitialSearch(), "2024")) == Some("DPWH-2024-001")
  {
    LoweredMockIds();
    assert ToLower("2024") == "2024";
    assert OccursAt("dpwh-2024-001", "2024", 5);
    assert OccursAt("deped-2024-002", "2024", 6);
    assert OccursAt("doh-2024-003", "2024", 4);
  }

  /** The lower-cased mock ids, spelled out. */
  lemma LoweredMockIds()
    ensures ToLower(MockProjects[0].id) == "dpwh-2024-001"
    ensures ToLower(MockProjects[1].id) == "deped-2024-002"
    ensures ToLower(MockProjects[2].id) == "doh-2024-003"
  {
  }

  /** The first match is the one the id search reports. */
  lemma IdSearchReportsFirstMatch(s: SearchState, i: int)
    requires IdSearchEnabled(s) && IsFirstMatch(MockProjects, s.idQuery, i)
    ensures IdSearch(s) == Some(MockProjects[i].id)
  {
    match FindFirst(MockProjects, s.idQuery)
    case None =>
    case Some(k) =>
      if k < i {
        assert false;
      } else if i < k {
        assert false;
      }
  }

  /** The first mock id does not contain "deped". */
  lemma DepedMissesFirst()
    ensures !MatchesQuery(MockProjects[0], "deped")
  {
    LoweredMockIds();
    assert ToLower("deped") == "deped";
    NotIncludedByLetter("dpwh-2024-001", "deped", 'e');
  }

  /** The second mock id begins with "deped". */
  lemma DepedMatchesSecond()
    ensures MatchesQuery(MockProjects[1], "deped")
  {
    LoweredMockIds();
    assert ToLower("deped") == "deped";
    assert OccursAt("deped-2024-002", "deped", 0);
  }

  /** Neither of the first two mock ids contains the digit 3. */
  lemma SuffixMissesFirstTwo(j: int)
    requires 0 <= j < 2
    ensures !MatchesQuery(MockProjects[j], "003")
  {
    LoweredMockIds();
    assert ToLower("003") == "003";
    NotIncludedByLetter(ToLower(MockProjects[j].id), "003", '3');
  }

  /** The third mock id ends with "003". */
  lemma SuffixMatchesThird()
    ensures MatchesQuery(MockProjects[2], "003")
  {
    LoweredMockIds();
    assert ToLower("003") == "003";
    assert OccursAt("doh-2024-003", "003", 9);
  }

  /** A lower-case agency prefix finds that agency's project. */
  lemma AgencyPrefixSearch()
    ensures IdSearch(TypeId(InitialSearch(), "deped")) == Some("DEPED-2024-002")
  {
    DepedMissesFirst();
    DepedMatchesSecond();
    IdSearchReportsFirstMatch(TypeId(InitialSearch(), "deped"), 1);
  }

  /** The last mock project is found by its sequence-number suffix. */
  lemma SequenceSuffixSearch()
    ensures IdSearch(TypeId(InitialSearch(), "003")) == Some("DOH-2024-003")
  {
    forall j | 0 <= j < 2
      ensures !MatchesQuery(MockProjects[j], "003")
    {
      SuffixMissesFirstTwo(j);
    }
    SuffixMatchesThird();
    IdSearchReportsFirstMatch(TypeId(InitialSearch(), "003"), 2);
  }

  /** No mock id contains "ncr", in any letter case. */
  lemma NoMockIdContainsNcr(j: int)
    requires 0 <= j < |MockProjects|
    ensures !MatchesQuery(MockProjects[j], "NCR")
  {
    LoweredMockIds();
    assert ToLower("NCR") == "ncr";
    NotIncludedByLetter(ToLower(MockProjects[j].id), "ncr", 'n');
  }

  /** A query that no mock id contains, ignoring case, selects nothing. */
  lemma UnknownQuerySelectsNothing()
    ensures IdSearch(TypeId(InitialSearch(), "NCR")) == None
  {
    NoMockIdContainsNcr(0);
    NoMockIdContainsNcr(1);
    NoMockIdContainsNcr(2);
  }


  // ---------------------------------------------------------------------------
  // The page as a whole: the events its widgets raise and the results invariant.

  datatype SearchEvent =
    | PickMode(mode: SearchMode)
    | PickRegion(region: string)
    | PickProvince(province: string)
    | EnterId(query: string)
    | PressLocationSearch
    | PressIdSearch

  /** One page event. Only the location-search button changes the results, and only to the mock list. */
  function SearchStep(s: SearchState, e: SearchEvent): (r: SearchState)
    ensures r.results != s.results ==> e.PressLocationSearch? && r.results == MockProjects
    ensures e.PressIdSearch? ==> r == s
  {
    match e
    case PickMode(m) => ChooseMode(s, m)
    case PickRegion(r) => ChooseRegion(s, r)
    case PickProvince(p) => ChooseProvince(s, p)
    case EnterId(q) => TypeId(s, q)
    case PressLocationSearch => LocationSearch(s)
    case PressIdSearch => s
  }

  /** The listed results are either empty or exactly the mock list. */
  predicate ResultsInvariant(s: SearchState) {
    s.results == [] || s.results == MockProjects
  }

  /** Every page event keeps the results invariant. */
  lemma SearchStepKeepsResultsInvariant(s: SearchState, e: SearchEvent)
    requires ResultsInvariant(s)
    ensures ResultsInvariant(SearchStep(s, e))
  {
  }

  /** A disabled button's handler is a no-op: the guards and the handlers agree. */
  lemma DisabledButtonsDoNothing(s: SearchState)
    ensures !LocationSearchEnabled(s) ==> SearchStep(s, PressLocationSearch) == s
    ensures !IdSearchEnabled(s) ==> IdSearch(s).None?
    ensures LocationSearchEnabled(s) <==> SearchStep(s.(results := []), PressLocationSearch).results != []
  {
  }

  /** The page state after the events `es`, applied in order. */
  function SearchRun(s: SearchState, es: seq<SearchEvent>): SearchState
    decreases |es|
  {
    if es == [] then s else SearchRun(SearchStep(s, es[0]), es[1..])
  }

  /** From a freshly mounted page, any sequence of page events keeps the results invariant. */
  lemma {:induction false} SearchRunKeepsResultsInvariant(s: SearchState, es: seq<SearchEvent>)
    requires ResultsInvariant(s)
    ensures ResultsInvariant(SearchRun(s, es))
    decreases |es|
  {
    if es != [] {
      SearchStepKeepsResultsInvariant(s, es[0]);
      SearchRunKeepsResultsInvariant(SearchStep(s, es[0]), es[1..]);
    }
  }

  /** Lower-casing the query before searching changes nothing. */
  lemma LoweredQuerySearchesAlike(s: SearchState)
    ensures IdSearch(TypeId(s, ToLower(s.idQuery))) == IdSearch(s)
  {
    ToLowerIdempotent(s.idQuery);
    SameIgnoringCaseIffSameLower(ToLower(s.idQuery), s.idQuery);
    IdSearchIgnoresCase(TypeId(s, ToLower(s.idQuery)), s);
  }

  /** A result card carries the id of a mock project. */
  lemma ResultCardYieldsMockId(s: SearchState, i: int)
    requires ResultsInvariant(s) && 0 <= i < |s.results|
    ensures IsMockId(s.results[i].id) && s.results[i].id != ""
  {
  }
}
