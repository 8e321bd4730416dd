/**
 * The candidate list's state (lib/context/CandidateContext.jsx): a reducer over an
 * eleven-field state, its initial value, and the provider that dispatches actions to it
 * (loading, the manual filter pipeline, and the AI filter that shows a chosen list of ids).
 */
module CandidateContext {
  import opened Wrappers
  import opened JsStrings
  import opened SeqLib
  import opened StableSort
  import opened JsValues
  import opened CsvLoader
  import opened SearchHelpers

  /** The state object; `null` is `None`. */
  datatype State = State(
    candidates: seq<Candidate>,
    filteredCandidates: seq<Candidate>,
    searchTerm: string,
    locationFilter: string,
    experienceFilter: string,
    sortBy: string,
    selectedCandidate: Option<Candidate>,
    isLoading: bool,
    isSearching: bool,
    error: Option<string>,
    lastAIQuery: Option<string>)

  /** The actions the reducer handles; `Unknown` stands for any other `type`. */
  datatype Action =
    | LoadStart
    | LoadSuccess(payload: seq<Candidate>)
    | LoadError(message: string)
    | SearchStart
    | SearchComplete(results: seq<Candidate>)
    | AiFilterApply(shown: seq<Candidate>, query: Option<string>)
    | SetSearchTerm(term: string)
    | SetLocationFilter(location: string)
    | SetExperienceFilter(level: string)
    | SetSortBy(criterion: string)
    | SetSelectedCandidate(candidate: Option<Candidate>)
    | ClearFilters
    | Unknown(actionType: string)

  /** `initialState`. */
  const InitialState: State :=
    State([], [], "", "", "", "name", None, true, false, None, None)

  /** `action.query || state.lastAIQuery`: an empty or missing query keeps the last one. */
  function KeepQuery(query: Option<string>, last: Option<string>): Option<string> {
    if query.Some? && query.value != "" then query else last
  }

  /** `candidateReducer(state, action)`: the next state, or the error thrown for an unknown type. */
  function Reduce(s: State, a: Action): Result<State> {
    match a
    case LoadStart => Success(s.(isLoading := true, error := None))
    case LoadSuccess(payload) =>
      Success(s.(candidates := payload, filteredCandidates := payload, isLoading := false, error := None))
    case LoadError(message) => Success(s.(isLoading := false, error := Some(message)))
    case SearchStart => Success(s.(isSearching := true))
    case SearchComplete(results) => Success(s.(filteredCandidates := results, isSearching := false))
    case AiFilterApply(shown, query) =>
      Success(s.(filteredCandidates := shown, lastAIQuery := KeepQuery(query, s.lastAIQuery)))
    case SetSearchTerm(term) => Success(s.(searchTerm := term))
    case SetLocationFilter(location) => Success(s.(locationFilter := location))
    case SetExperienceFilter(level) => Success(s.(experienceFilter := level))
    case SetSortBy(criterion) => Success(s.(sortBy := criterion))
    case SetSelectedCandidate(candidate) => Success(s.(selectedCandidate := candidate))
    case ClearFilters =>
      Success(s.(searchTerm := "", locationFilter := "", experienceFilter := "", sortBy := "name",
                 filteredCandidates := s.candidates))
    case Unknown(actionType) => Failure("Unhandled action type: " + actionType)
  }

  /** The fields of the state, to say which ones an action may change. */
  datatype Field =
    | CandidatesField | FilteredField | SearchTermField | LocationField | ExperienceField
    | SortByField | SelectedField | LoadingField | SearchingField | ErrorField | AiQueryField

  /** The two states hold the same value in field `f`. */
  predicate Agree(s: State, t: State, f: Field) {
    match f
    case CandidatesField => s.candidates == t.candidates
    case FilteredField => s.filteredCandidates == t.filteredCandidates
    case SearchTermField => s.searchTerm == t.searchTerm
    case LocationField => s.locationFilter == t.locationFilter
    case ExperienceField => s.experienceFilter == t.experienceFilter
    case SortByField => s.sortBy == t.sortBy
    case SelectedField => s.selectedCandidate == t.selectedCandidate
    case LoadingField => s.isLoading == t.isLoading
    case SearchingField => s.isSearching == t.isSearching
    case ErrorField => s.error == t.error
    case AiQueryField => s.lastAIQuery == t.lastAIQuery
  }

  /** The fields each action is documented to change. */
  function Changes(a: Action): set<Field> {
    match a
    case LoadStart => {LoadingField, ErrorField}
    case LoadSuccess(_) => {CandidatesField, FilteredField, LoadingField, ErrorField}
    case LoadError(_) => {LoadingField, ErrorField}
    case SearchStart => {SearchingField}
    case SearchComplete(_) => {FilteredField, SearchingField}
    case AiFilterApply(_, _) => {FilteredField, AiQueryField}
    case SetSearchTerm(_) => {SearchTermField}
    case SetLocationFilter(_) => {LocationField}
    case SetExperienceFilter(_) => {ExperienceField}
    case SetSortBy(_) => {SortByField}
    case SetSelectedCandidate(_) => {SelectedField}
    case ClearFilters => {SearchTermField, LocationField, ExperienceField, SortByField, FilteredField}
    case Unknown(_) => {}
  }

  /** The reducer throws exactly for an unknown action type. */
  lemma ReduceFailsOnlyForUnknown(s: State, a: Action)
    ensures Reduce(s, a).Failure? <==> a.Unknown?
  {
  }

  /** Only these fields change: every field outside `Changes(a)` keeps its value. */
  lemma ReduceFrame(s: State, a: Action, f: Field)
    requires !a.Unknown? && f !in Changes(a)
    ensures Agree(s, Reduce(s, a).value, f)
  {
  }

  /** Loading: a start clears the error; success shows every loaded candidate; an error keeps the lists. */
  lemma LoadEffects(s: State, payload: seq<Candidate>, message: string)
    ensures var t := Reduce(s, LoadStart).value; t.isLoading && t.error == None
    ensures var t := Reduce(s, LoadSuccess(payload)).value;
      t.candidates == payload && t.filteredCandidates == payload && !t.isLoading && t.error == None
    ensures var t := Reduce(s, LoadError(message)).value;
      !t.isLoading && t.error == Some(message) && t.candidates == s.candidates
  {
  }

  /** Searching: a start raises the flag; completion shows the results and lowers it. */
  lemma SearchEffects(s: State, results: seq<Candidate>)
    ensures Reduce(s, SearchStart).value.isSearching
    ensures var t := Reduce(s, SearchComplete(results)).value;
      t.filteredCandidates == results && !t.isSearching && t.candidates == s.candidates
  {
  }

  /** The AI filter shows its list and remembers a non-empty query; no query keeps the last one. */
  lemma AiFilterApplyEffect(s: State, shown: seq<Candidate>, query: Option<string>)
    ensures var t := Reduce(s, AiFilterApply(shown, query)).value;
      && t.filteredCandidates == shown
      && (query.Some? && query.value != "" ==> t.lastAIQuery == query)
      && (query.None? || query == Some("") ==> t.lastAIQuery == s.lastAIQuery)
  {
  }

  /** Clearing resets the four criteria and shows every candidate again, leaving the candidates alone. */
  lemma ClearFiltersEffect(s: State)
    ensures var t := Reduce(s, ClearFilters).value;
      && t.searchTerm == "" && t.locationFilter == "" && t.experienceFilter == "" && t.sortBy == "name"
      && t.filteredCandidates == s.candidates && t.candidates == s.candidates
  {
  }

  /** Every setter stores its value in its own field. */
  lemma SetterEffects(s: State, text: string, c: Option<Candidate>)
    ensures Reduce(s, SetSearchTerm(text)).value.searchTerm == text
    ensures Reduce(s, SetLocationFilter(text)).value.locationFilter == text
    ensures Reduce(s, SetExperienceFilter(text)).value.experienceFilter == text
    ensures Reduce(s, SetSortBy(text)).value.sortBy == text
    ensures Reduce(s, SetSelectedCandidate(c)).value.selectedCandidate == c
  {
  }

  /** The initial state: nothing loaded yet, loading under way, sorted by name. */
  lemma InitialStateMeaning()
    ensures InitialState.candidates == [] && InitialState.filteredCandidates == []
    ensures InitialState.sortBy == "name" && InitialState.isLoading && !InitialState.isSearching
    ensures InitialState.searchTerm == "" && InitialState.locationFilter == "" && InitialState.experienceFilter == ""
  {
  }

  /** `applyFilters`' pipeline: search, then location, then experience, then sort. */
  function Pipeline(s: State): seq<Candidate> {
    var searched := FilterBySearchTerm(s.candidates, s.searchTerm);
    var located := FilterByLocation(searched, s.locationFilter);
    var banded := FilterByExperience(located, s.experienceFilter);
    SortCandidates(banded, s.sortBy)
  }

  /**
   * The pipeline shows exactly the candidates that pass all three filters, each as often as
   * it is loaded, reordered by the sort.
   */
  lemma PipelineMeaning(s: State, c: Candidate)
    ensures c in Pipeline(s) <==>
      && c in s.candidates
      && (s.searchTerm == "" || MatchesTerm(c, Lower(s.searchTerm)))
      && (s.locationFilter == "" || Includes(Lower(c.location), Lower(s.locationFilter)))
      && InBand(s.experienceFilter, c)
    ensures multiset(Pipeline(s))[c] ==
      if && (s.searchTerm == "" || MatchesTerm(c, Lower(s.searchTerm)))
         && (s.locationFilter == "" || Includes(Lower(c.location), Lower(s.locationFilter)))
         && InBand(s.experienceFilter, c)
      then multiset(s.candidates)[c] else 0
  {
    var searched := FilterBySearchTerm(s.candidates, s.searchTerm);
    var located := FilterByLocation(searched, s.locationFilter);
    var banded := FilterByExperience(located, s.experienceFilter);
    SearchTermMeaning(s.candidates, s.searchTerm);
    LocationMeaning(searched, s.locationFilter);
    ExperienceMeaning(located, s.experienceFilter, c);
    SortKeepsMembers(banded, s.sortBy, c);
  }

  /** The final sort rearranges the candidates it is given, neither adding nor dropping any. */
  lemma SortKeepsMembers(cs: seq<Candidate>, sortBy: string, c: Candidate)
    ensures multiset(SortCandidates(cs, sortBy)) == multiset(cs)
    ensures c in SortCandidates(cs, sortBy) <==> c in cs
  {
    if sortBy == "name" {
      SortPermutes(cs, ByName());
    } else if sortBy == "experience" {
      SortPermutes(cs, ByExperience());
    } else if sortBy == "salary" {
      SortPermutes(cs, BySalary());
    }
    assert c in SortCandidates(cs, sortBy) <==> c in multiset(SortCandidates(cs, sortBy));
  }

  /** After clearing, the pipeline shows every candidate, sorted by name. */
  lemma ClearedPipelineSortsAll(s: State)
    ensures Pipeline(Reduce(s, ClearFilters).value) == Sort(s.candidates, ByName())
  {
  }

  /** `state.candidates.find(candidate => candidate.id === id)`. */
  function FindById(candidates: seq<Candidate>, id: JsValue): (r: Option<Candidate>)
    ensures r.Some? ==> r.value in candidates && id == Num(r.value.id)
    ensures r.None? ==> forall c :: c in candidates ==> id != Num(c.id)
  {
    if candidates == [] then None
    else if id == Num(candidates[0].id) then Some(candidates[0])
    else FindById(candidates[1..], id)
  }

  /** The first candidate with the id is the one found. */
  lemma {:induction false} FindByIdFirst(candidates: seq<Candidate>, id: JsValue, k: nat)
    requires k < |candidates| && id == Num(candidates[k].id)
    requires forall j :: 0 <= j < k ==> id != Num(candidates[j].id)
    ensures FindById(candidates, id) == Some(candidates[k])
  {
    if k > 0 {
      FindByIdFirst(candidates[1..], id, k - 1);
    }
  }

  /**
   * `candidateIds.map(id => candidates.find(...)).filter(Boolean)`: the candidate of each
   * id in turn, ids without a candidate dropped.
   */
  function AiSelect(ids: seq<JsValue>, candidates: seq<Candidate>): seq<Candidate> {
    if ids == [] then []
    else
      var rest := AiSelect(ids[1..], candidates);
      match FindById(candidates, ids[0])
      case Some(c) => [c] + rest
      case None => rest
  }

  /** The selection follows the ids' order: selecting for two runs of ids concatenates the selections. */
  lemma {:induction false} AiSelectAppend(a: seq<JsValue>, b: seq<JsValue>, candidates: seq<Candidate>)
    ensures AiSelect(a + b, candidates) == AiSelect(a, candidates) + AiSelect(b, candidates)
  {
    if a == [] {
      assert a + b == b;
    } else {
      assert (a + b)[0] == a[0] && (a + b)[1..] == a[1..] + b;
      AiSelectAppend(a[1..], b, candidates);
    }
  }

  /**
   * The selection holds exactly the first candidate of each listed id that has one, and
   * never more entries than ids.
   */
  lemma {:induction false} AiSelectMembers(ids: seq<JsValue>, candidates: seq<Candidate>, c: Candidate)
    ensures c in AiSelect(ids, candidates) <==> exists i :: 0 <= i < |ids| && FindById(candidates, ids[i]) == Some(c)
    ensures |AiSelect(ids, candidates)| <= |ids|
  {
    if ids != [] {
      AiSelectMembers(ids[1..], candidates, c);
      if exists i :: 0 <= i < |ids[1..]| && FindById(candidates, ids[1..][i]) == Some(c) {
        var i :| 0 <= i < |ids[1..]| && FindById(candidates, ids[1..][i]) == Some(c);
        assert FindById(candidates, ids[i + 1]) == Some(c);
      }
      if exists i :: 0 <= i < |ids| && FindById(candidates, ids[i]) == Some(c) {
        var i :| 0 <= i < |ids| && FindById(candidates, ids[i]) == Some(c);
        if i > 0 {
          assert ids[1..][i - 1] == ids[i];
        }
      }
    }
  }

  /** When every id has a candidate, the k-th shown candidate is the one of the k-th id. */
  lemma {:induction false} AiSelectFollowsIds(ids: seq<JsValue>, candidates: seq<Candidate>)
    requires forall i :: 0 <= i < |ids| ==> FindById(candidates, ids[i]).Some?
    ensures |AiSelect(ids, candidates)| == |ids|
    ensures forall k :: 0 <= k < |ids| ==> Some(AiSelect(ids, candidates)[k]) == FindById(candidates, ids[k])
  {
    if ids != [] {
      assert forall i :: 0 <= i < |ids[1..]| ==> ids[1..][i] == ids[i + 1];
      AiSelectFollowsIds(ids[1..], candidates);
    }
  }

  /**
   * The provider: the state `useReducer` holds, and the actions it offers. Timers are run
   * at once; `dispatched` records the actions sent to the reducer, in order.
   */
  class CandidateProvider {
    var state: State
    ghost var dispatched: seq<Action>

    /** Every candidate on show is a loaded candidate. */
    predicate Valid()
      reads this
    {
      forall c :: c in state.filteredCandidates ==> c in state.candidates
    }

    constructor()
      ensures state == InitialState && dispatched == [] && Valid()
    {
      state := InitialState;
      dispatched := [];
    }

    /** `dispatch(action)`: the reducer's next state, or its error with the state unchanged. */
    method Dispatch(action: Action) returns (outcome: Result<State>)
      modifies this
      ensures outcome == Reduce(old(state), action)
      ensures state == if outcome.Success? then outcome.value else old(state)
      ensures dispatched == old(dispatched) + [action]
    {
      outcome := Reduce(state, action);
      if outcome.Success? {
        state := outcome.value;
      }
      dispatched := dispatched + [action];
    }

    /**
     * `loadCandidates(dispatch)`, with the file's rows (or the loader's error message) as
     * the parameter: `LOAD_START`, then `LOAD_SUCCESS` with the transformed rows or
     * `LOAD_ERROR` with the message.
     */
    method LoadCandidates(loaded: Result<seq<Row>>)
      requires Valid()
      modifies this
      ensures Valid()
      ensures loaded.Success? ==>
        && dispatched == old(dispatched) + [LoadStart, LoadSuccess(TransformCandidateData(loaded.value))]
        && state == old(state).(candidates := TransformCandidateData(loaded.value),
                                filteredCandidates := TransformCandidateData(loaded.value),
                                isLoading := false, error := None)
      ensures loaded.Failure? ==>
        && dispatched == old(dispatched) + [LoadStart, LoadError(loaded.message)]
        && state == old(state).(isLoading := false, error := Some(loaded.message))
    {
      var started := Dispatch(LoadStart);
      if loaded.Success? {
        var done := Dispatch(LoadSuccess(TransformCandidateData(loaded.value)));
      } else {
        var failed := Dispatch(LoadError(loaded.message));
      }
    }

    /**
     * `applyFilters(dispatch, snapshot)`: `SEARCH_START`, then the filters applied one after
     * another to the snapshot's candidates, then `SEARCH_COMPLETE` with the result.
     */
    method ApplyFilters(snapshot: State)
      modifies this
      ensures dispatched == old(dispatched) + [SearchStart, SearchComplete(Pipeline(snapshot))]
      ensures state == old(state).(filteredCandidates := Pipeline(snapshot), isSearching := false)
      ensures old(Valid()) && snapshot.candidates == old(state.candidates) ==> Valid()
    {
      var started := Dispatch(SearchStart);
      var filtered := FilterBySearchTerm(snapshot.candidates, snapshot.searchTerm);
      filtered := FilterByLocation(filtered, snapshot.locationFilter);
      filtered := FilterByExperience(filtered, snapshot.experienceFilter);
      filtered := SortCandidates(filtered, snapshot.sortBy);
      var done := Dispatch(SearchComplete(filtered));
      forall c | c in state.filteredCandidates ensures c in snapshot.candidates {
        PipelineMeaning(snapshot, c);
      }
    }

    /** `setSearchTerm(term)`: stores the term, then filters with it. */
    method SetSearchTermAndFilter(term: string)
      requires Valid()
      modifies this
      ensures Valid()
      ensures dispatched == old(dispatched) + [SetSearchTerm(term), SearchStart, SearchComplete(Pipeline(old(state).(searchTerm := term)))]
      ensures state == old(state).(searchTerm := term, isSearching := false,
                                   filteredCandidates := Pipeline(old(state).(searchTerm := term)))
    {
      var snapshot := state.(searchTerm := term);
      var stored := Dispatch(SetSearchTerm(term));
      ApplyFilters(snapshot);
    }

    /** `setLocationFilter(location)`: stores the location, then filters with it. */
    method SetLocationAndFilter(location: string)
      requires Valid()
      modifies this
      ensures Valid()
      ensures dispatched == old(dispatched) + [SetLocationFilter(location), SearchStart, SearchComplete(Pipeline(old(state).(locationFilter := location)))]
      ensures state == old(state).(locationFilter := location, isSearching := false,
                                   filteredCandidates := Pipeline(old(state).(locationFilter := location)))
    {
      var snapshot := state.(locationFilter := location);
      var stored := Dispatch(SetLocationFilter(location));
      ApplyFilters(snapshot);
    }

    /** `setExperienceFilter(experience)`: stores the level, then filters with it. */
    method SetExperienceAndFilter(level: string)
      requires Valid()
      modifies this
      ensures Valid()
      ensures dispatched == old(dispatched) + [SetExperienceFilter(level), SearchStart, SearchComplete(Pipeline(old(state).(experienceFilter := level)))]
      ensures state == old(state).(experienceFilter := level, isSearching := false,
                                   filteredCandidates := Pipeline(old(state).(experienceFilter := level)))
    {
      var snapshot := state.(experienceFilter := level);
      var stored := Dispatch(SetExperienceFilter(level));
      ApplyFilters(snapshot);
    }

    /** `setSortBy(sortBy)`: stores the criterion, then filters and sorts with it. */
    method SetSortByAndFilter(criterion: string)
      requires Valid()
      modifies this
      ensures Valid()
      ensures dispatched == old(dispatched) + [SetSortBy(criterion), SearchStart, SearchComplete(Pipeline(old(state).(sortBy := criterion)))]
      ensures state == old(state).(sortBy := criterion, isSearching := false,
                                   filteredCandidates := Pipeline(old(state).(sortBy := criterion)))
    {
      var snapshot := state.(sortBy := criterion);
      var stored := Dispatch(SetSortBy(criterion));
      ApplyFilters(snapshot);
    }

    /** `setSelectedCandidate(candidate)`. */
    method SelectCandidate(candidate: Option<Candidate>)
      requires Valid()
      modifies this
      ensures Valid()
      ensures dispatched == old(dispatched) + [SetSelectedCandidate(candidate)]
      ensures state == old(state).(selectedCandidate := candidate)
    {
      var stored := Dispatch(SetSelectedCandidate(candidate));
    }

    /** `clearFilters()`. */
    method ClearAllFilters()
      requires Valid()
      modifies this
      ensures Valid()
      ensures dispatched == old(dispatched) + [ClearFilters]
      ensures state == old(state).(searchTerm := "", locationFilter := "", experienceFilter := "",
                                   sortBy := "name", filteredCandidates := old(state).candidates)
    {
      var cleared := Dispatch(ClearFilters);
    }

    /**
     * `applyAIFilters(candidateIds, query)`: when the ids are an array, shows the candidate of
     * each id in the ids' order; anything else dispatches nothing.
     */
    method ApplyAIFilters(candidateIds: Option<seq<JsValue>>, query: Option<string>)
      requires Valid()
      modifies this
      ensures Valid()
      ensures candidateIds.None? ==> state == old(state) && dispatched == old(dispatched)
      ensures candidateIds.Some? ==>
        && dispatched == old(dispatched) + [AiFilterApply(AiSelect(candidateIds.value, old(state).candidates), query)]
        && state == old(state).(filteredCandidates := AiSelect(candidateIds.value, old(state).candidates),
                                lastAIQuery := KeepQuery(query, old(state).lastAIQuery))
    {
      if candidateIds.None? {
        return;
      }
      var shown := AiSelect(candidateIds.value, state.candidates);
      forall c | c in shown ensures c in state.candidates {
        AiSelectMembers(candidateIds.value, state.candidates, c);
      }
      var applied := Dispatch(AiFilterApply(shown, query));
    }

    /** `resetToAllCandidates()`: shows every candidate again; the last AI query is kept. */
    method ResetToAllCandidates()
      requires Valid()
      modifies this
      ensures Valid()
      ensures dispatched == old(dispatched) + [AiFilterApply(old(state).candidates, None)]
      ensures state == old(state).(filteredCandidates := old(state).candidates)
    {
      var reset := Dispatch(AiFilterApply(state.candidates, None));
    }
  }
}
