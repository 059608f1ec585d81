/** The shared state store (`StateService`): one `SearchState` record that
    named mutators replace whole, the page of encounters it serves, and its
    local-storage persistence. Every mutation also writes a sanitised copy
    of the new record to storage, because the service's own subscription
    saves each snapshot the subject emits. */
module Store {
  import opened Wrappers
  import opened Models
  import Js

  const InitialPagination: PaginationConfig := PaginationConfig(1, 10, 0)

  /** `initialState`: empty query, nothing selected, no results, page 1 of 10 items. */
  const InitialState: SearchState := SearchState("", None, [], false, None, InitialPagination)

  /** The encounters, error flag and loading flag all untouched. */
  predicate SameResults(a: SearchState, b: SearchState) {
    && a.selectedPokemon == b.selectedPokemon
    && a.encounters == b.encounters
    && a.isLoading == b.isLoading
    && a.pagination == b.pagination
  }

  /** `setSearchQuery`: records the query and clears any error. */
  function SetSearchQuery(s: SearchState, query: string): (r: SearchState)
    ensures r.query == query && r.error == None
    ensures SameResults(r, s)
  {
    s.(query := query, error := None)
  }

  /** `setSelectedPokemon`: a new selection discards the previous results
      and returns to page 1, keeping the page size, query and loading flag. */
  function SetSelectedPokemon(s: SearchState, pokemon: string): (r: SearchState)
    ensures r.selectedPokemon == Some(pokemon)
    ensures r.encounters == [] && r.error == None
    ensures r.pagination.currentPage == 1 && r.pagination.totalItems == 0
    ensures r.pagination.itemsPerPage == s.pagination.itemsPerPage
    ensures r.query == s.query && r.isLoading == s.isLoading
  {
    s.(selectedPokemon := Some(pokemon), encounters := [], error := None,
       pagination := s.pagination.(currentPage := 1, totalItems := 0))
  }

  /** `setLoading`: starting a load clears the error; ending one keeps it. */
  function SetLoading(s: SearchState, isLoading: bool): (r: SearchState)
    ensures r.isLoading == isLoading
    ensures isLoading ==> r.error == None
    ensures !isLoading ==> r.error == s.error
    ensures r.query == s.query && r.selectedPokemon == s.selectedPokemon
    ensures r.encounters == s.encounters && r.pagination == s.pagination
  {
    s.(isLoading := isLoading, error := if isLoading then None else s.error)
  }

  /** `setEncounters`: installs a result list and shows its first page. */
  function SetEncounters(s: SearchState, encounters: seq<EncounterLocation>): (r: SearchState)
    ensures r.encounters == encounters
    ensures r.pagination.totalItems == |encounters| && r.pagination.currentPage == 1
    ensures r.pagination.itemsPerPage == s.pagination.itemsPerPage
    ensures !r.isLoading && r.error == None
    ensures r.query == s.query && r.selectedPokemon == s.selectedPokemon
  {
    s.(encounters := encounters, isLoading := false, error := None,
       pagination := s.pagination.(currentPage := 1, totalItems := |encounters|))
  }

  /** `setError`: records the message and ends loading, nothing else. */
  function SetError(s: SearchState, error: string): (r: SearchState)
    ensures r.error == Some(error) && !r.isLoading
    ensures r.query == s.query && r.selectedPokemon == s.selectedPokemon
    ensures r.encounters == s.encounters && r.pagination == s.pagination
  {
    s.(error := Some(error), isLoading := false)
  }

  /** The spread `{ ...config, ...patch }`: fields present in the patch win. */
  function MergePagination(config: PaginationConfig, patch: PaginationPatch): (r: PaginationConfig)
    ensures patch.currentPage.Some? ==> r.currentPage == patch.currentPage.value
    ensures patch.currentPage.None? ==> r.currentPage == config.currentPage
    ensures patch.itemsPerPage.Some? ==> r.itemsPerPage == patch.itemsPerPage.value
    ensures patch.itemsPerPage.None? ==> r.itemsPerPage == config.itemsPerPage
    ensures patch.totalItems.Some? ==> r.totalItems == patch.totalItems.value
    ensures patch.totalItems.None? ==> r.totalItems == config.totalItems
  {
    PaginationConfig(
      patch.currentPage.GetOr(config.currentPage),
      patch.itemsPerPage.GetOr(config.itemsPerPage),
      patch.totalItems.GetOr(config.totalItems))
  }

  /** `setPagination`: shallow-merges a partial pagination record. */
  function SetPagination(s: SearchState, patch: PaginationPatch): (r: SearchState)
    ensures r.pagination == MergePagination(s.pagination, patch)
    ensures r.query == s.query && r.selectedPokemon == s.selectedPokemon
    ensures r.encounters == s.encounters && r.isLoading == s.isLoading && r.error == s.error
  {
    s.(pagination := MergePagination(s.pagination, patch))
  }

  /** `clearResults`: like a reset, but the query and page size survive. */
  function ClearResults(s: SearchState): (r: SearchState)
    ensures r.query == s.query
    ensures r.pagination.itemsPerPage == s.pagination.itemsPerPage
    ensures r.(query := InitialState.query,
               pagination := r.pagination.(itemsPerPage := InitialPagination.itemsPerPage))
            == InitialState
  {
    s.(selectedPokemon := None, encounters := [], error := None, isLoading := false,
       pagination := s.pagination.(currentPage := 1, totalItems := 0))
  }

  /** The first index of page `currentPage` (1-based pages). */
  function PageStart(config: PaginationConfig): int {
    (config.currentPage - 1) * config.itemsPerPage
  }

  /** The items `getPaginatedEncounters` serves for a pagination config:
      `items.slice(start, start + itemsPerPage)`. For a page of at least 1 and a
      non-negative page size that is the run from the page's first index,
      clipped to the list, of at most `itemsPerPage` items. */
  function PageOf<T>(items: seq<T>, config: PaginationConfig): (r: seq<T>)
    ensures config.currentPage >= 1 && config.itemsPerPage >= 0 ==>
      PageRun(items, PageStart(config), config.itemsPerPage, r)
  {
    var start := PageStart(config);
    StartNonNegative(config);
    Js.Slice(items, start, start + config.itemsPerPage)
  }

  /** `r` is the run of at most `size` items of `items` from index `start`. */
  ghost predicate PageRun<T>(items: seq<T>, start: int, size: int, r: seq<T>) {
    && 0 <= start
    && |r| == Js.Min(size, Js.Max(0, |items| - start))
    && r == items[Js.Min(start, |items|)..Js.Min(start + size, |items|)]
  }

  lemma StartNonNegative(config: PaginationConfig)
    ensures config.currentPage >= 1 && config.itemsPerPage >= 0 ==> PageStart(config) >= 0
  {
  }

  /** `getPaginatedEncounters`. */
  function GetPaginatedEncounters(s: SearchState): (r: seq<EncounterLocation>)
    ensures |r| <= |s.encounters|
    ensures forall e :: e in r ==> e in s.encounters
  {
    var r := PageOf(s.encounters, s.pagination);
    assert forall e :: e in r ==> e in s.encounters;
    r
  }

  /** Pages `1..count` of `items` laid end to end. */
  function Pages<T>(items: seq<T>, itemsPerPage: int, count: nat): seq<T> {
    if count == 0 then [] else Pages(items, itemsPerPage, count - 1) + PageOf(items, PaginationConfig(count, itemsPerPage, |items|))
  }

  /** The first `count` pages together are the list's first `count * itemsPerPage` items. */
  lemma {:induction false} PagesArePrefix<T>(items: seq<T>, itemsPerPage: int, count: nat)
    requires itemsPerPage >= 1
    ensures Pages(items, itemsPerPage, count) == items[..Js.Min(count * itemsPerPage, |items|)]
  {
    if count > 0 {
      PagesArePrefix(items, itemsPerPage, count - 1);
      var lo := Js.Min((count - 1) * itemsPerPage, |items|);
      var hi := Js.Min(count * itemsPerPage, |items|);
      PageIsNextRun(items, itemsPerPage, count);
      assert items[..lo] + items[lo..hi] == items[..hi];
    }
  }

  /** Page `count` is the run between the ends of pages `count - 1` and `count`. */
  lemma PageIsNextRun<T>(items: seq<T>, itemsPerPage: int, count: nat)
    requires itemsPerPage >= 1 && count >= 1
    ensures Js.Min((count - 1) * itemsPerPage, |items|) <= Js.Min(count * itemsPerPage, |items|)
    ensures PageOf(items, PaginationConfig(count, itemsPerPage, |items|))
            == items[Js.Min((count - 1) * itemsPerPage, |items|)..Js.Min(count * itemsPerPage, |items|)]
  {
    var c := PaginationConfig(count, itemsPerPage, |items|);
    assert PageStart(c) + itemsPerPage == count * itemsPerPage;
  }

  /** Concatenating pages `1..ceil(n / itemsPerPage)` reconstructs the list:
      every encounter appears on exactly one page, in order. */
  lemma PagesReconstructList<T>(items: seq<T>, itemsPerPage: int)
    requires itemsPerPage >= 1
    ensures Pages(items, itemsPerPage, Js.CeilDiv(|items|, itemsPerPage)) == items
  {
    var n := Js.CeilDiv(|items|, itemsPerPage);
    PagesArePrefix(items, itemsPerPage, n);
  }

  /** The shape of a parsed local-storage entry: `JSON.parse` may yield any
      subset of the record's fields. */
  datatype PersistedState = PersistedState(
    query: Option<string>,
    selectedPokemon: Option<Option<string>>,
    encounters: Option<seq<EncounterLocation>>,
    isLoading: Option<bool>,
    error: Option<Option<string>>,
    pagination: Option<PaginationConfig>)

  /** What `localStorage.getItem` finds under the state key when it finds
      something: the empty string, text `JSON.parse` rejects, or a parsed record. */
  datatype StorageEntry = EmptyText | Unparseable | Parsed(record: PersistedState)

  /** The service: its current snapshot and the storage slot it owns. */
  datatype StoreState = StoreState(state: SearchState, storage: Option<StorageEntry>)

  /** The copy `saveStateToStorage` writes: never loading, never an error. */
  function Sanitize(s: SearchState): (r: SearchState)
    ensures !r.isLoading && r.error == None
    ensures r.query == s.query && r.selectedPokemon == s.selectedPokemon
    ensures r.encounters == s.encounters && r.pagination == s.pagination
  {
    s.(isLoading := false, error := None)
  }

  /** Every field of a record, as it reads back after a JSON round trip. */
  function AsPersisted(s: SearchState): PersistedState {
    PersistedState(Some(s.query), Some(s.selectedPokemon), Some(s.encounters),
                   Some(s.isLoading), Some(s.error), Some(s.pagination))
  }

  /** The storage entry `saveStateToStorage` leaves behind. */
  function Snapshot(s: SearchState): (e: StorageEntry)
    ensures e.Parsed?
    ensures e.record.isLoading == Some(false) && e.record.error == Some(None)
  {
    Parsed(AsPersisted(Sanitize(s)))
  }

  /** `{ ...initialState, ...parsed, isLoading: false, error: null }`: fields
      present in storage override the defaults, loading and error never survive. */
  function MergeOverInitial(p: PersistedState): (r: SearchState)
    ensures !r.isLoading && r.error == None
    ensures r.query == p.query.GetOr(InitialState.query)
    ensures r.selectedPokemon == p.selectedPokemon.GetOr(InitialState.selectedPokemon)
    ensures r.encounters == p.encounters.GetOr(InitialState.encounters)
    ensures r.pagination == p.pagination.GetOr(InitialState.pagination)
  {
    SearchState(
      p.query.GetOr(InitialState.query),
      p.selectedPokemon.GetOr(InitialState.selectedPokemon),
      p.encounters.GetOr(InitialState.encounters),
      false,
      None,
      p.pagination.GetOr(InitialState.pagination))
  }

  /** `loadStateFromStorage`: the starting record and what is left in the
      storage slot. A missing or empty entry gives the defaults; an entry
      that does not parse gives the defaults and is removed. */
  function LoadState(storage: Option<StorageEntry>): (r: (SearchState, Option<StorageEntry>))
    ensures !r.0.isLoading && r.0.error == None
    ensures storage.Some? && storage.value.Parsed? ==> r.0 == MergeOverInitial(storage.value.record)
    ensures !(storage.Some? && storage.value.Parsed?) ==> r.0 == InitialState
    ensures r.1 == if storage == Some(Unparseable) then None else storage
  {
    match storage
    case None => (InitialState, storage)
    case Some(EmptyText) => (InitialState, storage)
    case Some(Unparseable) => (InitialState, None)
    case Some(Parsed(p)) => (MergeOverInitial(p), storage)
  }

  /** Constructing the service: load, then the constructor's subscription
      immediately saves the replayed first snapshot. */
  function Create(storage: Option<StorageEntry>): (r: StoreState)
    ensures r.state == LoadState(storage).0
    ensures r.storage == Some(Snapshot(r.state))
  {
    var s := LoadState(storage).0;
    StoreState(s, Some(Snapshot(s)))
  }

  /** The named mutators of the service. */
  datatype Action =
    | SetSearchQueryAction(query: string)
    | SetSelectedPokemonAction(pokemon: string)
    | SetLoadingAction(isLoading: bool)
    | SetEncountersAction(encounters: seq<EncounterLocation>)
    | SetErrorAction(message: string)
    | SetPaginationAction(patch: PaginationPatch)
    | ClearStateAction
    | ClearResultsAction

  /** The record an action produces from the current one. */
  function Next(s: SearchState, a: Action): SearchState {
    match a
    case SetSearchQueryAction(q) => SetSearchQuery(s, q)
    case SetSelectedPokemonAction(p) => SetSelectedPokemon(s, p)
    case SetLoadingAction(b) => SetLoading(s, b)
    case SetEncountersAction(l) => SetEncounters(s, l)
    case SetErrorAction(m) => SetError(s, m)
    case SetPaginationAction(patch) => SetPagination(s, patch)
    case ClearStateAction => InitialState
    case ClearResultsAction => ClearResults(s)
  }

  /** One mutator call: the subject emits the new record, the subscription
      saves it, and `clearState` then removes the saved entry. */
  function Dispatch(st: StoreState, a: Action): (r: StoreState)
    ensures r.state == Next(st.state, a)
    ensures a == ClearStateAction ==> r.storage == None
    ensures a != ClearStateAction ==> r.storage == Some(Snapshot(r.state))
  {
    var s := Next(st.state, a);
    if a == ClearStateAction then StoreState(s, None) else StoreState(s, Some(Snapshot(s)))
  }

  /** Reloading a saved snapshot gives back the record with the loading flag
      and error cleared. */
  lemma LoadSnapshot(s: SearchState)
    ensures LoadState(Some(Snapshot(s))).0 == Sanitize(s)
    ensures LoadState(Some(Snapshot(s))).1 == Some(Snapshot(s))
  {
  }

  /** After any mutator, a page reload starts from the sanitised current
      record; after `clearState` it starts from the defaults. */
  lemma ReloadAfterDispatch(st: StoreState, a: Action)
    ensures a != ClearStateAction ==> Create(Dispatch(st, a).storage).state == Sanitize(Dispatch(st, a).state)
    ensures a == ClearStateAction ==> Create(Dispatch(st, a).storage).state == InitialState
  {
    if a != ClearStateAction {
      LoadSnapshot(Dispatch(st, a).state);
    }
  }

  /** Reloading the page twice in a row starts from the same record. */
  lemma CreateIdempotent(storage: Option<StorageEntry>)
    ensures Create(Create(storage).storage).state == Create(storage).state
  {
    var s := Create(storage).state;
    LoadSnapshot(s);
    assert Sanitize(s) == s;
  }

  /** A corrupt entry is dropped and never read again. */
  lemma CorruptEntryDropped()
    ensures LoadState(Some(Unparseable)) == (InitialState, None)
    ensures Create(Some(Unparseable)).state == InitialState
  {
  }
}
