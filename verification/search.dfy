/** The search box (`SearchComponent`): the text it holds, the suggestion
    list with its keyboard selection, the submit guard, and the store and
    gateway calls a search makes.

    The component is modelled together with the services it talks to: the
    store and the gateway caches are part of the session. Each gateway call
    receives the upstream response as a parameter. The debounced suggestion
    lookup is its own step, `Lookup`, taken whenever the debounce timer lets
    a query through. */
module Search {
  import opened Wrappers
  import opened Models
  import opened Text
  import Js
  import Store
  import Gateway

  datatype Key = ArrowDown | ArrowUp | Enter | Escape | OtherKey

  /** The component's own fields. */
  datatype SearchView = SearchView(
    searchQuery: string,
    suggestions: seq<Pokemon>,
    selectedIndex: int,
    showSuggestions: bool,
    isSearching: bool,
    errorMessage: string,
    hasError: bool)

  /** The component, the store it writes to, the gateway caches, and whether
      the subscription that delivers suggestions is still open. */
  datatype Session = Session(
    view: SearchView,
    store: Store.StoreState,
    caches: Gateway.Caches,
    lookupsOpen: bool)

  const SuggestionLimit: nat := 8
  const EmptyQueryMessage: string := "Please enter a Pokemon name to search."
  const LookupFailedMessage: string := "Failed to search Pokemon. Please try again."

  /** The example buttons under the box. */
  const PopularPokemon: seq<string> := ["pikachu", "charizard", "bulbasaur", "squirtle", "mewtwo", "mew"]

  const InitialView: SearchView := SearchView("", [], -1, false, false, "", false)

  /** The highlighted suggestion is one of the list, or none (-1). */
  predicate SelectionInRange(v: SearchView) {
    -1 <= v.selectedIndex < |v.suggestions|
  }

  /** The private `setError`. */
  function ShowError(v: SearchView, message: string): (r: SearchView)
    ensures r.hasError && r.errorMessage == message
    ensures r.(hasError := v.hasError, errorMessage := v.errorMessage) == v
  {
    v.(errorMessage := message, hasError := true)
  }

  /** The private `clearError`. */
  function ClearError(v: SearchView): (r: SearchView)
    ensures !r.hasError && r.errorMessage == ""
    ensures r.(hasError := v.hasError, errorMessage := v.errorMessage) == v
  {
    v.(errorMessage := "", hasError := false)
  }

  /** The store subscription of `ngOnInit`: a non-empty stored query that
      differs from the box's text replaces it. */
  function SyncQuery(v: SearchView, s: SearchState): (r: SearchView)
    ensures s.query != "" ==> r.searchQuery == s.query
    ensures s.query == "" ==> r == v
    ensures r.(searchQuery := v.searchQuery) == v
  {
    if s.query != "" && s.query != v.searchQuery then v.(searchQuery := s.query) else v
  }

  /** One store call: the store moves on and emits, and the subscription
      above sees the new record. */
  function Call(sess: Session, a: Store.Action): (r: Session)
    ensures r.view.(searchQuery := sess.view.searchQuery) == sess.view
    ensures r.caches == sess.caches && r.lookupsOpen == sess.lookupsOpen
  {
    var st := Store.Dispatch(sess.store, a);
    sess.(store := st, view := SyncQuery(sess.view, st.state))
  }

  /** `ngOnInit` over the store as it is: the store replays its record at once. */
  function Open(store: Store.StoreState, caches: Gateway.Caches): (r: Session)
    ensures SelectionInRange(r.view) && r.lookupsOpen
    ensures r.store == store && r.caches == caches
    ensures store.state.query != "" ==> r.view.searchQuery == store.state.query
  {
    Session(SyncQuery(InitialView, store.state), store, caches, true)
  }

  /** `searchQuery.trim().toLowerCase()`, the name a search is made for. */
  function SearchTarget(query: string): (t: string)
    ensures t == [] <==> IsBlank(query)
  {
    Lower(Trim(query))
  }

  /** The box and the gateway normalise a name alike, and a search target is
      already normalised: the store's selection is the gateway's cache key. */
  lemma SearchTargetIsCacheKey(query: string)
    ensures Gateway.NormalizeName(query) == SearchTarget(query)
    ensures Gateway.NormalizeName(SearchTarget(query)) == SearchTarget(query)
  {
    TrimLowerCommute(query);
    var t := SearchTarget(query);
    assert t == Trim(Lower(query));
    LowerIdempotent(Trim(query));
    assert Lower(t) == t;
    TrimIdempotent(Lower(query));
    assert Trim(t) == t;
  }

  /** The synchronous part of `performSearch` for a non-blank target: clear
      the error, select the creature, start loading. */
  function BeginSearch(sess: Session, target: string): (r: Session)
    ensures r.view.suggestions == sess.view.suggestions && r.view.selectedIndex == sess.view.selectedIndex
    ensures r.view.showSuggestions == sess.view.showSuggestions && r.lookupsOpen == sess.lookupsOpen
    ensures r.caches == sess.caches && !r.view.hasError
    ensures r.store.state.query == sess.store.state.query
    ensures r.store.state.selectedPokemon == Some(target)
  {
    var s := sess.(view := ClearError(sess.view));
    Call(Call(s, Store.SetSelectedPokemonAction(target)), Store.SetLoadingAction(true))
  }

  /** The subscription of `performSearch`: the gateway's answer for `target`
      goes to the store; a failure's message is also shown in the box.
      Navigating to the results page is not part of this model. */
  function FinishSearch(sess: Session, target: string,
                        response: Result<seq<EncounterLocation>, Gateway.HttpFailure>): (r: Session)
    ensures r.view.suggestions == sess.view.suggestions && r.view.selectedIndex == sess.view.selectedIndex
    ensures r.view.showSuggestions == sess.view.showSuggestions && r.lookupsOpen == sess.lookupsOpen
    ensures r.store.state.query == sess.store.state.query
    ensures r.store.state.selectedPokemon == sess.store.state.selectedPokemon
  {
    var call := Gateway.GetPokemonEncounters(sess.caches, target, response);
    var s := sess.(caches := call.caches);
    match call.result
    case Success(found) => StoreEncounters(s, found.encounters)
    case Failure(message) => StoreFailure(s, message)
  }

  /** The success callback: the encounters go to the store. */
  function StoreEncounters(sess: Session, encounters: seq<EncounterLocation>): (r: Session)
    ensures r.store.state == Store.SetEncounters(sess.store.state, encounters)
    ensures r.view.(searchQuery := sess.view.searchQuery) == sess.view
    ensures r.caches == sess.caches && r.lookupsOpen == sess.lookupsOpen
  {
    Call(sess, Store.SetEncountersAction(encounters))
  }

  /** The error callback: the message goes to the store and to the box. */
  function StoreFailure(sess: Session, message: string): (r: Session)
    ensures r.store.state == Store.SetError(sess.store.state, message)
    ensures r.view.hasError && r.view.errorMessage == message
    ensures r.view.(searchQuery := sess.view.searchQuery, hasError := sess.view.hasError,
                    errorMessage := sess.view.errorMessage) == sess.view
    ensures r.caches == sess.caches && r.lookupsOpen == sess.lookupsOpen
  {
    var t := Call(sess, Store.SetErrorAction(message));
    t.(view := ShowError(t.view, message))
  }

  /** `performSearch`: a blank query only shows an error; otherwise the
      search is begun and finished with the gateway's answer. */
  function PerformSearch(sess: Session, response: Result<seq<EncounterLocation>, Gateway.HttpFailure>): (r: Session)
    ensures IsBlank(sess.view.searchQuery) ==>
      r == sess.(view := ShowError(sess.view, EmptyQueryMessage))
    ensures r.view.suggestions == sess.view.suggestions
    ensures r.view.selectedIndex == sess.view.selectedIndex
    ensures r.view.showSuggestions == sess.view.showSuggestions
    ensures r.lookupsOpen == sess.lookupsOpen
    ensures r.store.state.query == sess.store.state.query
    ensures !IsBlank(sess.view.searchQuery) ==>
      r.store.state.selectedPokemon == Some(SearchTarget(sess.view.searchQuery))
  {
    var target := SearchTarget(sess.view.searchQuery);
    if target == [] then sess.(view := ShowError(sess.view, EmptyQueryMessage))
    else FinishSearch(BeginSearch(sess, target), target, response)
  }

  /** Starting a search leaves the store showing a fresh, loading, error-free
      selection of the normalised name on page 1, with the query and page
      size kept. */
  lemma SearchStartsLoading(sess: Session)
    requires !IsBlank(sess.view.searchQuery)
    ensures var target := SearchTarget(sess.view.searchQuery);
            var s := BeginSearch(sess, target).store.state;
            && s.selectedPokemon == Some(target)
            && s.encounters == [] && s.isLoading && s.error == None
            && s.pagination.currentPage == 1 && s.pagination.totalItems == 0
            && s.pagination.itemsPerPage == sess.store.state.pagination.itemsPerPage
            && s.query == sess.store.state.query
    ensures BeginSearch(sess, SearchTarget(sess.view.searchQuery)).caches == sess.caches
  {
  }

  /** How a search ends: the gateway was asked for the normalised name; on an
      answer the store holds its encounters from page 1 and stops loading; on
      a failure the store and the box both hold the gateway's message. */
  lemma SearchOutcome(sess: Session, response: Result<seq<EncounterLocation>, Gateway.HttpFailure>)
    requires !IsBlank(sess.view.searchQuery)
    ensures var target := SearchTarget(sess.view.searchQuery);
            var call := Gateway.GetPokemonEncounters(sess.caches, target, response);
            var r := PerformSearch(sess, response);
            && r.caches == call.caches
            && r.store.state.selectedPokemon == Some(target)
            && !r.store.state.isLoading
            && r.store.storage == Some(Store.Snapshot(r.store.state))
            && (call.result.Success? ==>
                  && r.store.state.encounters == call.result.value.encounters
                  && r.store.state.error == None
                  && r.store.state.pagination.currentPage == 1
                  && r.store.state.pagination.totalItems == |call.result.value.encounters|
                  && !r.view.hasError)
            && (call.result.Failure? ==>
                  && r.store.state.encounters == []
                  && r.store.state.error == Some(call.result.error)
                  && r.view.hasError && r.view.errorMessage == call.result.error)
  {
    var target := SearchTarget(sess.view.searchQuery);
    var b := BeginSearch(sess, target);
    SearchStartsLoading(sess);
    FinishSearchOutcome(b, target, response);
    assert PerformSearch(sess, response) == FinishSearch(b, target, response);
  }

  /** The asynchronous half of a search, from any session. */
  lemma FinishSearchOutcome(b: Session, target: string, response: Result<seq<EncounterLocation>, Gateway.HttpFailure>)
    ensures var call := Gateway.GetPokemonEncounters(b.caches, target, response);
            var r := FinishSearch(b, target, response);
            && r.caches == call.caches
            && r.store.state.selectedPokemon == b.store.state.selectedPokemon
            && !r.store.state.isLoading
            && r.store.storage == Some(Store.Snapshot(r.store.state))
            && (call.result.Success? ==>
                  && r.store.state.encounters == call.result.value.encounters
                  && r.store.state.error == None
                  && r.store.state.pagination.currentPage == 1
                  && r.store.state.pagination.totalItems == |call.result.value.encounters|
                  && r.view.hasError == b.view.hasError)
            && (call.result.Failure? ==>
                  && r.store.state.encounters == b.store.state.encounters
                  && r.store.state.error == Some(call.result.error)
                  && r.view.hasError && r.view.errorMessage == call.result.error)
  {
    var call := Gateway.GetPokemonEncounters(b.caches, target, response);
    if call.result.Success? {
      FinishSearchSucceeds(b, target, response);
    } else {
      FinishSearchFails(b, target, response);
    }
  }

  /** A search the gateway answers puts the answer in the store. */
  lemma FinishSearchSucceeds(b: Session, target: string, response: Result<seq<EncounterLocation>, Gateway.HttpFailure>)
    requires Gateway.GetPokemonEncounters(b.caches, target, response).result.Success?
    ensures var call := Gateway.GetPokemonEncounters(b.caches, target, response);
            var r := FinishSearch(b, target, response);
            && r.caches == call.caches
            && r.store.state.selectedPokemon == b.store.state.selectedPokemon
            && !r.store.state.isLoading
            && r.store.storage == Some(Store.Snapshot(r.store.state))
            && r.store.state.encounters == call.result.value.encounters
            && r.store.state.error == None
            && r.store.state.pagination.currentPage == 1
            && r.store.state.pagination.totalItems == |call.result.value.encounters|
            && r.view.hasError == b.view.hasError
  {
    var call := Gateway.GetPokemonEncounters(b.caches, target, response);
    var s := b.(caches := call.caches);
    var a := Store.SetEncountersAction(call.result.value.encounters);
    assert FinishSearch(b, target, response) == Call(s, a);
    assert Store.Dispatch(s.store, a).state == Store.SetEncounters(b.store.state, call.result.value.encounters);
  }

  /** A search the gateway fails puts the message in the store and the box. */
  lemma FinishSearchFails(b: Session, target: string, response: Result<seq<EncounterLocation>, Gateway.HttpFailure>)
    requires Gateway.GetPokemonEncounters(b.caches, target, response).result.Failure?
    ensures var call := Gateway.GetPokemonEncounters(b.caches, target, response);
            var r := FinishSearch(b, target, response);
            && r.caches == call.caches
            && r.store.state.selectedPokemon == b.store.state.selectedPokemon
            && !r.store.state.isLoading
            && r.store.storage == Some(Store.Snapshot(r.store.state))
            && r.store.state.encounters == b.store.state.encounters
            && r.store.state.error == Some(call.result.error)
            && r.view.hasError && r.view.errorMessage == call.result.error
  {
    var call := Gateway.GetPokemonEncounters(b.caches, target, response);
    var s := b.(caches := call.caches);
    var a := Store.SetErrorAction(call.result.error);
    var t := Call(s, a);
    assert FinishSearch(b, target, response) == t.(view := ShowError(t.view, call.result.error));
    assert t.store.state == Store.SetError(b.store.state, call.result.error);
  }

  /** Searching again for the same name, in any spelling that normalises
      alike, makes no request and gives the store the same encounters. */
  lemma RepeatSearchIsCached(sess: Session, again: string,
                             response: Result<seq<EncounterLocation>, Gateway.HttpFailure>,
                             later: Result<seq<EncounterLocation>, Gateway.HttpFailure>)
    requires !IsBlank(sess.view.searchQuery)
    requires SearchTarget(again) == SearchTarget(sess.view.searchQuery)
    requires Gateway.GetPokemonEncounters(sess.caches, SearchTarget(sess.view.searchQuery), response).result.Success?
    ensures var first := PerformSearch(sess, response);
            var second := PerformSearch(first.(view := first.view.(searchQuery := again)), later);
            && second.caches == first.caches
            && second.store.state.encounters == first.store.state.encounters
  {
    var target := SearchTarget(sess.view.searchQuery);
    SearchTargetIsCacheKey(sess.view.searchQuery);
    var call := Gateway.GetPokemonEncounters(sess.caches, target, response);
    SearchOutcome(sess, response);
    var first := PerformSearch(sess, response);
    var next := first.(view := first.view.(searchQuery := again));
    Gateway.EncountersCachedAfterSuccess(sess.caches, target, target, response, later);
    SearchStartsLoading(next);
    var b := BeginSearch(next, target);
    FinishSearchOutcome(b, target, later);
    assert PerformSearch(next, later) == FinishSearch(b, target, later);
  }

  /** `selectPokemon`: the suggestion's name goes into the box and the store,
      the list closes, and the search runs. */
  function SelectPokemon(sess: Session, p: Pokemon, response: Result<seq<EncounterLocation>, Gateway.HttpFailure>): (r: Session)
    ensures SelectionInRange(r.view)
    ensures !r.view.showSuggestions && r.view.selectedIndex == -1
    ensures r.lookupsOpen == sess.lookupsOpen
    ensures r.store.state.query == p.name
    ensures !IsBlank(p.name) ==> r.store.state.selectedPokemon == Some(SearchTarget(p.name))
  {
    var s := sess.(view := sess.view.(searchQuery := p.name));
    var t := Call(s, Store.SetSearchQueryAction(p.name));
    PerformSearch(t.(view := t.view.(showSuggestions := false, selectedIndex := -1)), response)
  }

  /** `selectExample`: like typing the name and pressing Enter. */
  function SelectExample(sess: Session, name: string, response: Result<seq<EncounterLocation>, Gateway.HttpFailure>): (r: Session)
    ensures r.view.suggestions == sess.view.suggestions
    ensures r.view.selectedIndex == sess.view.selectedIndex
    ensures r.lookupsOpen == sess.lookupsOpen
    ensures r.store.state.query == name
    ensures !IsBlank(name) ==> r.store.state.selectedPokemon == Some(SearchTarget(name))
  {
    var s := sess.(view := sess.view.(searchQuery := name));
    PerformSearch(Call(s, Store.SetSearchQueryAction(name)), response)
  }

  /** Every example button names a creature, so it always starts a search. */
  lemma ExamplesAreNeverBlank(i: int)
    requires 0 <= i < |PopularPokemon|
    ensures !IsBlank(PopularPokemon[i])
    ensures SearchTarget(PopularPokemon[i]) == PopularPokemon[i]
  {
    var name := PopularPokemon[i];
    assert name in PopularPokemon;
    LowerWordUnchanged(name);
  }

  /** `onKeyDown`. With the list hidden or empty only Enter acts, and searches;
      otherwise the arrows move the highlight within the list, Enter picks the
      highlighted suggestion or searches, Escape closes the list. Blurring
      the input element is not part of this model. */
  function OnKeyDown(sess: Session, key: Key, response: Result<seq<EncounterLocation>, Gateway.HttpFailure>): (r: Session)
    requires SelectionInRange(sess.view)
    ensures SelectionInRange(r.view)
    ensures r.lookupsOpen == sess.lookupsOpen
    ensures (!sess.view.showSuggestions || |sess.view.suggestions| == 0) ==>
      r == if key == Enter then PerformSearch(sess, response) else sess
    ensures sess.view.showSuggestions && |sess.view.suggestions| > 0 ==>
      && (key == ArrowDown ==> r == sess.(view := sess.view.(selectedIndex := Js.Min(sess.view.selectedIndex + 1, |sess.view.suggestions| - 1))))
      && (key == ArrowUp ==> r == sess.(view := sess.view.(selectedIndex := Js.Max(sess.view.selectedIndex - 1, -1))))
      && (key == Escape ==> r == sess.(view := sess.view.(showSuggestions := false, selectedIndex := -1)))
      && (key == Enter && sess.view.selectedIndex >= 0 ==>
            r == SelectPokemon(sess, sess.view.suggestions[sess.view.selectedIndex], response))
      && (key == Enter && sess.view.selectedIndex < 0 ==> r == PerformSearch(sess, response))
      && (key == OtherKey ==> r == sess)
  {
    var v := sess.view;
    if !v.showSuggestions || |v.suggestions| == 0 then
      if key == Enter then PerformSearch(sess, response) else sess
    else
      match key
      case ArrowDown => sess.(view := v.(selectedIndex := Js.Min(v.selectedIndex + 1, |v.suggestions| - 1)))
      case ArrowUp => sess.(view := v.(selectedIndex := Js.Max(v.selectedIndex - 1, -1)))
      case Enter =>
        if v.selectedIndex >= 0 then SelectPokemon(sess, v.suggestions[v.selectedIndex], response)
        else PerformSearch(sess, response)
      case Escape => sess.(view := v.(showSuggestions := false, selectedIndex := -1))
      case OtherKey => sess
  }

  /** The arrows never leave the list: from any highlight, enough presses of
      ArrowDown reach the last suggestion and stay there, and ArrowUp
      likewise reaches -1 (no highlight). */
  lemma ArrowsSaturate(sess: Session, response: Result<seq<EncounterLocation>, Gateway.HttpFailure>)
    requires SelectionInRange(sess.view)
    requires sess.view.showSuggestions && |sess.view.suggestions| > 0
    ensures sess.view.selectedIndex == |sess.view.suggestions| - 1 ==> OnKeyDown(sess, ArrowDown, response) == sess
    ensures sess.view.selectedIndex == -1 ==> OnKeyDown(sess, ArrowUp, response) == sess
    ensures sess.view.selectedIndex < |sess.view.suggestions| - 1 ==>
      OnKeyDown(sess, ArrowDown, response).view.selectedIndex == sess.view.selectedIndex + 1
    ensures sess.view.selectedIndex > -1 ==>
      OnKeyDown(sess, ArrowUp, response).view.selectedIndex == sess.view.selectedIndex - 1
  {
  }

  /** `onSearchInput` after the box's text has become `text`: the query goes
      to the store, the list opens and the error clears. The lookup it
      schedules is `Lookup`. */
  function OnSearchInput(sess: Session, text: string): (r: Session)
    ensures r.view.searchQuery == text && r.store.state.query == text
    ensures r.view.showSuggestions && !r.view.hasError
    ensures r.view.suggestions == sess.view.suggestions && r.view.selectedIndex == sess.view.selectedIndex
    ensures r.caches == sess.caches && r.lookupsOpen == sess.lookupsOpen
  {
    var s := sess.(view := sess.view.(searchQuery := text));
    var t := Call(s, Store.SetSearchQueryAction(text));
    t.(view := ClearError(t.view.(showSuggestions := true)))
  }

  /** `onInputFocus`: the list reopens only when it has something to show. */
  function OnInputFocus(sess: Session): (r: Session)
    ensures r.view.showSuggestions <==> sess.view.showSuggestions || |sess.view.suggestions| > 0
    ensures r.view.(showSuggestions := sess.view.showSuggestions) == sess.view
    ensures r.(view := sess.view) == sess
  {
    if |sess.view.suggestions| > 0 then sess.(view := sess.view.(showSuggestions := true)) else sess
  }

  /** The template's `(mouseenter)` on suggestion row `i`: the row under the
      pointer becomes the highlight. The row index comes from the `*ngFor`
      over the list, so it is an index of the list. */
  function OnSuggestionHover(sess: Session, i: int): (r: Session)
    requires 0 <= i < |sess.view.suggestions|
    ensures SelectionInRange(r.view) && r.view.selectedIndex == i
    ensures r.view.(selectedIndex := sess.view.selectedIndex) == sess.view
    ensures r.(view := sess.view) == sess
  {
    sess.(view := sess.view.(selectedIndex := i))
  }

  /** `onInputBlur` once its 200 ms timer has fired: the list closes and the
      highlight goes. */
  function OnInputBlur(sess: Session): (r: Session)
    ensures !r.view.showSuggestions && r.view.selectedIndex == -1
    ensures r.view.(showSuggestions := sess.view.showSuggestions, selectedIndex := sess.view.selectedIndex) == sess.view
    ensures r.(view := sess.view) == sess
  {
    sess.(view := sess.view.(showSuggestions := false, selectedIndex := -1))
  }

  /** One query reaching the suggestion subscription. A closed subscription
      ignores it. A blank query gives no suggestions without asking the
      gateway; otherwise the gateway's first `SuggestionLimit` matches are
      shown. A failure shows `LookupFailedMessage`; `closeOnError` says
      whether it also ends the subscription. */
  function LookupWith(sess: Session, query: string, listResponse: Result<PokemonListResponse, Gateway.HttpFailure>,
                      order: (string, string) -> bool, closeOnError: bool): (r: Session)
    requires Gateway.TotalPreorder(order)
    ensures !sess.lookupsOpen ==> r == sess
    ensures r.store == sess.store && r.view.searchQuery == sess.view.searchQuery
    ensures SelectionInRange(sess.view) ==> SelectionInRange(r.view)
  {
    var v := sess.view;
    if !sess.lookupsOpen then sess
    else if IsBlank(query) then
      sess.(view := ClearError(v.(suggestions := [], isSearching := false, selectedIndex := -1)))
    else
      var call := Gateway.SearchPokemon(sess.caches, listResponse, order, query, SuggestionLimit);
      var s := sess.(caches := call.caches);
      match call.result
      case Success(found) =>
        s.(view := ClearError(v.(suggestions := found, isSearching := false, selectedIndex := -1)))
      case Failure(_) =>
        s.(view := ShowError(v.(isSearching := false), LookupFailedMessage),
           lookupsOpen := sess.lookupsOpen && !closeOnError)
  }

  /** The lookup as the component is written: the failure reaches the
      subscriber's error callback, which ends the subscription. */
  function LookupAsWritten(sess: Session, query: string, listResponse: Result<PokemonListResponse, Gateway.HttpFailure>,
                           order: (string, string) -> bool): (r: Session)
    requires Gateway.TotalPreorder(order)
    ensures !sess.lookupsOpen ==> r == sess
  {
    LookupWith(sess, query, listResponse, order, true)
  }

  /** The lookup as its message ("Please try again.") means it: the failure
      is reported and the subscription stays open. */
  function Lookup(sess: Session, query: string, listResponse: Result<PokemonListResponse, Gateway.HttpFailure>,
                  order: (string, string) -> bool): (r: Session)
    requires Gateway.TotalPreorder(order)
    ensures r.lookupsOpen == sess.lookupsOpen
    ensures SelectionInRange(sess.view) ==> SelectionInRange(r.view)
  {
    LookupWith(sess, query, listResponse, order, false)
  }

  /** An open lookup: a blank query clears the list and asks nothing; any
      other query shows the gateway's first eight matches or, when the list
      cannot be had, the failure message with the list kept. */
  lemma LookupAnswers(sess: Session, query: string, listResponse: Result<PokemonListResponse, Gateway.HttpFailure>,
                      order: (string, string) -> bool)
    requires Gateway.TotalPreorder(order)
    requires sess.lookupsOpen
    ensures var r := Lookup(sess, query, listResponse, order);
            var call := Gateway.SearchPokemon(sess.caches, listResponse, order, query, SuggestionLimit);
            && r.lookupsOpen
            && (IsBlank(query) ==> r.view.suggestions == [] && r.caches == sess.caches && !r.view.hasError)
            && (!IsBlank(query) && call.result.Success? ==>
                  && r.view.suggestions == call.result.value
                  && |r.view.suggestions| <= SuggestionLimit
                  && r.view.selectedIndex == -1 && !r.view.hasError)
            && (!IsBlank(query) && call.result.Failure? ==>
                  r.view.suggestions == sess.view.suggestions && r.view.errorMessage == LookupFailedMessage)
  {
  }

  /** As written, one failed lookup closes the subscription: every later
      query is ignored, whatever the gateway would answer. */
  lemma LookupAsWrittenGoesDeaf(sess: Session, query: string, failing: Result<PokemonListResponse, Gateway.HttpFailure>,
                                later: string, answer: Result<PokemonListResponse, Gateway.HttpFailure>,
                                order: (string, string) -> bool)
    requires Gateway.TotalPreorder(order)
    requires sess.lookupsOpen && !IsBlank(query)
    requires |sess.caches.pokemonList| == 0 && failing.Failure?
    ensures var first := LookupAsWritten(sess, query, failing, order);
            && !first.lookupsOpen
            && LookupAsWritten(first, later, answer, order) == first
  {
  }

  /** The input that shows it: the creature list fails to load once while
      "pika" is typed; when "pikachu" is typed next and the list now loads,
      the component as written still shows no suggestion, where the
      corrected lookup shows pikachu. */
  lemma DeafLookupExample(store: Store.StoreState, order: (string, string) -> bool)
    requires Gateway.TotalPreorder(order)
    ensures var open := Open(store, Gateway.EmptyCaches);
            var failing: Result<PokemonListResponse, Gateway.HttpFailure> := Failure(Gateway.HttpFailure(0, "", None));
            var pikachu := Pokemon("pikachu", "");
            var answer: Result<PokemonListResponse, Gateway.HttpFailure> := Success(PokemonListResponse(1, None, None, [pikachu]));
            && LookupAsWritten(LookupAsWritten(open, "pika", failing, order), "pikachu", answer, order).view.suggestions == []
            && Lookup(Lookup(open, "pika", failing, order), "pikachu", answer, order).view.suggestions == [pikachu]
  {
    var pikachu := Pokemon("pikachu", "");
    var open := Open(store, Gateway.EmptyCaches);
    var failing: Result<PokemonListResponse, Gateway.HttpFailure> := Failure(Gateway.HttpFailure(0, "", None));
    var answer: Result<PokemonListResponse, Gateway.HttpFailure> := Success(PokemonListResponse(1, None, None, [pikachu]));
    PikaIsNotBlank();
    var first := Lookup(open, "pika", failing, order);
    assert first.caches == Gateway.EmptyCaches;
    SortSingleton(pikachu, order);
    PikachuSuggested();
  }

  /** "pika" and "pikachu" are not blank. */
  lemma PikaIsNotBlank()
    ensures !IsBlank("pika") && !IsBlank("pikachu")
  {
    assert !AllWhitespace("pika") by { assert !IsWhitespace("pika"[0]); }
    assert !AllWhitespace("pikachu") by { assert !IsWhitespace("pikachu"[0]); }
  }

  /** Sorting one creature gives it back. */
  lemma SortSingleton(p: Pokemon, order: (string, string) -> bool)
    requires Gateway.TotalPreorder(order)
    ensures Gateway.SortByName([p], order) == [p]
  {
    var r := Gateway.SortByName([p], order);
    assert multiset(r) == multiset{p};
    assert |r| == 1;
    assert r[0] in multiset(r);
  }

  /** "pikachu" is its own only suggestion. */
  lemma PikachuSuggested()
    ensures Gateway.Suggestions([Pokemon("pikachu", "")], "pikachu", SuggestionLimit) == [Pokemon("pikachu", "")]
  {
    LowerWordUnchanged("pikachu");
    assert Gateway.NormalizeQuery("pikachu") == "pikachu";
    assert Gateway.NameMatches(Pokemon("pikachu", ""), "pikachu") by {
      assert OccursAt("pikachu", "pikachu", 0);
    }
  }

  /** The keyboard highlight stays inside the list through every event the
      corrected component handles, and the suggestion subscription stays open. */
  lemma SelectionStaysInRange(sess: Session, key: Key, text: string, p: Pokemon, name: string,
                              response: Result<seq<EncounterLocation>, Gateway.HttpFailure>,
                              query: string, listResponse: Result<PokemonListResponse, Gateway.HttpFailure>,
                              order: (string, string) -> bool, row: int)
    requires Gateway.TotalPreorder(order)
    requires SelectionInRange(sess.view) && sess.lookupsOpen
    ensures SelectionInRange(OnKeyDown(sess, key, response).view) && OnKeyDown(sess, key, response).lookupsOpen
    ensures SelectionInRange(OnSearchInput(sess, text).view) && OnSearchInput(sess, text).lookupsOpen
    ensures SelectionInRange(OnInputFocus(sess).view) && OnInputFocus(sess).lookupsOpen
    ensures SelectionInRange(OnInputBlur(sess).view) && OnInputBlur(sess).lookupsOpen
    ensures 0 <= row < |sess.view.suggestions| ==>
      SelectionInRange(OnSuggestionHover(sess, row).view) && OnSuggestionHover(sess, row).lookupsOpen
    ensures SelectionInRange(SelectPokemon(sess, p, response).view) && SelectPokemon(sess, p, response).lookupsOpen
    ensures SelectionInRange(SelectExample(sess, name, response).view) && SelectExample(sess, name, response).lookupsOpen
    ensures SelectionInRange(PerformSearch(sess, response).view) && PerformSearch(sess, response).lookupsOpen
    ensures SelectionInRange(Lookup(sess, query, listResponse, order).view) && Lookup(sess, query, listResponse, order).lookupsOpen
  {
  }
}
