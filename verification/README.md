# Pokemon encounter search: a Dafny model of its client-side logic

The application is a single-page Angular client of the public PokeAPI. A user
types a creature's name and picks from suggestions. The client fetches the
places where that creature can be met in the wild and shows them page by page.
This project models the logic behind that flow as pure functions over
immutable data and proves properties of it:

- **State store** (`StateService`, module `Store`):
  - one `SearchState` record, replaced whole by named mutators;
  - the page slice it serves;
  - the storage rule: loading and error are dropped when saving, and a
    loaded record is merged over the defaults.
- **Paginator** (`PaginatorComponent`, module `Paginator`):
  - the page count;
  - the navigation guard;
  - the page-size change that keeps the first visible item on screen;
  - the list of page buttons, with `-1` standing for an ellipsis.
- **Gateway** (`PokemonService`, module `Gateway`):
  - the creature-list cache, sorted by name;
  - the substring suggestion filter;
  - the encounter cache, keyed by the normalised name, where a 404 is cached
    as an empty list;
  - case-insensitive name validation;
  - the mapping from HTTP failures to user-facing messages.
- **Search box** (`SearchComponent`, module `Search`):
  - the keyboard selection state machine;
  - the submit guard;
  - the store and gateway calls a search makes;
  - the suggestion lookup.
- **Results view** (`ResultsComponent`, module `Results`):
  - the fields copied from the store;
  - which panel shows;
  - row numbers;
  - the count line;
  - the two name formatters.
- **Navigation bar** (`NavigationComponent`, module `Navigation`):
  - the width-based split into inline and dropdown entries;
  - the active-route rule;
  - the menu flags.
- **Cross-component invariant** (module `Consistency`): the store's pagination
  agrees with its encounter list, and every operation the application uses
  keeps that agreement.

Supporting modules:

- `Wrappers` holds `Option` and `Result`.
- `Models` holds the record shapes of `src/app/models/pokemon.interface.ts`.
- `Text` models the JavaScript string built-ins the code relies on:
  `toLowerCase`/`toUpperCase` on ASCII letters, `trim` with ECMAScript's
  whitespace set, `includes`, `\w`, and number-to-decimal rendering.
- `Js` models `Math.ceil` of a quotient, `Math.min`/`Math.max` and
  `Array.prototype.slice`, including negative indices.

The model abstracts the environment as follows:

- A network answer is a parameter: the outcome after the source's retries,
  either a body or an `HttpFailure`. Each gateway operation returns its
  result, the caches afterwards, and whether a request was made.
- `localeCompare` is a parameter `order`, required to be a total preorder.
- The window width, the current URL and "was the click inside a `.relative`
  element" are inputs.
- Local storage is an optional slot holding an empty text, an unparseable
  text, or a parsed record whose fields may each be missing.

## Model

| member | source | states |
|---|---|---|
| Store.SetSearchQuery | src/app/services/state.service.ts:50-57 | the query is set and the error cleared; the results, loading flag and pagination are unchanged |
| Store.SetSelectedPokemon | src/app/services/state.service.ts:62-75 | selects the creature; encounters are emptied, the error cleared, page 1 with total 0; page size, query and loading flag are kept |
| Store.SetLoading | src/app/services/state.service.ts:80-87 | sets the flag; starting a load clears the error, ending one keeps it; nothing else changes |
| Store.SetEncounters | src/app/services/state.service.ts:92-105 | installs the list with total equal to its length, page 1, not loading, no error; page size, query and selection are kept |
| Store.SetError | src/app/services/state.service.ts:110-117 | records the message and stops loading; query, selection, encounters and pagination are unchanged |
| Store.MergePagination | src/app/services/state.service.ts:122-131 | the spread merge: each field given in the patch wins, each absent field keeps its old value |
| Store.SetPagination | src/app/services/state.service.ts:122-131 | only the pagination changes, to the merge of the patch over it |
| Store.ClearResults | src/app/services/state.service.ts:144-158 | equals the initial record except that the query and page size survive |
| Store.PageOf | src/app/services/state.service.ts:163-172 | for a page of at least 1 and a non-negative page size, the run of the list from `(page-1)*size`, clipped to the list, of length `min(size, max(0, n - start))` |
| Store.GetPaginatedEncounters | src/app/services/state.service.ts:163-172 | the page is no longer than the list and holds only encounters of the list |
| Store.PagesArePrefix | src/app/services/state.service.ts:163-172 | pages 1..k laid end to end are the list's first `min(k*size, n)` items |
| Store.PagesReconstructList | src/app/services/state.service.ts:163-172 | pages 1..ceil(n/size) laid end to end are exactly the list |
| Store.Sanitize | src/app/services/state.service.ts:230-242 | the saved copy is never loading and has no error; every other field is kept |
| Store.Snapshot | src/app/services/state.service.ts:230-242 | the stored entry is a parsed record with loading false and error null |
| Store.MergeOverInitial | src/app/services/state.service.ts:206-218 | each stored field overrides the default, each missing field takes the default; loading and error are always reset |
| Store.LoadState | src/app/services/state.service.ts:206-225 | a missing or empty entry gives the initial record; an unparseable one gives it too and is removed; a parsed one is merged over the defaults |
| Store.Create | src/app/services/state.service.ts:24-31 | the service starts from the loaded record and immediately saves its snapshot |
| Store.Dispatch | src/app/services/state.service.ts:136-139 | every mutator saves the sanitised new record; `clearState` resets to the initial record and leaves the slot empty |
| Store.LoadSnapshot | src/app/services/state.service.ts:206-242 | reloading a saved snapshot gives back the record with loading and error cleared |
| Store.ReloadAfterDispatch | src/app/services/state.service.ts:136-139 | after any mutator a reload starts from the sanitised current record; after `clearState` from the defaults |
| Store.CreateIdempotent | src/app/services/state.service.ts:24-31 | reloading twice in a row starts from the same record |
| Store.CorruptEntryDropped | src/app/services/state.service.ts:219-224 | an unparseable entry yields the defaults and is removed |
| Paginator.TotalPages | src/app/components/paginator/paginator.component.ts:138 | the least page count whose pages hold every item: `(n-1)*size < total <= n*size` |
| Paginator.TotalPagesSign | src/app/components/paginator/paginator.component.ts:138 | no items give no pages; at least one item gives at least one page |
| Paginator.PageRequest | src/app/components/paginator/paginator.component.ts:147-153 | no request exactly when the page is the sentinel, below 1, beyond the last page, or the current page |
| Paginator.GoToPage | src/app/components/paginator/paginator.component.ts:147-153 | a refused page changes nothing; otherwise only the current page changes, to the requested one |
| Paginator.GoToPageStaysInRange | src/app/components/paginator/paginator.component.ts:147-153 | a current page within `1..max(1, totalPages)` stays there |
| Paginator.GoToPageIdempotent | src/app/components/paginator/paginator.component.ts:147-153 | asking for the same page twice equals asking once |
| Paginator.ChangeItemsPerPage | src/app/components/paginator/paginator.component.ts:155-167 | the new size is set and the page is at least 1; the total and every field outside pagination are unchanged |
| Paginator.ResizeKeepsFirstItem | src/app/components/paginator/paginator.component.ts:155-167 | the item first on screen before the change lies within the new page's item range |
| Paginator.Range | src/app/components/paginator/paginator.component.ts:175-177 | the counting loop yields `hi-lo+1` consecutive numbers from `lo`, or none |
| Paginator.VisiblePages | src/app/components/paginator/paginator.component.ts:173-177 | with at most seven pages the list is exactly `1..totalPages` |
| Paginator.WellFormedNoAdjacentEllipses | src/app/components/paginator/paginator.component.ts:186-199 | a well-formed button list never has two ellipses side by side |
| Paginator.VisiblePagesAt | src/app/components/paginator/paginator.component.ts:179-204 | with more than seven pages, the entry at each position is page 1, an ellipsis, a window page, an ellipsis or the last page, with the segment lengths given |
| Paginator.VisiblePagesWellFormed | src/app/components/paginator/paginator.component.ts:179-204 | with more than seven pages the list runs from 1 to the last page, listed pages strictly increase, neighbours are consecutive, and each ellipsis hides at least one page |
| Paginator.VisiblePagesWindow | src/app/components/paginator/paginator.component.ts:183-204 | at most nine entries; window pages lie in `2..totalPages-1`; a current page in range is listed; an ellipsis follows page 1 iff the window starts after 2, and precedes the last page iff it ends before `totalPages-1` |
| Paginator.StartItem | src/app/components/paginator/paginator.component.ts:218-220 | the first item number shown is one past the index the store's page starts at, and at least 1 on a page of at least 1 |
| Paginator.EndItem | src/app/components/paginator/paginator.component.ts:222-224 | the last item number shown is where the store's page of `itemsPerPage` items would end, capped by the total, and never above the total |
| Paginator.ShownRangeMatchesPage | src/app/components/paginator/paginator.component.ts:218-224 | for a page in range, `getStartItem <= getEndItem`, and items Start..End are exactly the encounters the store serves for the page |
| Gateway.HandleError | src/app/services/pokemon.service.ts:116-143 | client-side events give "Network error: ...", statuses 0/404/429/500 their fixed messages, and any other status "Server error: {status} - {message}" |
| Gateway.HandleErrorDistinguishes | src/app/services/pokemon.service.ts:116-143 | the message determines the failure class, and for the catch-all class also the status and detail |
| Gateway.MessageHeads | src/app/services/pokemon.service.ts:121-138 | each class's message has a distinct first character, or a distinct ninth one for the two messages starting "Pokemon" |
| Gateway.InsertByName | src/app/services/pokemon.service.ts:35 | insertion adds exactly the one creature |
| Gateway.InsertKeepsSorted | src/app/services/pokemon.service.ts:35 | inserting into a name-sorted list keeps it sorted |
| Gateway.SortByName | src/app/services/pokemon.service.ts:35 | the result is sorted by name and is a permutation of the input |
| Gateway.GetPokemonList | src/app/services/pokemon.service.ts:26-40 | a non-empty cache answers without a request; otherwise a body is sorted by name, cached and returned, and a failure leaves the caches alone and yields the classified message |
| Gateway.ListCachedAfterLoad | src/app/services/pokemon.service.ts:26-40 | after a non-empty list has loaded, later calls are cache hits with the same answer, whatever the network says |
| Gateway.MatchingPokemon | src/app/services/pokemon.service.ts:51-52 | the filter keeps, in order, exactly the creatures whose lower-cased name contains the query, each matching entry as often as it occurs in the list |
| Gateway.PrefixOfSubsequence | src/app/services/pokemon.service.ts:53 | truncating an order-preserving subsequence leaves one |
| Gateway.Suggestions | src/app/services/pokemon.service.ts:45-56 | a blank normalised query gives nothing; never more than `limit` suggestions |
| Gateway.SuggestionsAreFirstMatches | src/app/services/pokemon.service.ts:45-56 | the suggestions are the first matches in list order, as many as `min(limit, number of matches)`; when fewer than `limit` come back they are all the matches |
| Gateway.SearchPokemon | src/app/services/pokemon.service.ts:45-56 | the list call's caches and request flag are kept; a failure passes through, and a success is filtered |
| Gateway.SearchExample | src/app/services/pokemon.service.ts:51-53 | "char" over charizard, pikachu and charmander suggests charizard then charmander |
| Gateway.GetPokemonEncounters | src/app/services/pokemon.service.ts:61-94 | a cached normalised name answers without a request; a body is cached under the normalised name; a 404 is cached and answered as an empty list; other failures leave the caches alone |
| Gateway.EncountersCachedAfterSuccess | src/app/services/pokemon.service.ts:61-94 | after a successful call, asking again under any spelling with the same normalised name is a cache hit with the same answer |
| Gateway.NotFoundExample | src/app/services/pokemon.service.ts:84-90 | a 404 for "missingno" answers an empty list, and the next call makes no request |
| Gateway.EncounterCacheMonotone | src/app/services/pokemon.service.ts:61-94 | no call forgets or changes a cached entry, and the list cache is untouched |
| Gateway.ValidatePokemonName | src/app/services/pokemon.service.ts:99-103 | a loaded list yields true iff some listed name equals the input ignoring case; a failure passes through |
| Gateway.ClearCache | src/app/services/pokemon.service.ts:108-111 | both caches end up empty |
| Gateway.ClearCacheForcesRequests | src/app/services/pokemon.service.ts:108-111 | after clearing, both lookups go to the network |
| Search.SearchTarget | src/app/components/search/search.component.ts:280-282 | the target is empty exactly when the box holds only whitespace |
| Search.SearchTargetIsCacheKey | src/app/components/search/search.component.ts:280-291 | trim-then-lowercase equals the gateway's lowercase-then-trim, and a target is already normalised, so the store's selection is the gateway's cache key |
| Search.PerformSearch | src/app/components/search/search.component.ts:279-303 | a blank query only sets the "Please enter a Pokemon name to search." error; the suggestion list and highlight are untouched |
| Search.SearchStartsLoading | src/app/components/search/search.component.ts:287-289 | a search leaves the store loading with the normalised name selected, no encounters, page 1, total 0 and no error; query and page size are kept |
| Search.SearchOutcome | src/app/components/search/search.component.ts:291-302 | an answer puts its encounters in the store from page 1 with loading off; a failure puts the gateway's message in both the store and the box |
| Search.RepeatSearchIsCached | src/app/components/search/search.component.ts:279-303 | searching again for a name that normalises alike makes no request and yields the same encounters |
| Search.StoreEncounters | src/app/components/search/search.component.ts:294-297 | the `next` callback: the store records the encounters as `setEncounters` does, and the box's view and the caches are untouched apart from the query sync |
| Search.StoreFailure | src/app/components/search/search.component.ts:298-301 | the `error` callback: the store records the message as `setError` does, and the box shows the same message with its error flag set |
| Search.SelectPokemon | src/app/components/search/search.component.ts:265-271 | picking a suggestion puts its name in the store's query, closes the list, clears the highlight, and (for a non-blank name) searches for it: the store's selected creature is the normalised name |
| Search.SelectExample | src/app/components/search/search.component.ts:273-277 | an example puts its name in the store's query and (for a non-blank name) searches for it, leaving the suggestion list and highlight alone |
| Search.ExamplesAreNeverBlank | src/app/components/search/search.component.ts:156 | every example button names a creature whose search target is itself |
| Search.OnKeyDown | src/app/components/search/search.component.ts:229-263 | with the list hidden or empty only Enter acts; otherwise the arrows clamp the highlight to `-1..len-1`, Enter picks or searches, Escape closes and clears the highlight |
| Search.ArrowsSaturate | src/app/components/search/search.component.ts:237-246 | ArrowDown moves down one until the last suggestion and then stays; ArrowUp moves up one until -1 and then stays |
| Search.OnSearchInput | src/app/components/search/search.component.ts:208-213 | the text goes to the box and the store; the list opens and the error clears |
| Search.OnInputFocus | src/app/components/search/search.component.ts:215-219 | the list opens only when there are suggestions; nothing else changes |
| Search.OnSuggestionHover | src/app/components/search/search.component.ts:75-78 | hovering suggestion row `i` highlights exactly that row, an index of the list; nothing else changes |
| Search.OnInputBlur | src/app/components/search/search.component.ts:221-227 | the list closes and the highlight goes; nothing else changes |
| Search.ShowError | src/app/components/search/search.component.ts:315-318 | the box shows the given message with its error flag set; nothing else in the view changes |
| Search.ClearError | src/app/components/search/search.component.ts:320-323 | the box's error flag is off and its message empty; nothing else in the view changes |
| Search.SyncQuery | src/app/components/search/search.component.ts:166-172 | a non-empty stored query replaces the box's text; an empty one changes nothing |
| Search.Open | src/app/components/search/search.component.ts:164-172 | a fresh box shows the stored query, has no highlight, and its suggestion subscription is open |
| Search.Lookup | src/app/components/search/search.component.ts:175-200 | the corrected lookup keeps the subscription open and the highlight in range |
| Search.LookupWith | src/app/components/search/search.component.ts:175-200 | a closed subscription ignores queries; a lookup never touches the store or the box's text |
| Search.LookupAnswers | src/app/components/search/search.component.ts:179-199 | a blank query clears the list without asking the gateway; otherwise at most eight matches are shown with no highlight, or the failure message with the list kept |
| Search.LookupAsWritten | src/app/components/search/search.component.ts:188-200 | a closed subscription ignores every query |
| Search.LookupAsWrittenGoesDeaf | src/app/components/search/search.component.ts:195-199 | one failed lookup closes the subscription, and every later query is then ignored |
| Search.DeafLookupExample | src/app/components/search/search.component.ts:175-200 | after one failure, typing "pikachu" shows no suggestion in the as-written component but shows pikachu in the corrected one |
| Search.SelectionStaysInRange | src/app/components/search/search.component.ts:229-277 | every handler keeps the highlight within the list and the subscription open: the keyboard, input, focus, blur, suggestion hover (`mouseenter`), select, example and search handlers and the lookup |
| Results.Receive | src/app/components/results/results.component.ts:212-227 | null and empty both read as no selection and no error; there is an error iff the message is non-empty; the page is the store's page |
| Results.RedirectRule | src/app/components/results/results.component.ts:228-231 | the view redirects to search exactly when nothing (or the empty name) is selected and nothing is loading |
| Results.OnePanelAtATime | src/app/components/results/results.component.ts:46-77 | while loading no panel shows; otherwise exactly one of error, empty and table shows |
| Results.GlobalIndex | src/app/components/results/results.component.ts:259-261 | row `i`'s number is the paginator's first item number plus `i` |
| Results.GlobalIndexSteps | src/app/components/results/results.component.ts:259-261 | row 0 is the paginator's start item, and row numbers strictly increase one by one |
| Results.RowNumberNamesItsEncounter | src/app/components/results/results.component.ts:259-261 | row i of the shown page is the encounter whose 1-based number is `getGlobalIndex(i)` |
| Results.TotalResultsText | src/app/components/results/results.component.ts:247-257 | "No encounter locations found" for 0, "1 encounter location found" for 1, "{n} encounter locations found" otherwise |
| Results.TotalResultsTextShape | src/app/components/results/results.component.ts:247-257 | the first character identifies the empty case and the length the singular case |
| Results.TotalResultsTextInjective | src/app/components/results/results.component.ts:247-257 | two different totals never give the same line |
| Results.FormatMethodName | src/app/components/results/results.component.ts:267-269 | same length, no hyphen left, hyphens become spaces and all else is kept |
| Results.FormatMethodNameIdempotent | src/app/components/results/results.component.ts:267-269 | formatting twice equals formatting once; a hyphen-free name is shown unchanged |
| Results.FormatLocationName | src/app/components/results/results.component.ts:263-265 | same length, no hyphen left, word starts upper-cased, all else as after the hyphen replacement |
| Results.FormatLocationNameCaseOnly | src/app/components/results/results.component.ts:263-265 | differs from the method formatter only in letter case, keeps the word starts, and no word starts with a lower-case letter |
| Results.FormatLocationNameIdempotent | src/app/components/results/results.component.ts:263-265 | formatting a formatted location name again changes nothing |
| Navigation.Partition | src/app/components/navigation/navigation.component.ts:187-204 | below 768 pixels both lists are empty; otherwise inline followed by dropdown entries is the full entry list |
| Navigation.PartitionCounts | src/app/components/navigation/navigation.component.ts:196-203 | on a desktop width, `min(floor((w-400)/120), 4)` entries are inline, hence 3 or 4, and all four exactly from 880 pixels |
| Navigation.PartitionMonotone | src/app/components/navigation/navigation.component.ts:196-203 | a wider window shows a longer (or equal) prefix of the entries inline |
| Navigation.IsActiveRoute | src/app/components/navigation/navigation.component.ts:244-249 | an entry is highlighted on its own route; an entry whose route is not the root is highlighted exactly when the recorded URL equals its route, the root path counting as the search route |
| Navigation.OneActiveEntry | src/app/components/navigation/navigation.component.ts:244-249 | at most one of the four entries is highlighted |
| Navigation.SomeEntryActive | src/app/components/navigation/navigation.component.ts:244-249 | some entry is highlighted iff the route is the root or an entry's route |
| Navigation.Init | src/app/components/navigation/navigation.component.ts:139-157 | starts with both menus shut, the layout for the measured width, and the current URL |
| Navigation.ToggleMobileMenu | src/app/components/navigation/navigation.component.ts:206-209 | flips the mobile menu and always closes the dropdown; nothing else changes |
| Navigation.CloseMobileMenu | src/app/components/navigation/navigation.component.ts:211-213 | the mobile menu is shut; nothing else changes |
| Navigation.ToggleDropdown | src/app/components/navigation/navigation.component.ts:215-217 | flips the dropdown; nothing else changes |
| Navigation.CloseDropdown | src/app/components/navigation/navigation.component.ts:219-221 | the dropdown is shut; nothing else changes |
| Navigation.ToggleMobileTwice | src/app/components/navigation/navigation.component.ts:206-209 | toggling twice restores the mobile menu, with the dropdown shut |
| Navigation.ToggleDropdownTwice | src/app/components/navigation/navigation.component.ts:211-221 | toggling the dropdown twice changes nothing; closing twice equals closing once |
| Navigation.OnNavigationEnd | src/app/components/navigation/navigation.component.ts:149-153 | a route change records the URL and shuts both menus |
| Navigation.OnResize | src/app/components/navigation/navigation.component.ts:164-173 | re-lays out for the new width and shuts the mobile menu from 768 pixels on |
| Navigation.OnDocumentClick | src/app/components/navigation/navigation.component.ts:175-181 | a click outside every `.relative` element shuts the dropdown; one inside changes nothing |
| Navigation.HandlersKeepLayout | src/app/components/navigation/navigation.component.ts:164-221 | every handler keeps the layout matching the measured width |
| Consistency.InitialConsistent | src/app/services/state.service.ts:11-22 | the defaults satisfy the pagination agreement |
| Consistency.ActionsKeepConsistent | src/app/services/state.service.ts:50-158 | every mutator except `setPagination` keeps the page size positive, the total equal to the list length, and the page within range |
| Consistency.SetPaginationCanBreak | src/app/services/state.service.ts:122-131 | an arbitrary pagination patch can break the agreement |
| Consistency.GoToPageKeepsConsistent | src/app/components/paginator/paginator.component.ts:147-153 | the guarded page change keeps the agreement |
| Consistency.ChangeItemsPerPageKeepsConsistent | src/app/components/paginator/paginator.component.ts:155-167 | the page the resize moves to exists under the new page size |
| Consistency.CeilDivMonotone | src/app/components/paginator/paginator.component.ts:161 | the ceiling of a quotient grows with the dividend |
| Consistency.ReloadKeepsConsistent | src/app/services/state.service.ts:206-242 | a reload from the saved snapshot of a consistent record is consistent |
| Text.LowerChar | src/app/services/pokemon.service.ts:62 | lower-casing leaves no upper-case letter, keeps whitespace and word characters, and keeps every non-upper-case character |
| Text.UpperChar | src/app/components/results/results.component.ts:264 | upper-casing leaves no lower-case letter, keeps word characters, and agrees with the original after lower-casing |
| Text.Lower | src/app/services/pokemon.service.ts:48 | same length, each character lower-cased |
| Text.LowerIdempotent | src/app/services/pokemon.service.ts:62 | lower-casing twice equals lower-casing once |
| Text.LeadingWhitespace | src/app/services/pokemon.service.ts:48 | the count of whitespace code points at the front, stopping at the first non-whitespace |
| Text.TrailingWhitespace | src/app/services/pokemon.service.ts:48 | the count of whitespace code points at the back, stopping at the last non-whitespace |
| Text.Trim | src/app/services/pokemon.service.ts:48 | an infix whose removed prefix and suffix are all whitespace and whose ends are not; empty iff the input is all whitespace |
| Text.LeadingWhitespaceLower | src/app/services/pokemon.service.ts:62 | lower-casing does not change the leading whitespace count |
| Text.TrailingWhitespaceLower | src/app/services/pokemon.service.ts:62 | lower-casing does not change the trailing whitespace count |
| Text.TrimLowerCommute | src/app/services/pokemon.service.ts:62 | lower-then-trim equals trim-then-lower |
| Text.TrimIdempotent | src/app/components/search/search.component.ts:280 | trimming a trimmed string changes nothing |
| Text.NatToDecimal | src/app/services/pokemon.service.ts:138 | a non-empty digit string without a leading zero |
| Text.ParseNatToDecimal | src/app/services/pokemon.service.ts:138 | reading the rendered digits back gives the number |
| Text.IntToDecimal | src/app/services/pokemon.service.ts:138 | a non-empty string of digits and a sign, starting with a digit iff the number is non-negative |
| Text.IntToDecimalInjective | src/app/services/pokemon.service.ts:138 | two numbers with the same rendering are equal |
| Js.Min | src/app/components/paginator/paginator.component.ts:223 | the smaller argument |
| Js.Max | src/app/components/paginator/paginator.component.ts:165 | the larger argument |
| Js.CeilDiv | src/app/components/paginator/paginator.component.ts:138 | the least `q` with `a <= q*b` |
| Js.CeilDivUnique | src/app/components/paginator/paginator.component.ts:161 | only one integer satisfies that characterisation |
| Js.MulCancel | src/app/components/paginator/paginator.component.ts:161 | a positive factor cancels from a strict inequality |
| Js.SliceIndex | src/app/services/state.service.ts:171 | a negative index counts back from the end; the result is clamped to `0..len` |
| Js.Slice | src/app/services/state.service.ts:171 | for non-negative arguments, the run between the two indices, each clipped to the length |
| Wrappers.Option.GetOr | src/app/components/results/results.component.ts:217 | `x \|\| default` on an optional value: the value when present, the default otherwise |

## Left out

- HTTP transport and the `retry(3)`/`retry(2)` counts: a request's outcome after retries is a parameter.
- The artificial `delay(100)` on encounter cache hits, and all rxjs timing: `debounceTime`, `distinctUntilChanged`, `switchMap` cancellation, `takeUntil` and the 200 ms blur timer. Each handler's effect is applied at once, and a debounced lookup is its own step.
- The interval in which `isSearching` is true: a lookup is modelled as one step, and it ends with the flag false.
- `localeCompare`: it depends on the locale, so the sort takes any total preorder on names. Insertion sort is used, which is stable like the JavaScript sort.
- Unicode case mapping: `toLowerCase`/`toUpperCase` are modelled on ASCII letters only. Every other character is left as is.
- `localStorage` failures (quota, private mode) and JSON fidelity. A saved record is assumed to read back as written, except for the sanitised fields.
- Storage entries whose `pagination` object has only some of its fields: a stored pagination record is taken whole or not at all.
- The untyped `condition_values` array of an encounter detail: no logic reads it.
- Router navigation after a search and on the results page's back button, the DOM (`blur()` on Escape, `closest`), templates apart from the panel conditions, CSS class helpers, `trackBy` helpers and console logging.
- `getState`, `getCurrentState`, `hasResults`, `isLoading` and `hasError` of the store: read-only accessors of the record.
- The results view's `hasError` is modelled from `!!state.error`. A stored error can only be a string or null.
- Paginator.TotalPages: requires a positive page size. With size 0 the source divides by zero, giving `Infinity` or `NaN`, and no caller produces size 0.
- Paginator.VisiblePagesWindow: the ellipsis conditions are stated only for a current page within `1..totalPages`. For other pages the window can be empty and the positions shift.
- Navigation highlighting uses the URL recorded at `NavigationEnd` (`event.url`) as it is. A URL that the wildcard route redirects (such as `/foo`), or one that carries a query string or a fragment (such as `/search?q=1`), highlights no entry, although it may show the search page.
- JavaScript numbers are IEEE doubles; the model computes page numbers, page sizes, slice bounds, item numbers (`Js.CeilDiv`, `Store.PageStart`, `Paginator.TotalPages`) and the status in the server-error message (`Text.IntToDecimal`) with unbounded integers. They agree for every value below 2^53, which covers page counts and HTTP statuses.
- Search.OnKeyDown: requires the highlight to be within the list. Every handler keeps that, as `Search.SelectionStaysInRange` proves, and outside it the source would pass `undefined` to `selectPokemon`.

## Findings

| source | as written | input that shows it | evidently intended | confidence | as-written member | corrected member |
|---|---|---|---|---|---|---|
| src/app/components/search/search.component.ts:188-200 | A failed suggestion lookup reaches the `error` callback of the subscription. rxjs then ends the subscription, so later queries pushed to the search subject reach no subscriber. | The creature list fails to load once while "pika" is typed (e.g. status 0). Then "pikachu" is typed and the list loads: no suggestion is shown, and none ever will be until the component is recreated. | The message says "Please try again.", so a later query should look up again: the failure should be caught inside the lookup and the subscription kept open. | not executed; high (standard rxjs error semantics) | Search.LookupAsWritten, Search.LookupAsWrittenGoesDeaf, Search.DeafLookupExample | Search.Lookup, Search.LookupAnswers, Search.SelectionStaysInRange |
