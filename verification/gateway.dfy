/** The remote data gateway (`PokemonService`): the creature-list cache, the
    suggestion filter, the encounter cache keyed by normalised name, name
    validation and the HTTP-status-to-message classification.

    A request is not performed here: each operation receives the response
    the upstream API would give (after the source's retries) and returns,
    besides its result, the caches afterwards and whether a request was
    issued at all. The list is sorted with `localeCompare`, whose order
    depends on the locale; it is a parameter `order`, any total preorder on names. */
module Gateway {
  import opened Wrappers
  import opened Models
  import opened Text
  import Js

  /** An `HttpErrorResponse`: its status, its message, and the message of the
      `ErrorEvent` it wraps when the failure happened on the client side. */
  datatype HttpFailure = HttpFailure(status: int, message: string, clientEvent: Option<string>)

  /** The creature-list cache and the encounter cache. */
  datatype Caches = Caches(pokemonList: seq<Pokemon>, encounterCache: map<string, seq<EncounterLocation>>)

  const EmptyCaches: Caches := Caches([], map[])

  // The fixed messages `handleError` shows. Each is written as its two
  // sentences joined, which is the same string as one literal; the verifier
  // reads a character of a short literal far more cheaply than one deep
  // inside a long one, and the proofs that tell the messages apart
  // (`MessageHeads`) look at their first characters.
  const ConnectionMessage: string := "Unable to connect to the Pokemon API." + " Please check your internet connection."
  const NotFoundMessage: string := "Pokemon not found." + " Please check the spelling and try again."
  const RateLimitMessage: string := "Too many requests." + " Please wait a moment and try again."
  const UnavailableMessage: string := "Pokemon API is currently unavailable." + " Please try again later."
  const ServerErrorPrefix: string := "Server error: "
  const NetworkErrorPrefix: string := "Network error: "

  /** The class of a failure, as far as the user-facing message tells it. */
  datatype FailureKind =
    | NetworkKind(detail: string)
    | ConnectionKind
    | NotFoundKind
    | RateLimitedKind
    | UnavailableKind
    | ServerKind(status: int, detail: string)

  /** How `handleError` classifies a failure: client-side events first, then
      by status. */
  function Classify(e: HttpFailure): FailureKind {
    if e.clientEvent.Some? then NetworkKind(e.clientEvent.value)
    else if e.status == 0 then ConnectionKind
    else if e.status == 404 then NotFoundKind
    else if e.status == 429 then RateLimitedKind
    else if e.status == 500 then UnavailableKind
    else ServerKind(e.status, e.message)
  }

  /** `handleError`: the message the observable errors out with. */
  function HandleError(e: HttpFailure): (msg: string)
    ensures Classify(e) == ConnectionKind ==> msg == ConnectionMessage
    ensures Classify(e) == NotFoundKind ==> msg == NotFoundMessage
    ensures Classify(e) == RateLimitedKind ==> msg == RateLimitMessage
    ensures Classify(e) == UnavailableKind ==> msg == UnavailableMessage
    ensures Classify(e).NetworkKind? ==> msg == NetworkErrorPrefix + e.clientEvent.value
    ensures Classify(e).ServerKind? ==> msg == ServerErrorPrefix + IntToDecimal(e.status) + " - " + e.message
  {
    if e.clientEvent.Some? then NetworkErrorPrefix + e.clientEvent.value
    else if e.status == 0 then ConnectionMessage
    else if e.status == 404 then NotFoundMessage
    else if e.status == 429 then RateLimitMessage
    else if e.status == 500 then UnavailableMessage
    else ServerErrorPrefix + IntToDecimal(e.status) + " - " + e.message
  }

  /** Reading the message back: failures with the same message have the same
      class, and for the catch-all class the same status and detail. */
  lemma HandleErrorDistinguishes(e1: HttpFailure, e2: HttpFailure)
    requires HandleError(e1) == HandleError(e2)
    ensures Classify(e1) == Classify(e2)
  {
    var m := HandleError(e1);
    var k1 := Classify(e1);
    var k2 := Classify(e2);
    MessageHeads(e1);
    MessageHeads(e2);
    if k1.NetworkKind? && k2.NetworkKind? {
      assert e1.clientEvent.value == m[|NetworkErrorPrefix|..] == e2.clientEvent.value;
    } else if k1.ServerKind? && k2.ServerKind? {
      ServerMessageDetermines(e1, e2);
    }
  }

  /** A catch-all message gives back its status and detail. */
  lemma ServerMessageDetermines(e1: HttpFailure, e2: HttpFailure)
    requires Classify(e1).ServerKind? && Classify(e2).ServerKind?
    requires HandleError(e1) == HandleError(e2)
    ensures e1.status == e2.status && e1.message == e2.message
  {
    var d1, d2 := IntToDecimal(e1.status), IntToDecimal(e2.status);
    var r1, r2 := " - " + e1.message, " - " + e2.message;
    assert HandleError(e1) == ServerErrorPrefix + (d1 + r1);
    assert HandleError(e2) == ServerErrorPrefix + (d2 + r2);
    assert d1 + r1 == HandleError(e1)[|ServerErrorPrefix|..];
    assert d2 + r2 == HandleError(e2)[|ServerErrorPrefix|..];
    SplitAtSpace(d1, r1, d2, r2);
    assert e1.message == r1[3..] && e2.message == r2[3..];
    IntToDecimalInjective(e1.status, e2.status);
  }

  /** Two space-free runs each followed by a space split the same text alike. */
  lemma SplitAtSpace(d1: string, r1: string, d2: string, r2: string)
    requires forall i :: 0 <= i < |d1| ==> d1[i] != ' '
    requires forall i :: 0 <= i < |d2| ==> d2[i] != ' '
    requires |r1| > 0 && r1[0] == ' ' && |r2| > 0 && r2[0] == ' '
    requires d1 + r1 == d2 + r2
    ensures d1 == d2 && r1 == r2
  {
    FirstSpaceAfter(d1, r1);
    FirstSpaceAfter(d2, r2);
    assert d1 == (d1 + r1)[..|d1|];
    assert d2 == (d2 + r2)[..|d2|];
    assert r1 == (d1 + r1)[|d1|..];
    assert r2 == (d2 + r2)[|d2|..];
  }

  /** The first and ninth characters of a message tell its class apart. */
  lemma MessageHeads(e: HttpFailure)
    ensures |HandleError(e)| > 8
    ensures HandleError(e)[0] == match Classify(e)
      case NetworkKind(_) => 'N'
      case ConnectionKind => 'U'
      case NotFoundKind => 'P'
      case RateLimitedKind => 'T'
      case UnavailableKind => 'P'
      case ServerKind(_, _) => 'S'
    ensures Classify(e) == NotFoundKind ==> HandleError(e)[8] == 'n'
    ensures Classify(e) == UnavailableKind ==> HandleError(e)[8] == 'A'
  {
    match Classify(e)
    case NetworkKind(_) => assert NetworkErrorPrefix[0] == 'N' && |NetworkErrorPrefix| > 8;
    case ConnectionKind => assert ConnectionMessage[0] == 'U' && |ConnectionMessage| > 8;
    case NotFoundKind => assert NotFoundMessage[0] == 'P' && NotFoundMessage[8] == 'n';
    case RateLimitedKind => assert RateLimitMessage[0] == 'T' && |RateLimitMessage| > 8;
    case UnavailableKind => assert UnavailableMessage[0] == 'P' && UnavailableMessage[8] == 'A';
    case ServerKind(_, _) => assert ServerErrorPrefix[0] == 'S' && |ServerErrorPrefix| > 8;
  }

  /** The index of the first space in `t`, or its length when there is none. */
  function FirstSpace(t: string): (k: nat)
    ensures k <= |t|
  {
    if t == [] || t[0] == ' ' then 0 else 1 + FirstSpace(t[1..])
  }

  /** A space-free run followed by a space ends at the first space. */
  lemma {:induction false} FirstSpaceAfter(d: string, rest: string)
    requires forall i :: 0 <= i < |d| ==> d[i] != ' '
    requires |rest| > 0 && rest[0] == ' '
    ensures FirstSpace(d + rest) == |d|
    decreases |d|
  {
    if d == [] {
      assert d + rest == rest;
    } else {
      assert (d + rest)[1..] == d[1..] + rest;
      FirstSpaceAfter(d[1..], rest);
    }
  }

  /** `order` is a total preorder on names, as a `localeCompare`-based comparator is. */
  ghost predicate TotalPreorder(order: (string, string) -> bool) {
    && (forall a, b :: order(a, b) || order(b, a))
    && (forall a, b, c :: order(a, b) && order(b, c) ==> order(a, c))
  }

  ghost predicate SortedByName(list: seq<Pokemon>, order: (string, string) -> bool) {
    forall i, j :: 0 <= i < j < |list| ==> order(list[i].name, list[j].name)
  }

  /** Inserts `p` in front of the first entry it does not follow. */
  function InsertByName(p: Pokemon, list: seq<Pokemon>, order: (string, string) -> bool): (r: seq<Pokemon>)
    ensures multiset(r) == multiset(list) + multiset{p}
    ensures forall q :: q in r ==> q == p || q in list
  {
    if list == [] || order(p.name, list[0].name) then
      [p] + list
    else
      assert list == [list[0]] + list[1..];
      [list[0]] + InsertByName(p, list[1..], order)
  }

  /** Inserting into a sorted list keeps it sorted. */
  lemma {:induction false} InsertKeepsSorted(p: Pokemon, list: seq<Pokemon>, order: (string, string) -> bool)
    requires TotalPreorder(order)
    requires SortedByName(list, order)
    ensures SortedByName(InsertByName(p, list, order), order)
  {
    if list != [] && !order(p.name, list[0].name) {
      var tail := list[1..];
      InsertKeepsSorted(p, tail, order);
      var rest := InsertByName(p, tail, order);
      forall j | 0 <= j < |rest|
        ensures order(list[0].name, rest[j].name)
      {
        if rest[j] != p {
          assert rest[j] in tail;
          var k :| 0 <= k < |tail| && tail[k] == rest[j];
          assert list[k + 1] == rest[j];
        }
      }
    }
  }

  /** `results.sort((a, b) => a.name.localeCompare(b.name))`: a permutation of
      the list, ordered by name. */
  function SortByName(list: seq<Pokemon>, order: (string, string) -> bool): (r: seq<Pokemon>)
    requires TotalPreorder(order)
    ensures SortedByName(r, order)
    ensures multiset(r) == multiset(list)
  {
    if list == [] then []
    else
      assert list == [list[0]] + list[1..];
      var sortedTail := SortByName(list[1..], order);
      InsertKeepsSorted(list[0], sortedTail, order);
      InsertByName(list[0], sortedTail, order)
  }

  /** A list call's answer, the caches afterwards, and whether it went to the network. */
  datatype ListCall = ListCall(result: Result<seq<Pokemon>, string>, caches: Caches, requested: bool)

  /** `getPokemonList`: a non-empty cache answers without a request;
      otherwise the response is sorted by name and becomes the cache. */
  function GetPokemonList(c: Caches, response: Result<PokemonListResponse, HttpFailure>,
                          order: (string, string) -> bool): (r: ListCall)
    requires TotalPreorder(order)
    ensures |c.pokemonList| > 0 ==> r == ListCall(Success(c.pokemonList), c, false)
    ensures |c.pokemonList| == 0 ==> r.requested && r.caches.encounterCache == c.encounterCache
    ensures |c.pokemonList| == 0 && response.Success? ==>
      && r.result.Success?
      && r.caches.pokemonList == r.result.value
      && SortedByName(r.result.value, order)
      && multiset(r.result.value) == multiset(response.value.results)
    ensures |c.pokemonList| == 0 && response.Failure? ==>
      r.result == Failure(HandleError(response.error)) && r.caches == c
  {
    if |c.pokemonList| > 0 then ListCall(Success(c.pokemonList), c, false)
    else
      match response
      case Success(body) =>
        var sorted := SortByName(body.results, order);
        ListCall(Success(sorted), c.(pokemonList := sorted), true)
      case Failure(e) => ListCall(Failure(HandleError(e)), c, true)
  }

  /** Once a non-empty list has been loaded, later calls are served from the
      cache, whatever the network would answer. */
  lemma ListCachedAfterLoad(c: Caches, response: Result<PokemonListResponse, HttpFailure>,
                            later: Result<PokemonListResponse, HttpFailure>, order: (string, string) -> bool)
    requires TotalPreorder(order)
    requires response.Success? && |response.value.results| > 0
    ensures var first := GetPokemonList(c, response, order);
            GetPokemonList(first.caches, later, order) == ListCall(first.result, first.caches, false)
  {
    var first := GetPokemonList(c, response, order);
    if |c.pokemonList| == 0 {
      assert |first.result.value| == |response.value.results| by {
        assert |multiset(first.result.value)| == |multiset(response.value.results)|;
      }
    }
  }

  /** `name.toLowerCase()` contains the lower-cased query. */
  predicate NameMatches(p: Pokemon, query: string) {
    Contains(Lower(p.name), query)
  }

  /** `list.filter(p => p.name.toLowerCase().includes(query))`: every
      matching entry is kept as often as it occurs, every other one dropped. */
  function MatchingPokemon(list: seq<Pokemon>, query: string): (r: seq<Pokemon>)
    ensures |r| <= |list|
    ensures IsSubsequence(r, list)
    ensures forall p :: p in r ==> NameMatches(p, query)
    ensures forall p :: p in list && NameMatches(p, query) ==> p in r
    ensures forall p :: multiset(r)[p] == if NameMatches(p, query) then multiset(list)[p] else 0
  {
    if list == [] then []
    else
      assert list == [list[0]] + list[1..];
      if NameMatches(list[0], query) then
        [list[0]] + MatchingPokemon(list[1..], query)
      else
        var r := MatchingPokemon(list[1..], query);
        assert forall p :: p in list ==> p == list[0] || p in list[1..];
        r
  }

  /** `a` is `b` with some entries left out, order kept. */
  predicate IsSubsequence<T(==)>(a: seq<T>, b: seq<T>)
    decreases |b|
  {
    if a == [] then true
    else if b == [] then false
    else if a[0] == b[0] then IsSubsequence(a[1..], b[1..])
    else IsSubsequence(a, b[1..])
  }

  /** Dropping the tail of a subsequence keeps it a subsequence. */
  lemma {:induction false} PrefixOfSubsequence<T>(a: seq<T>, b: seq<T>, k: nat)
    requires IsSubsequence(a, b)
    requires k <= |a|
    ensures IsSubsequence(a[..k], b)
    decreases |b|
  {
    if k > 0 {
      assert a != [] && b != [];
      if a[0] == b[0] {
        PrefixOfSubsequence(a[1..], b[1..], k - 1);
        assert a[..k][1..] == a[1..][..k - 1];
      } else {
        PrefixOfSubsequence(a, b[1..], k);
      }
    }
  }

  /** The lower-cased, trimmed query `searchPokemon` filters with. */
  function NormalizeQuery(query: string): string {
    Trim(Lower(query))
  }

  /** The pure part of `searchPokemon`: nothing for a blank query, otherwise
      the first `limit` matching creatures. */
  function Suggestions(list: seq<Pokemon>, query: string, limit: nat): (r: seq<Pokemon>)
    ensures NormalizeQuery(query) == [] ==> r == []
    ensures |r| <= limit
  {
    var q := NormalizeQuery(query);
    if q == [] then []
    else
      var all := MatchingPokemon(list, q);
      if |all| < limit then all else all[..limit]
  }

  /** The suggestions are, in list order, creatures whose lower-cased name
      contains the normalised query; they are the first matches of the list,
      as many as there are up to `limit`, and when fewer than `limit` come
      back, they are all the matches. */
  lemma SuggestionsAreFirstMatches(list: seq<Pokemon>, query: string, limit: nat)
    ensures var r := Suggestions(list, query, limit);
      && IsSubsequence(r, list)
      && (forall p :: p in r ==> NameMatches(p, NormalizeQuery(query)))
      && (NormalizeQuery(query) != [] ==> r == MatchingPokemon(list, NormalizeQuery(query))[..|r|])
      && (NormalizeQuery(query) != [] ==> |r| == Js.Min(limit, |MatchingPokemon(list, NormalizeQuery(query))|))
      && (NormalizeQuery(query) != [] && |r| < limit ==> r == MatchingPokemon(list, NormalizeQuery(query)))
      && (NormalizeQuery(query) != [] && |r| < limit ==>
            forall p :: p in list && NameMatches(p, NormalizeQuery(query)) ==> p in r)
  {
    var q := NormalizeQuery(query);
    var r := Suggestions(list, query, limit);
    if q != [] {
      var all := MatchingPokemon(list, q);
      PrefixOfSubsequence(all, list, |r|);
      assert all[..|all|] == all;
      assert forall p :: p in r ==> p in all;
    }
  }

  /** `searchPokemon(query, limit)`: obtains the list, then filters it. */
  function SearchPokemon(c: Caches, response: Result<PokemonListResponse, HttpFailure>,
                         order: (string, string) -> bool, query: string, limit: nat): (r: ListCall)
    requires TotalPreorder(order)
    ensures r.caches == GetPokemonList(c, response, order).caches
    ensures r.requested == GetPokemonList(c, response, order).requested
    ensures GetPokemonList(c, response, order).result.Failure? ==> r.result == GetPokemonList(c, response, order).result
    ensures GetPokemonList(c, response, order).result.Success? ==>
      r.result == Success(Suggestions(GetPokemonList(c, response, order).result.value, query, limit))
  {
    var call := GetPokemonList(c, response, order);
    match call.result
    case Success(list) => ListCall(Success(Suggestions(list, query, limit)), call.caches, call.requested)
    case Failure(_) => call
  }

  /** The matching example: "char" over charizard, pikachu and charmander
      gives charizard and charmander, in list order. */
  lemma SearchExample()
    ensures var list := [Pokemon("charizard", ""), Pokemon("pikachu", ""), Pokemon("charmander", "")];
            Suggestions(list, "char", 10) == [list[0], list[2]]
  {
    QueryExample();
    MatchExample();
  }

  /** The filter step of the example. */
  lemma MatchExample()
    ensures var list := [Pokemon("charizard", ""), Pokemon("pikachu", ""), Pokemon("charmander", "")];
            MatchingPokemon(list, "char") == [list[0], list[2]]
  {
    var list := [Pokemon("charizard", ""), Pokemon("pikachu", ""), Pokemon("charmander", "")];
    NameExamples();
    assert MatchingPokemon(list[2..], "char") == [list[2]] by {
      assert list[2..][1..] == [];
    }
    assert MatchingPokemon(list[1..], "char") == [list[2]] by {
      assert list[1..][1..] == list[2..];
    }
  }

  /** "char" is already normalised. */
  lemma QueryExample()
    ensures NormalizeQuery("char") == "char"
  {
    LowerWordUnchanged("char");
  }

  /** Which of the three example names contain "char". */
  lemma NameExamples()
    ensures NameMatches(Pokemon("charizard", ""), "char")
    ensures NameMatches(Pokemon("charmander", ""), "char")
    ensures !NameMatches(Pokemon("pikachu", ""), "char")
  {
    LowerWordUnchanged("charizard");
    LowerWordUnchanged("charmander");
    NameMatchesAtStart(Pokemon("charizard", ""), "char");
    NameMatchesAtStart(Pokemon("charmander", ""), "char");
    PikachuLacksChar();
  }

  /** "pikachu" has no 'r', so it cannot contain "char". */
  lemma PikachuLacksChar()
    ensures !NameMatches(Pokemon("pikachu", ""), "char")
  {
    LowerWordUnchanged("pikachu");
    assert "char"[3] == 'r';
    MissingCharNotContained("pikachu", "char", 3);
  }

  /** A name that is already lower case and starts with the query matches it. */
  lemma NameMatchesAtStart(p: Pokemon, query: string)
    requires Lower(p.name) == p.name
    requires query <= p.name
    ensures NameMatches(p, query)
  {
    assert OccursAt(Lower(p.name), query, 0);
  }

  /** The name `getPokemonEncounters` looks up and caches under. */
  function NormalizeName(name: string): string {
    Trim(Lower(name))
  }

  /** An encounter call's answer, the caches afterwards, and whether it went to the network. */
  datatype EncounterCall = EncounterCall(result: Result<PokemonEncounters, string>, caches: Caches, requested: bool)

  /** `getPokemonEncounters`: a cached name answers without a request; a
      fetched list is cached under the normalised name; a 404 is cached as
      an empty list and answered as such; any other failure is classified
      and leaves the caches alone. */
  function GetPokemonEncounters(c: Caches, name: string, response: Result<seq<EncounterLocation>, HttpFailure>): (r: EncounterCall)
    ensures NormalizeName(name) in c.encounterCache ==>
      r == EncounterCall(Success(PokemonEncounters(NormalizeName(name), c.encounterCache[NormalizeName(name)])), c, false)
    ensures NormalizeName(name) !in c.encounterCache ==> r.requested
    ensures r.result.Success? ==> r.result.value.pokemon == NormalizeName(name)
    ensures r.result.Success? ==>
      r.caches == c.(encounterCache := c.encounterCache[NormalizeName(name) := r.result.value.encounters])
    ensures r.result.Failure? ==> r.caches == c
    ensures NormalizeName(name) !in c.encounterCache && response.Success? ==>
      r.result == Success(PokemonEncounters(NormalizeName(name), response.value))
    ensures NormalizeName(name) !in c.encounterCache && response.Failure? ==>
      if response.error.status == 404
      then r.result == Success(PokemonEncounters(NormalizeName(name), []))
      else r.result == Failure(HandleError(response.error))
  {
    var key := NormalizeName(name);
    if key in c.encounterCache then
      assert c.encounterCache[key := c.encounterCache[key]] == c.encounterCache;
      EncounterCall(Success(PokemonEncounters(key, c.encounterCache[key])), c, false)
    else
      match response
      case Success(list) =>
        EncounterCall(Success(PokemonEncounters(key, list)), c.(encounterCache := c.encounterCache[key := list]), true)
      case Failure(e) =>
        if e.status == 404 then
          EncounterCall(Success(PokemonEncounters(key, [])), c.(encounterCache := c.encounterCache[key := []]), true)
        else
          EncounterCall(Failure(HandleError(e)), c, true)
  }

  /** After a successful call (a 404 included), asking again for any spelling
      of the same name is a cache hit with the same answer and no request. */
  lemma EncountersCachedAfterSuccess(c: Caches, name: string, again: string,
                                     response: Result<seq<EncounterLocation>, HttpFailure>,
                                     later: Result<seq<EncounterLocation>, HttpFailure>)
    requires GetPokemonEncounters(c, name, response).result.Success?
    requires NormalizeName(again) == NormalizeName(name)
    ensures var first := GetPokemonEncounters(c, name, response);
            GetPokemonEncounters(first.caches, again, later) == EncounterCall(first.result, first.caches, false)
  {
  }

  /** The missing-creature example: a 404 for "missingno" answers an empty
      list, and the next call for it makes no request. */
  lemma NotFoundExample(c: Caches, later: Result<seq<EncounterLocation>, HttpFailure>)
    requires "missingno" !in c.encounterCache
    ensures var first := GetPokemonEncounters(c, "missingno", Failure(HttpFailure(404, "Not Found", None)));
            && first.result == Success(PokemonEncounters("missingno", []))
            && !GetPokemonEncounters(first.caches, "missingno", later).requested
  {
    LowerWordUnchanged("missingno");
  }

  /** The caches only grow: no call forgets or changes a cached entry, and
      the list cache is untouched. */
  lemma EncounterCacheMonotone(c: Caches, name: string, response: Result<seq<EncounterLocation>, HttpFailure>)
    ensures var r := GetPokemonEncounters(c, name, response);
            && r.caches.pokemonList == c.pokemonList
            && (forall k :: k in c.encounterCache ==> k in r.caches.encounterCache && r.caches.encounterCache[k] == c.encounterCache[k])
  {
  }

  /** Some listed name equals `name` ignoring case. */
  predicate NameListed(list: seq<Pokemon>, name: string) {
    exists i | 0 <= i < |list| :: Lower(list[i].name) == Lower(name)
  }

  /** `validatePokemonName`: obtains the list, then scans it with `some`. */
  method ValidatePokemonName(c: Caches, response: Result<PokemonListResponse, HttpFailure>,
                             order: (string, string) -> bool, name: string)
    returns (result: Result<bool, string>, caches: Caches)
    requires TotalPreorder(order)
    ensures caches == GetPokemonList(c, response, order).caches
    ensures GetPokemonList(c, response, order).result.Failure? ==>
      result == Failure(GetPokemonList(c, response, order).result.error)
    ensures GetPokemonList(c, response, order).result.Success? ==>
      result == Success(NameListed(GetPokemonList(c, response, order).result.value, name))
  {
    var call := GetPokemonList(c, response, order);
    caches := call.caches;
    if call.result.Failure? {
      return Failure(call.result.error), caches;
    }
    var list := call.result.value;
    var target := Lower(name);
    var found := false;
    var i := 0;
    while i < |list| && !found
      invariant 0 <= i <= |list|
      invariant found <==> exists j | 0 <= j < i :: Lower(list[j].name) == target
    {
      found := Lower(list[i].name) == target;
      i := i + 1;
    }
    if !found {
      assert forall j | 0 <= j < |list| :: Lower(list[j].name) != target;
    }
    result := Success(found);
  }

  /** `clearCache`: both caches emptied. */
  function ClearCache(c: Caches): (r: Caches)
    ensures r.pokemonList == [] && r.encounterCache == map[]
  {
    EmptyCaches
  }

  /** After `clearCache` every lookup goes to the network again. */
  lemma ClearCacheForcesRequests(c: Caches, name: string, order: (string, string) -> bool,
                                 listResponse: Result<PokemonListResponse, HttpFailure>,
                                 response: Result<seq<EncounterLocation>, HttpFailure>)
    requires TotalPreorder(order)
    ensures GetPokemonList(ClearCache(c), listResponse, order).requested
    ensures GetPokemonEncounters(ClearCache(c), name, response).requested
  {
  }
}
