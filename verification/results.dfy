/** The results view (`ResultsComponent`): the fields it copies out of each
    state it receives, which of its three panels it shows, its row numbers,
    its result-count line and its two name formatters. */
module Results {
  import opened Wrappers
  import opened Models
  import opened Text
  import Store
  import Paginator

  /** The component's fields after it has received a state. */
  datatype ResultsView = ResultsView(
    selectedPokemon: string,
    encounters: seq<EncounterLocation>,
    paginatedEncounters: seq<EncounterLocation>,
    isLoading: bool,
    hasError: bool,
    errorMessage: string,
    currentPage: int,
    itemsPerPage: int,
    totalItems: int)

  /** The subscription body of `ngOnInit`: `null` and `''` both read as "no
      selection" and "no error". */
  function Receive(s: SearchState): (v: ResultsView)
    ensures v.selectedPokemon == s.selectedPokemon.GetOr("")
    ensures v.hasError <==> s.error.Some? && s.error.value != ""
    ensures v.hasError <==> v.errorMessage != ""
    ensures v.encounters == s.encounters && v.isLoading == s.isLoading
    ensures v.paginatedEncounters == Store.GetPaginatedEncounters(s)
    ensures PaginationOf(v) == s.pagination
  {
    ResultsView(
      s.selectedPokemon.GetOr(""),
      s.encounters,
      Store.GetPaginatedEncounters(s),
      s.isLoading,
      s.error.Some? && s.error.value != "",
      s.error.GetOr(""),
      s.pagination.currentPage,
      s.pagination.itemsPerPage,
      s.pagination.totalItems)
  }

  /** The pagination the view holds, as one record. */
  function PaginationOf(v: ResultsView): PaginationConfig {
    PaginationConfig(v.currentPage, v.itemsPerPage, v.totalItems)
  }

  /** After the first state has arrived, the view sends the user back to the
      search page when nothing is selected and nothing is loading. */
  predicate RedirectsToSearch(v: ResultsView) {
    v.selectedPokemon == "" && !v.isLoading
  }

  /** The redirect happens exactly for a state with no (or an empty)
      selection that is not loading. */
  lemma RedirectRule(s: SearchState)
    ensures RedirectsToSearch(Receive(s)) <==>
      (s.selectedPokemon == None || s.selectedPokemon == Some("")) && !s.isLoading
  {
  }

  /** The three panels the template chooses between. */
  predicate ShowsError(v: ResultsView) { v.hasError && !v.isLoading }
  predicate ShowsEmpty(v: ResultsView) { !v.isLoading && !v.hasError && |v.encounters| == 0 }
  predicate ShowsTable(v: ResultsView) { !v.isLoading && !v.hasError && |v.encounters| > 0 }

  /** While loading no panel shows; otherwise exactly one does. */
  lemma OnePanelAtATime(v: ResultsView)
    ensures v.isLoading ==> !ShowsError(v) && !ShowsEmpty(v) && !ShowsTable(v)
    ensures !v.isLoading ==>
      && (ShowsError(v) || ShowsEmpty(v) || ShowsTable(v))
      && !(ShowsError(v) && ShowsEmpty(v))
      && !(ShowsError(v) && ShowsTable(v))
      && !(ShowsEmpty(v) && ShowsTable(v))
  {
  }

  /** `getGlobalIndex(i)`: the 1-based number of row `i` of the current page,
      counted on from the number the paginator shows as the page's first item. */
  function GlobalIndex(v: ResultsView, localIndex: int): (r: int)
    ensures r == Paginator.StartItem(PaginationOf(v)) + localIndex
  {
    (v.currentPage - 1) * v.itemsPerPage + localIndex + 1
  }

  /** Row numbers go up one by one from the paginator's first item number. */
  lemma GlobalIndexSteps(v: ResultsView, i: int, j: int)
    ensures GlobalIndex(v, 0) == Paginator.StartItem(PaginationOf(v))
    ensures i < j ==> GlobalIndex(v, i) < GlobalIndex(v, j)
    ensures GlobalIndex(v, j) - GlobalIndex(v, i) == j - i
  {
  }

  /** On a page of at least 1 and a non-negative page size, row `i` of the
      page shown is the encounter whose 1-based number is the row number. */
  lemma RowNumberNamesItsEncounter(s: SearchState, i: int)
    requires s.pagination.currentPage >= 1 && s.pagination.itemsPerPage >= 0
    requires 0 <= i < |Receive(s).paginatedEncounters|
    ensures 1 <= GlobalIndex(Receive(s), i) <= |s.encounters|
    ensures Receive(s).paginatedEncounters[i] == s.encounters[GlobalIndex(Receive(s), i) - 1]
  {
    var c := s.pagination;
    var page := Store.PageOf(s.encounters, c);
    assert page == Receive(s).paginatedEncounters;
    assert Store.PageRun(s.encounters, Store.PageStart(c), c.itemsPerPage, page);
    assert Store.PageStart(c) < |s.encounters|;
  }

  const NoResultsText: string := "No encounter locations found"
  const OneResultText: string := "1 encounter location found"
  const ManyResultsSuffix: string := " encounter locations found"

  /** `getTotalResultsText`. */
  function TotalResultsText(totalItems: int): (t: string)
    ensures totalItems == 0 ==> t == NoResultsText
    ensures totalItems == 1 ==> t == OneResultText
    ensures totalItems != 0 && totalItems != 1 ==>
      t == IntToDecimal(totalItems) + ManyResultsSuffix
  {
    if totalItems == 0 then NoResultsText
    else if totalItems == 1 then OneResultText
    else IntToDecimal(totalItems) + ManyResultsSuffix
  }

  /** The count line names its count: two different totals never give the
      same line. */
  lemma TotalResultsTextInjective(a: int, b: int)
    requires TotalResultsText(a) == TotalResultsText(b)
    ensures a == b
  {
    var t := TotalResultsText(a);
    TotalResultsTextShape(a);
    TotalResultsTextShape(b);
    if a != 0 && a != 1 && b != 0 && b != 1 {
      var da := IntToDecimal(a);
      var db := IntToDecimal(b);
      assert da == t[..|da|] == db;
      IntToDecimalInjective(a, b);
    }
  }

  /** The first character tells an empty result apart, the length a single one. */
  lemma TotalResultsTextShape(n: int)
    ensures TotalResultsText(n)[0] == 'N' <==> n == 0
    ensures |TotalResultsText(n)| == |OneResultText| <==> n == 1
  {
    if n == 0 {
      assert NoResultsText[0] == 'N' && |NoResultsText| == 28;
    } else if n == 1 {
      assert OneResultText[0] == '1';
    } else {
      assert TotalResultsText(n)[0] == IntToDecimal(n)[0];
      assert |ManyResultsSuffix| == |OneResultText|;
    }
  }

  /** One character of `name.replace(/-/g, ' ')`. */
  function Unhyphen(c: char): char {
    if c == '-' then ' ' else c
  }

  /** `formatMethodName`: every hyphen becomes a space. */
  function FormatMethodName(name: string): (r: string)
    ensures |r| == |name|
    ensures forall i :: 0 <= i < |r| ==> r[i] != '-'
    ensures forall i :: 0 <= i < |r| ==> name[i] != '-' ==> r[i] == name[i]
    ensures forall i :: 0 <= i < |r| ==> name[i] == '-' ==> r[i] == ' '
  {
    seq(|name|, i requires 0 <= i < |name| => Unhyphen(name[i]))
  }

  /** Formatting an already formatted method name changes nothing, and a
      name without hyphens is shown as it is. */
  lemma FormatMethodNameIdempotent(name: string)
    ensures FormatMethodName(FormatMethodName(name)) == FormatMethodName(name)
    ensures (forall i :: 0 <= i < |name| ==> name[i] != '-') ==> FormatMethodName(name) == name
  {
  }

  /** Position `i` of `s` is matched by `\b\w`: a word character that is first
      or follows a non-word character. */
  predicate WordStart(s: string, i: int)
    requires 0 <= i < |s|
  {
    IsWordChar(s[i]) && (i == 0 || !IsWordChar(s[i - 1]))
  }

  /** `formatLocationName`: hyphens become spaces, then every word start is
      upper-cased. */
  function FormatLocationName(name: string): (r: string)
    ensures |r| == |name|
    ensures forall i :: 0 <= i < |r| ==> r[i] != '-'
    ensures forall i :: 0 <= i < |r| ==>
      r[i] == if WordStart(FormatMethodName(name), i) then UpperChar(FormatMethodName(name)[i]) else FormatMethodName(name)[i]
  {
    var t := FormatMethodName(name);
    seq(|t|, i requires 0 <= i < |t| => if WordStart(t, i) then UpperChar(t[i]) else t[i])
  }

  /** The location formatter only changes letter case over the method
      formatter, keeps the words where they were, and leaves no word starting
      with a lower-case letter. */
  lemma FormatLocationNameCaseOnly(name: string)
    ensures Lower(FormatLocationName(name)) == Lower(FormatMethodName(name))
    ensures forall i :: 0 <= i < |name| ==>
      (WordStart(FormatLocationName(name), i) <==> WordStart(FormatMethodName(name), i))
    ensures forall i :: 0 <= i < |name| && WordStart(FormatLocationName(name), i) ==>
      !IsLower(FormatLocationName(name)[i])
  {
  }

  /** Formatting a formatted location name again changes nothing. */
  lemma FormatLocationNameIdempotent(name: string)
    ensures FormatLocationName(FormatLocationName(name)) == FormatLocationName(name)
  {
    var r := FormatLocationName(name);
    FormatMethodNameIdempotent(r);
    FormatLocationNameCaseOnly(name);
  }
}
