/**
 * The readjustment history page: operator suggestions while typing, the
 * selected operator's readjustments, and the detail table sorted by year
 * descending (in place).
 */
module Reajustes {
  import opened Wrappers
  import opened Text
  import opened Sorting
  import opened ApiClient

  /** The suggestion search asks for at most five operators. */
  const SuggestionPageSize := 5

  /** An operator as the suggestion list carries it; an absent trade name is `""`. */
  datatype Operadora = Operadora(registroAns: string, nomeFantasia: string, razaoSocial: string)

  /** The name shown for an operator: the trade name, or the legal name when there is none. */
  function DisplayName(op: Operadora): (r: string)
    ensures op.nomeFantasia != "" ==> r == op.nomeFantasia
    ensures op.nomeFantasia == "" ==> r == op.razaoSocial
  {
    if op.nomeFantasia != "" then op.nomeFantasia else op.razaoSocial
  }

  /** The comparator `(a, b) => b.ano - a.ano`. */
  predicate ByAnoDesc(a: Reajuste, b: Reajuste)
  {
    a.ano >= b.ano
  }

  /** The table lists the same records, newest year first. */
  lemma TableOrdered(rs: seq<Reajuste>)
    ensures var t := SortBy(rs, ByAnoDesc);
      multiset(t) == multiset(rs) && forall i, j :: 0 <= i < j < |t| ==> t[i].ano >= t[j].ano
  {
    assert TotalPreorder(ByAnoDesc);
    SortBySorted(rs, ByAnoDesc);
    SortByPermutes(rs, ByAnoDesc);
  }

  /** The colour of a percentage: danger above 15, warning above 10, success otherwise. */
  function PercentColor(p: real): string
  {
    if p > 15.0 then "text-danger" else if p > 10.0 then "text-warning" else "text-success"
  }

  function ColorRank(c: string): nat
  {
    if c == "text-success" then 0 else if c == "text-warning" then 1 else 2
  }

  /** A higher percentage never gets a milder colour. */
  lemma PercentColorMonotone(a: real, b: real)
    requires a <= b
    ensures ColorRank(PercentColor(a)) <= ColorRank(PercentColor(b))
    ensures PercentColor(a) == "text-danger" ==> a > 15.0
    ensures PercentColor(b) == "text-success" ==> b <= 10.0
  {
  }

  class ReajustesPage {
    var searchQuery: string
    var selected: Option<Operadora>
    var suggestions: seq<Operadora>
    /** The query whose 300 ms suggestion timer is running, if any. */
    var pendingSearch: Option<string>
    var reajustes: array<Reajuste>
    var loading: bool
    var error: Option<string>

    constructor ()
      ensures searchQuery == "" && selected.None? && suggestions == [] && pendingSearch.None?
      ensures reajustes.Length == 0 && !loading && error.None?
    {
      searchQuery := "";
      selected := None;
      suggestions := [];
      pendingSearch := None;
      reajustes := new Reajuste[0];
      loading := false;
      error := None;
    }

    /**
     * The suggestion effect, run after the query or the selection changed:
     * the previous timer is cancelled; a blank query or a selected operator
     * clears the suggestions, any other query starts a timer.
     */
    method SuggestionEffect()
      modifies this`suggestions, this`pendingSearch
      ensures Trim(searchQuery) == "" || selected.Some? ==> suggestions == [] && pendingSearch.None?
      ensures Trim(searchQuery) != "" && selected.None? ==> suggestions == old(suggestions) && pendingSearch == Some(searchQuery)
    {
      pendingSearch := None;
      if Trim(searchQuery) == "" || selected.Some? {
        suggestions := [];
        return;
      }
      pendingSearch := Some(searchQuery);
    }

    /**
     * The suggestion timer fired with the search's outcome; a failure gives no
     * suggestions. The query searched and the page size asked for are returned.
     */
    method SuggestionsFetched(result: Option<seq<Operadora>>) returns (searched: string, pageSize: int)
      requires pendingSearch.Some?
      modifies this`suggestions, this`pendingSearch
      ensures searched == old(pendingSearch.value) && pageSize == SuggestionPageSize && pendingSearch.None?
      ensures suggestions == result.GetOr([])
    {
      searched := pendingSearch.value;
      pageSize := SuggestionPageSize;
      pendingSearch := None;
      suggestions := result.GetOr([]);
    }

    /** The load effect, run after the selection changed: no operator clears the records, one starts loading them. */
    method LoadEffect() returns (requested: Option<string>)
      modifies this`reajustes, this`loading, this`error
      ensures selected.None? ==> requested.None? && reajustes.Length == 0 && fresh(reajustes)
      ensures selected.None? ==> loading == old(loading) && error == old(error)
      ensures selected.Some? ==> requested == Some(selected.value.registroAns) && loading && error.None?
      ensures selected.Some? ==> reajustes == old(reajustes)
    {
      if selected.None? {
        reajustes := new Reajuste[0];
        return None;
      }
      loading := true;
      error := None;
      requested := Some(selected.value.registroAns);
    }

    /** The readjustments arrived, or the request failed with a message. */
    method ReajustesLoaded(result: Option<seq<Reajuste>>, message: string)
      modifies this`reajustes, this`loading, this`error
      ensures !loading
      ensures result.Some? ==> fresh(reajustes) && reajustes[..] == result.value && error == old(error)
      ensures result.None? ==> reajustes == old(reajustes) && error == Some(message)
    {
      if result.Some? {
        var rs := result.value;
        reajustes := new Reajuste[|rs|](i requires 0 <= i < |rs| => rs[i]);
      } else {
        error := Some(message);
      }
      loading := false;
    }

    /**
     * `selectOperadora`, then its effects: the operator is selected, the
     * query shows its name, the suggestions are cleared, and its records
     * are requested.
     */
    method SelectOperadora(op: Operadora) returns (requested: Option<string>)
      modifies this`selected, this`searchQuery, this`suggestions, this`pendingSearch, this`reajustes, this`loading, this`error
      ensures selected == Some(op) && searchQuery == DisplayName(op)
      ensures suggestions == [] && pendingSearch.None?
      ensures requested == Some(op.registroAns) && loading && error.None?
      ensures reajustes == old(reajustes)
    {
      selected := Some(op);
      searchQuery := DisplayName(op);
      suggestions := [];
      SuggestionEffect();
      requested := LoadEffect();
    }

    /** Typing into the search box; typing after a selection drops the selection and its records. */
    method Type(text: string)
      modifies this`selected, this`searchQuery, this`suggestions, this`pendingSearch, this`reajustes, this`loading, this`error
      ensures searchQuery == text && selected.None?
      ensures old(selected).Some? ==> reajustes.Length == 0
      ensures old(selected).None? ==> reajustes == old(reajustes)
      ensures Trim(text) == "" ==> suggestions == [] && pendingSearch.None?
      ensures Trim(text) != "" ==> pendingSearch == Some(text) && suggestions == old(suggestions)
      ensures loading == old(loading) && error == old(error)
    {
      searchQuery := text;
      var wasSelected := selected.Some?;
      selected := None;
      SuggestionEffect();
      if wasSelected {
        var _ := LoadEffect();
      }
    }

    /** `clearSelection`: no operator, an empty query, no records, no suggestions; a load still running and an earlier error stay as they were. */
    method ClearSelection()
      modifies this`selected, this`searchQuery, this`suggestions, this`pendingSearch, this`reajustes, this`loading, this`error
      ensures selected.None? && searchQuery == "" && reajustes.Length == 0 && fresh(reajustes)
      ensures suggestions == [] && pendingSearch.None?
      ensures loading == old(loading) && error == old(error)
    {
      selected := None;
      searchQuery := "";
      reajustes := new Reajuste[0];
      SuggestionEffect();
      var _ := LoadEffect();
    }

    /** The detail table: the records are sorted by year descending, in place. */
    method RenderTable() returns (rows: seq<Reajuste>)
      modifies reajustes
      ensures reajustes[..] == SortBy(old(reajustes[..]), ByAnoDesc)
      ensures rows == reajustes[..]
    {
      SortInPlace(reajustes, ByAnoDesc);
      rows := reajustes[..];
    }
  }
}
