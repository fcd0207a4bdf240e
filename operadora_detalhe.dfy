/**
 * The operator detail page: the combined fetch of the operator and its
 * plans, the latest IDSS entry and the IDSS chart (whose sort reorders the
 * operator's history in place), the complaint colours and the location.
 */
module OperadoraDetalhe {
  import opened Wrappers
  import opened Sorting
  import opened ApiClient

  const PlanosPageSize := 6
  const LoadError := "Erro ao carregar operadora"

  /** The comparator `(a, b) => a.ano - b.ano` on IDSS entries. */
  predicate ByIdssYear(a: IdssEntry, b: IdssEntry)
  {
    a.ano <= b.ano
  }

  lemma ByIdssYearTotalPreorder()
    ensures TotalPreorder(ByIdssYear)
  {
  }

  /** The colour of a complaint index: success up to 30, warning up to 60, danger above. */
  function IgrColor(indice: real): string
  {
    if indice <= 30.0 then "text-success" else if indice <= 60.0 then "text-warning" else "text-danger"
  }

  function ColorRank(c: string): nat
  {
    if c == "text-success" then 0 else if c == "text-warning" then 1 else 2
  }

  /** More complaints never get a better colour. */
  lemma IgrColorMonotone(a: real, b: real)
    requires a <= b
    ensures ColorRank(IgrColor(a)) <= ColorRank(IgrColor(b))
    ensures IgrColor(a) == "text-danger" ==> a > 60.0
    ensures IgrColor(b) == "text-success" ==> IgrColor(a) == "text-success"
  {
  }

  /** "cidade - UF" when there is a city, the UF alone otherwise. */
  function Location(cidade: string, uf: string): (r: string)
    ensures cidade == "" ==> r == uf
    ensures cidade != "" ==> |r| == |cidade| + 3 + |uf| && r[..|cidade|] == cidade && r[|cidade|..|cidade| + 3] == " - " && r[|cidade| + 3..] == uf
  {
    (if cidade != "" then cidade + " - " else "") + uf
  }

  /**
   * The last entry of a history sorted by year has the greatest year: from
   * the second render on, the latest entry is one with the greatest year,
   * whatever order the server sent.
   */
  lemma SortedLastIsLatest(s: seq<IdssEntry>)
    requires s != []
    ensures var t := SortBy(s, ByIdssYear);
      |t| == |s| && t[|t| - 1] in s && forall e :: e in s ==> e.ano <= t[|t| - 1].ano
  {
    var t := SortBy(s, ByIdssYear);
    ByIdssYearTotalPreorder();
    SortBySorted(s, ByIdssYear);
    SortByPermutes(s, ByIdssYear);
    assert |multiset(t)| == |multiset(s)|;
    assert t[|t| - 1] in multiset(s);
    forall e | e in s ensures e.ano <= t[|t| - 1].ano {
      assert e in multiset(t);
      var i :| 0 <= i < |t| && t[i] == e;
      if i < |t| - 1 {
        assert ByIdssYear(t[i], t[|t| - 1]);
      }
    }
  }

  /** The result of the plan search, or the empty page its failure degrades to. */
  datatype PlanosResult = PlanosResult(items: seq<int>, total: int)

  class OperadoraPage {
    var loading: bool
    var error: Option<string>
    var operadora: Option<OperadoraDetail>
    /** The operator's `idss_historico`, the array the chart sorts. */
    var idssHistorico: array<IdssEntry>
    var planos: seq<int>

    constructor ()
      ensures loading && error.None? && operadora.None? && planos == [] && idssHistorico.Length == 0
    {
      loading := true;
      error := None;
      operadora := None;
      idssHistorico := new IdssEntry[0];
      planos := [];
    }

    /**
     * Both fetches settled. A failed operator fetch shows the error (a
     * default message when empty); otherwise the operator is shown with
     * `total_planos` replaced by the plan search's total, which a failed
     * plan search turns into 0 plans.
     */
    method Loaded(op: Option<OperadoraDetail>, planosRes: Option<PlanosResult>, message: string)
      modifies this`loading, this`error, this`operadora, this`idssHistorico, this`planos
      ensures !loading
      ensures op.None? ==> error == Some(if message != "" then message else LoadError)
      ensures op.None? ==> operadora == old(operadora) && planos == old(planos) && idssHistorico == old(idssHistorico)
      ensures op.Some? && planosRes.Some? ==> operadora == Some(op.value.(totalPlanos := planosRes.value.total))
      ensures op.Some? && planosRes.Some? ==> planos == planosRes.value.items
      ensures op.Some? && planosRes.None? ==> operadora == Some(op.value.(totalPlanos := 0)) && planos == []
      ensures op.Some? ==> fresh(idssHistorico) && idssHistorico[..] == op.value.idssHistorico && error == old(error)
    {
      if op.None? {
        error := Some(if message != "" then message else LoadError);
      } else {
        var res := planosRes.GetOr(PlanosResult([], 0));
        operadora := Some(op.value.(totalPlanos := res.total));
        var h := op.value.idssHistorico;
        idssHistorico := new IdssEntry[|h|](i requires 0 <= i < |h| => h[i]);
        planos := res.items;
      }
      loading := false;
    }

    /**
     * One render: `latestIdss` is taken as the last entry of the history
     * as it stands, then the chart sorts the history by year in place and
     * maps it. On the first render the latest entry is the last one the
     * server sent; the history stays sorted for every later render.
     */
    method Render() returns (latest: Option<IdssEntry>, chart: seq<IdssEntry>)
      modifies idssHistorico
      ensures latest == if old(idssHistorico.Length) > 0 then Some(old(idssHistorico[idssHistorico.Length - 1])) else None
      ensures idssHistorico[..] == SortBy(old(idssHistorico[..]), ByIdssYear)
      ensures chart == idssHistorico[..]
    {
      var a := idssHistorico;
      latest := if a.Length > 0 then Some(a[a.Length - 1]) else None;
      SortInPlace(a, ByIdssYear);
      chart := a[..];
    }
  }
}
