/** Reference price ranges per contract type and age band, loaded once, with a lookup. */
module UseFaixasPreco {
  import opened Wrappers

  datatype FaixaPrecoItem = FaixaPrecoItem(tipoContratacao: string, faixaEtaria: string, valorMin: real, valorMax: real)

  predicate Matches(item: FaixaPrecoItem, tipo: string, faixa: string)
  {
    item.tipoContratacao == tipo && item.faixaEtaria == faixa
  }

  function Find(items: seq<FaixaPrecoItem>, tipo: string, faixa: string): (r: Option<nat>)
    ensures r.Some? ==> r.value < |items| && Matches(items[r.value], tipo, faixa)
    ensures r.Some? ==> forall j :: 0 <= j < r.value ==> !Matches(items[j], tipo, faixa)
    ensures r.None? ==> forall j :: 0 <= j < |items| ==> !Matches(items[j], tipo, faixa)
  {
    if items == [] then None
    else if Matches(items[0], tipo, faixa) then Some(0)
    else match Find(items[1..], tipo, faixa)
      case None => None
      case Some(i) => Some(i + 1)
  }

  /**
   * `lookup(tipo, faixa)`: no answer when either argument is missing or empty;
   * otherwise the first item with that contract type and age band, if any.
   */
  function Lookup(items: seq<FaixaPrecoItem>, tipo: Option<string>, faixa: Option<string>): (r: Option<FaixaPrecoItem>)
    ensures (tipo.None? || tipo.value == "" || faixa.None? || faixa.value == "") ==> r.None?
    ensures r.Some? ==> r.value in items && Matches(r.value, tipo.value, faixa.value)
    ensures r.Some? ==>
      exists i :: 0 <= i < |items| && r.value == items[i] && forall j :: 0 <= j < i ==> !Matches(items[j], tipo.value, faixa.value)
    ensures (tipo.Some? && tipo.value != "" && faixa.Some? && faixa.value != ""
             && exists j :: 0 <= j < |items| && Matches(items[j], tipo.value, faixa.value)) ==> r.Some?
  {
    if tipo.None? || tipo.value == "" || faixa.None? || faixa.value == "" then None
    else match Find(items, tipo.value, faixa.value)
      case None => None
      case Some(i) => Some(items[i])
  }

  /** The hook's state: the items and whether they are still loading. */
  class FaixasPreco {
    var items: seq<FaixaPrecoItem>
    var loading: bool

    constructor ()
      ensures items == [] && loading
    {
      items := [];
      loading := true;
    }

    /** The request settled: its items, or none when it failed. */
    method Loaded(outcome: Option<seq<FaixaPrecoItem>>)
      modifies this
      ensures items == outcome.GetOr([]) && !loading
      ensures outcome.None? ==> forall t, f :: Lookup(items, t, f).None?
    {
      items := outcome.GetOr([]);
      loading := false;
    }
  }
}
