/**
 * The plan detail page: the hero price with its gating, the table of
 * monthly prices by age bracket, the complaint and IDSS sub-index labels,
 * the covered municipalities, and the persisted age bracket.
 */
module PlanoDetalhe {
  import opened Wrappers
  import opened Text
  import opened Sorting
  import opened WebStorage
  import opened Utils
  import opened Comparar
  import PlanCard

  /** One bracket of the plan's price list: the bracket and its VCM, if any. */
  type Faixa = (string, Option<real>)

  /**
   * The hero price: the plan's own monthly price, otherwise the VCM of the
   * selected bracket (when the price list is loaded and a bracket chosen).
   */
  function HeroPrice(preco: Option<real>, faixas: seq<Faixa>, faixa: string): (r: Option<real>)
    ensures preco.Some? ==> r == preco
    ensures preco.None? && (faixas == [] || faixa == "") ==> r.None?
    ensures preco.None? && r.Some? ==> exists i :: 0 <= i < |faixas| && faixas[i].0 == faixa && faixas[i].1 == r
    ensures preco.None? && faixas != [] && faixa != "" ==> r == MatchedVcm(faixas, faixa)
    ensures preco.None? && (forall i :: 0 <= i < |faixas| ==> faixas[i].0 != faixa) ==> r.None?
  {
    if preco.Some? then preco
    else if |faixas| > 0 && faixa != "" then MatchedVcm(faixas, faixa)
    else None
  }

  /** The hero price block: the teaser, the plan's price, the matched VCM (or "N/D") with the bracket select, or "N/D". */
  datatype Hero = HeroTeaser(level: string) | HeroPriceShown(value: real) | HeroMatched(vcm: Option<real>) | HeroNoPrice

  function HeroView(isLead: bool, preco: Option<real>, faixas: seq<Faixa>, faixa: string): Hero
  {
    var level := GetPriceLevel(HeroPrice(preco, faixas, faixa));
    if !isLead && level.Some? then HeroTeaser(level.value)
    else if preco.Some? then HeroPriceShown(preco.value)
    else if |faixas| > 0 && faixa != "" then HeroMatched(MatchedVcm(faixas, faixa))
    else HeroNoPrice
  }

  /** The value a hero shows, if it shows one. */
  function Shown(h: Hero): Option<real>
  {
    match h
    case HeroPriceShown(v) => Some(v)
    case HeroMatched(vcm) => vcm
    case _ => None
  }

  /**
   * A visitor never sees a price and sees the teaser exactly when there is
   * a hero price; a lead never sees the teaser and sees exactly the hero
   * price.
   */
  lemma HeroGating(isLead: bool, preco: Option<real>, faixas: seq<Faixa>, faixa: string)
    ensures var h := HeroView(isLead, preco, faixas, faixa);
      var p := HeroPrice(preco, faixas, faixa);
      (!isLead ==> Shown(h).None? && (h.HeroTeaser? <==> p.Some?))
      && (h.HeroTeaser? ==> h.level == GetPriceLevel(p).value)
      && (isLead ==> !h.HeroTeaser? && Shown(h) == p)
  {
    PriceLevelCountsThresholds(HeroPrice(preco, faixas, faixa));
  }

  const VisitorRows := 3

  /** The price table: hidden without prices, every bracket for a lead, the first three blurred for a visitor. */
  datatype VcmTable = NoTable | FullTable(rows: seq<Faixa>) | BlurredTable(rows: seq<Faixa>)

  function VcmTableOf(isLead: bool, faixas: seq<Faixa>): VcmTable
  {
    if faixas == [] then NoTable
    else if isLead then FullTable(faixas)
    else BlurredTable(faixas[..if |faixas| < VisitorRows then |faixas| else VisitorRows])
  }

  /** A lead sees every bracket; a visitor at most the first three, in order, and never the whole list when it is longer. */
  lemma VcmTableGating(isLead: bool, faixas: seq<Faixa>)
    ensures VcmTableOf(isLead, faixas).NoTable? <==> faixas == []
    ensures isLead && faixas != [] ==> VcmTableOf(isLead, faixas) == FullTable(faixas)
    ensures !isLead && faixas != [] ==> var t := VcmTableOf(isLead, faixas);
      t.BlurredTable? && t.rows <= faixas && |t.rows| <= VisitorRows
      && |t.rows| == (if |faixas| < VisitorRows then |faixas| else VisitorRows)
  {
  }

  /** The complaint label: at most 30 is below average. */
  function IgrLabel(indice: Option<real>): string
  {
    if indice.None? then "Sem dados"
    else if indice.value <= 30.0 then "Abaixo da média"
    else "Acima da média"
  }

  /** A lower index never gets a worse label than a higher one. */
  lemma IgrLabelMonotone(a: real, b: real)
    requires a <= b
    ensures IgrLabel(Some(b)) == "Abaixo da média" ==> IgrLabel(Some(a)) == "Abaixo da média"
    ensures IgrLabel(Some(a)) == "Acima da média" ==> IgrLabel(Some(b)) == "Acima da média"
    ensures IgrLabel(Some(a)) != "Sem dados"
  {
  }

  /** The colour of an IDSS sub-index: green from 0.7, amber from 0.4, red below, grey without a value. */
  function SubIndexColor(value: Option<real>): string
  {
    if value.None? then "text-gray-400"
    else if value.value >= 0.7 then "text-green-700"
    else if value.value >= 0.4 then "text-amber-700"
    else "text-red-700"
  }

  function ColorRank(c: string): nat
  {
    if c == "text-green-700" then 3 else if c == "text-amber-700" then 2 else if c == "text-red-700" then 1 else 0
  }

  /** A higher sub-index never gets a worse colour, and only a missing value is grey. */
  lemma SubIndexColorMonotone(a: real, b: real)
    requires a <= b
    ensures 1 <= ColorRank(SubIndexColor(Some(a))) <= ColorRank(SubIndexColor(Some(b)))
    ensures SubIndexColor(None) == "text-gray-400" && ColorRank(SubIndexColor(None)) == 0
  {
  }

  // ------------------------------------------------------ covered municipalities

  type UfMunicipios = (string, seq<string>)

  const ShownMunicipios := 10

  /** The total in the heading: the sum of the per-UF list lengths. */
  function TotalMunicipios(entries: seq<UfMunicipios>): nat
  {
    if entries == [] then 0 else TotalMunicipios(entries[..|entries| - 1]) + |entries[|entries| - 1].1|
  }

  /** One UF's line: its code, its count, the names shown and the "+n mais" remainder. */
  datatype UfLine = UfLine(uf: string, count: nat, shown: seq<string>, more: Option<nat>)

  function Line(e: UfMunicipios): UfLine
  {
    var n := |e.1|;
    UfLine(e.0, n, e.1[..if n < ShownMunicipios then n else ShownMunicipios],
      if n > ShownMunicipios then Some(n - ShownMunicipios) else None)
  }

  /** A line shows the first ten names at most and counts the rest, so nothing is lost. */
  lemma LineFacts(e: UfMunicipios)
    ensures var l := Line(e);
      l.shown <= e.1 && |l.shown| <= ShownMunicipios
      && (l.more.Some? <==> |e.1| > ShownMunicipios)
      && |l.shown| + l.more.GetOr(0) == |e.1| == l.count
  {
  }

  predicate ByUf(a: UfMunicipios, b: UfMunicipios)
  {
    LexLe(a.0, b.0)
  }

  lemma ByUfTotalPreorder()
    ensures TotalPreorder(ByUf)
  {
    forall a: UfMunicipios, b: UfMunicipios ensures ByUf(a, b) || ByUf(b, a) {
      LexLeTotal(a.0, b.0);
    }
    forall a: UfMunicipios, b: UfMunicipios, c: UfMunicipios | ByUf(a, b) && ByUf(b, c) ensures ByUf(a, c) {
      LexLeTransitive(a.0, b.0, c.0);
    }
  }

  /** The lines in UF order. */
  function UfLines(entries: seq<UfMunicipios>): seq<UfLine>
  {
    var sorted := SortBy(entries, ByUf);
    seq(|sorted|, i requires 0 <= i < |sorted| => Line(sorted[i]))
  }

  lemma {:induction false} TotalInsert(t: seq<UfMunicipios>, x: UfMunicipios)
    ensures TotalMunicipios(Insert(t, x, ByUf)) == TotalMunicipios(t) + |x.1|
    decreases |t|
  {
    if t != [] && !ByUf(t[|t| - 1], x) {
      var init := t[..|t| - 1];
      TotalInsert(init, x);
      var ins := Insert(init, x, ByUf);
      var r := ins + [t[|t| - 1]];
      assert r[..|r| - 1] == ins;
    } else if t != [] {
      var r := t + [x];
      assert r[..|r| - 1] == t;
    } else {
      assert [x][..0] == [];
    }
  }

  /** Sorting the UFs does not change the total. */
  lemma {:induction false} TotalSorted(entries: seq<UfMunicipios>)
    ensures TotalMunicipios(SortBy(entries, ByUf)) == TotalMunicipios(entries)
    decreases |entries|
  {
    if entries != [] {
      TotalSorted(entries[..|entries| - 1]);
      TotalInsert(SortBy(entries[..|entries| - 1], ByUf), entries[|entries| - 1]);
    }
  }

  /**
   * The UF lines are in UF order, list the same UFs, and their counts add
   * up to the total in the heading.
   */
  lemma UfLinesFacts(entries: seq<UfMunicipios>)
    ensures var lines := UfLines(entries);
      var sorted := SortBy(entries, ByUf);
      |lines| == |entries|
      && (forall i, j :: 0 <= i < j < |lines| ==> LexLe(lines[i].uf, lines[j].uf))
      && (forall i :: 0 <= i < |lines| ==> lines[i] == Line(sorted[i]))
      && multiset(sorted) == multiset(entries)
      && TotalMunicipios(sorted) == TotalMunicipios(entries)
  {
    ByUfTotalPreorder();
    SortBySorted(entries, ByUf);
    SortByPermutes(entries, ByUf);
    TotalSorted(entries);
    assert |multiset(SortBy(entries, ByUf))| == |multiset(entries)|;
  }

  // ------------------------------------------------------------------ page

  /** The fields of the plan the modelled parts of the page read. */
  datatype PlanoDetail = PlanoDetail(
    precoMensal: Option<real>,
    igrIndice: Option<real>,
    temPenalidades: bool,
    qtdPenalidades: int,
    municipiosPorUf: seq<UfMunicipios>)

  /**
   * The penalty tag of the page header: shown only for a plan with
   * penalties, with the count and "penalidade" in the singular exactly for
   * one, the same label as the plan card's badge.
   */
  function PenaltyTag(p: PlanoDetail): (r: Option<string>)
    ensures r.Some? <==> p.temPenalidades
    ensures r.Some? ==> PlanCard.StartsWithCount(r.value, p.qtdPenalidades) && (r.value[|r.value| - 1] == 's' <==> p.qtdPenalidades != 1)
    ensures r == PlanCard.PenaltyBadge(p.temPenalidades, p.qtdPenalidades)
  {
    PlanCard.PenaltyLabelPlural(p.qtdPenalidades);
    if p.temPenalidades then Some(PlanCard.PenaltyLabel(p.qtdPenalidades)) else None
  }

  const LoadError := "Erro ao carregar plano"

  class PlanoPage {
    const storage: Storage
    var faixaEtaria: string
    var loading: bool
    var error: Option<string>
    var plano: Option<PlanoDetail>

    /**
     * The bracket starts as the saved one, an old code migrated to its
     * current band, and the persistence effect stores it once on mount;
     * no other key of the storage changes.
     */
    constructor (st: Storage)
      modifies st
      ensures storage == st && loading && error.None? && plano.None?
      ensures faixaEtaria !in FaixaMigration
      ensures var raw := old(st.Get(FaixaStorageKey)).GetOr("");
        faixaEtaria == if raw in FaixaMigration then FaixaMigration[raw] else raw
      ensures forall k :: k != FaixaStorageKey ==> st.Get(k) == old(st.Get(k))
      ensures st.available == old(st.available)
      ensures st.available ==> st.Get(FaixaStorageKey) == if faixaEtaria != "" then Some(faixaEtaria) else None
    {
      storage := st;
      loading := true;
      error := None;
      plano := None;
      var saved := GetSavedFaixaEtaria(st);
      faixaEtaria := saved;
      SaveFaixaEtaria(st, saved);
    }

    /** Choosing a bracket stores it. */
    method SetFaixaEtaria(value: string)
      modifies this`faixaEtaria, storage
      ensures faixaEtaria == value
      ensures storage.available == old(storage.available)
      ensures storage.items == if !storage.available then old(storage.items)
                               else if value != "" then old(storage.items)[FaixaStorageKey := value]
                               else old(storage.items) - {FaixaStorageKey}
    {
      faixaEtaria := value;
      SaveFaixaEtaria(storage, value);
    }

    /** The plan fetch settled: the plan, or the error message (a default one when empty). */
    method Loaded(result: Option<PlanoDetail>, message: string)
      modifies this`loading, this`error, this`plano
      ensures !loading
      ensures result.Some? ==> plano == result && error == old(error)
      ensures result.None? ==> plano == old(plano) && error == Some(if message != "" then message else LoadError)
    {
      if result.Some? {
        plano := result;
      } else {
        error := Some(if message != "" then message else LoadError);
      }
      loading := false;
    }
  }
}
