/**
 * The REST client: query-string building, the reshaping of an operator's
 * record (IDSS history, complaint index, readjustments), the comparison
 * request, and the readjustment history flattened from per-type series.
 */
module ApiClient {
  import opened Wrappers
  import opened Text
  import opened Numbers
  import opened UrlParams
  import opened Sorting

  // ------------------------------------------------------------ buildQuery

  /** Entries of a parameter object with a value that is neither `null`/`undefined` nor `""`, in order. */
  function PresentEntries(entries: seq<(string, Option<string>)>): (r: Params)
    ensures forall p :: p in r ==> p.1 != "" && (p.0, Some(p.1)) in entries
  {
    if entries == [] then []
    else
      var last := entries[|entries| - 1];
      PresentEntries(entries[..|entries| - 1])
        + (if last.1.Some? && last.1.value != "" then [(last.0, last.1.value)] else [])
  }

  /** The names of an object's entries are distinct. */
  predicate DistinctNames(entries: seq<(string, Option<string>)>)
  {
    forall i, j :: 0 <= i < j < |entries| ==> entries[i].0 != entries[j].0
  }

  /** The query string `buildQuery` produces: `?` and the serialized pairs, or nothing when no entry has a value. */
  function QueryString(entries: seq<(string, Option<string>)>, enc: string -> string): string
  {
    var ps := PresentEntries(entries);
    if ps == [] then "" else "?" + Serialize(ps, enc)
  }

  lemma {:induction false} PresentNames(entries: seq<(string, Option<string>)>, name: string)
    ensures Has(PresentEntries(entries), name) ==> exists j :: 0 <= j < |entries| && entries[j].0 == name
    decreases |entries|
  {
    if entries != [] {
      var init := entries[..|entries| - 1];
      PresentNames(init, name);
      var last := entries[|entries| - 1];
      var tail: Params := if last.1.Some? && last.1.value != "" then [(last.0, last.1.value)] else [];
      GetAppend(PresentEntries(init), tail, name);
      if Has(PresentEntries(init), name) {
        var j :| 0 <= j < |init| && init[j].0 == name;
        assert entries[j].0 == name;
      }
    }
  }

  /**
   * `buildQuery(params)`: each entry with a value is `set` in turn; the
   * result is `?` and the serialization, or `""` when no entry has a value.
   */
  method BuildQuery(entries: seq<(string, Option<string>)>, enc: string -> string) returns (q: string)
    requires DistinctNames(entries)
    ensures q == QueryString(entries, enc)
    ensures q == "" <==> forall i :: 0 <= i < |entries| ==> entries[i].1.None? || entries[i].1.value == ""
  {
    var searchParams: Params := [];
    for i := 0 to |entries|
      invariant searchParams == PresentEntries(entries[..i])
    {
      var key := entries[i].0;
      var value: Option<string> := entries[i].1;
      assert entries[..i + 1][..i] == entries[..i];
      if value.Some? && value.value != "" {
        PresentNames(entries[..i], key);
        searchParams := Set(searchParams, key, value.value);
      }
    }
    assert entries[..|entries|] == entries;
    SerializeEmpty(searchParams, enc);
    var qs := Serialize(searchParams, enc);
    q := if qs != "" then "?" + qs else "";
    PresentEmpty(entries);
  }

  lemma {:induction false} PresentEmpty(entries: seq<(string, Option<string>)>)
    ensures PresentEntries(entries) == [] <==> forall i :: 0 <= i < |entries| ==> entries[i].1.None? || entries[i].1.value == ""
    decreases |entries|
  {
    if entries != [] {
      PresentEmpty(entries[..|entries| - 1]);
    }
  }

  /** With distinct names, the built query holds each entry's value exactly when it is neither missing nor `""`. */
  lemma {:induction false} PresentGet(entries: seq<(string, Option<string>)>, k: nat)
    requires DistinctNames(entries) && k < |entries|
    ensures Get(PresentEntries(entries), entries[k].0) ==
      if entries[k].1.Some? && entries[k].1.value != "" then entries[k].1 else None
    decreases |entries|
  {
    var init := entries[..|entries| - 1];
    var last := entries[|entries| - 1];
    var tail: Params := if last.1.Some? && last.1.value != "" then [(last.0, last.1.value)] else [];
    var name := entries[k].0;
    GetAppend(PresentEntries(init), tail, name);
    if k < |entries| - 1 {
      PresentGet(init, k);
      assert init[k] == entries[k];
      assert tail != [] ==> tail[0].0 != name;
      assert Get(tail, name) == None by {
        if tail != [] { assert Get(tail, name) == Get([], name); }
      }
    } else {
      PresentNames(init, name);
      assert !Has(PresentEntries(init), name);
      if tail != [] { assert Get(tail, name) == Some(last.1.value); }
    }
  }

  /** `ids.join(",")` with every id written by `String`. */
  function JoinIds(ids: seq<int>): string
  {
    JoinWith(seq(|ids|, i requires 0 <= i < |ids| => IntToString(ids[i])), ",")
  }

  /** The request path of `compararPlanos(ids)`. */
  function CompararPath(ids: seq<int>, enc: string -> string): string
  {
    "/api/v1/planos/comparar" + QueryString([("ids", Some(JoinIds(ids)))], enc)
  }

  /** Some ids give exactly one `ids` parameter holding them comma-separated; no ids give no query at all. */
  lemma CompararPathShape(ids: seq<int>, enc: string -> string)
    ensures ids != [] ==> CompararPath(ids, enc) == "/api/v1/planos/comparar?" + enc("ids") + "=" + enc(JoinIds(ids))
    ensures ids == [] ==> CompararPath(ids, enc) == "/api/v1/planos/comparar"
  {
    var es := [("ids", Some(JoinIds(ids)))];
    assert es[..0] == [];
    if ids != [] {
      assert JoinIds(ids) != "" by {
        var parts := seq(|ids|, i requires 0 <= i < |ids| => IntToString(ids[i]));
        JoinNonEmpty(parts);
      }
    }
  }

  lemma JoinNonEmpty(parts: seq<string>)
    requires parts != [] && parts[0] != ""
    ensures JoinWith(parts, ",") != ""
  {
  }

  // -------------------------------------------------- operator record reshaping

  /** An IDSS row of the API. */
  datatype RawIdss = RawIdss(anoReferencia: int, idss: Option<real>, idqs: Option<real>, idga: Option<real>, idsm: Option<real>, idgr: Option<real>)

  datatype IdssEntry = IdssEntry(ano: int, notaFinal: real, idqs: Option<real>, idga: Option<real>, idsm: Option<real>, idgr: Option<real>)

  /** A missing final score becomes 0; the four sub-indices stay missing. */
  function ToIdssEntry(raw: RawIdss): (e: IdssEntry)
    ensures e.ano == raw.anoReferencia
    ensures e.notaFinal == raw.idss.GetOr(0.0)
    ensures e.idqs == raw.idqs && e.idga == raw.idga && e.idsm == raw.idsm && e.idgr == raw.idgr
  {
    IdssEntry(raw.anoReferencia, raw.idss.GetOr(0.0), raw.idqs, raw.idga, raw.idsm, raw.idgr)
  }

  /** The first `n` characters, as `substring(0, n)` clamps. */
  function Prefix(s: string, n: nat): string
  {
    if |s| <= n then s else s[..n]
  }

  /** `substring(from, to)` with `from <= to`, clamped to the string. */
  function Substring(s: string, from: nat, to: nat): string
    requires from <= to
  {
    var a := if from <= |s| then from else |s|;
    var b := if to <= |s| then to else |s|;
    s[a..b]
  }

  /** `parseInt(x, 10) || d`: NaN and 0 both fall back to `d`. */
  function ParseIntOr(x: string, d: int): int
  {
    match ParseInt(x)
    case None => d
    case Some(n) => if n == 0 then d else n
  }

  /** Year and quarter of a complaint-index row from its `competencia` (`YYYYMM`). */
  function IgrPeriod(competencia: Option<string>): (int, int)
  {
    var comp := competencia.GetOr("");
    var year := ParseIntOr(Substring(comp, 0, 4), 0);
    var month := ParseIntOr(Substring(comp, 4, 6), 1);
    (year, CeilDiv(month, 3))
  }

  /**
   * For `YYYYMM` with a month from 1 to 12 the quarter is the month's quarter
   * (1 to 4) and the year is `YYYY`.
   */
  lemma IgrPeriodOfCompetencia(y: string, m: string)
    requires |y| == 4 && AllDigits(y) && |m| == 2 && AllDigits(m)
    requires 1 <= DecimalValue(m) <= 12
    ensures IgrPeriod(Some(y + m)).0 == (if DecimalValue(y) == 0 then 0 else DecimalValue(y))
    ensures IgrPeriod(Some(y + m)).1 == (DecimalValue(m) + 2) / 3
    ensures 1 <= IgrPeriod(Some(y + m)).1 <= 4
  {
    var comp := y + m;
    assert Substring(comp, 0, 4) == y + [] by {
      assert comp[0..4] == y;
    }
    assert Substring(comp, 4, 6) == m + [] by {
      assert comp[4..6] == m;
    }
    ParseIntStopsAtNonDigit(y, []);
    ParseIntStopsAtNonDigit(m, []);
    var month := DecimalValue(m);
    assert ParseIntOr(Substring(comp, 4, 6), 1) == month;
    QuarterOfMonth(month);
  }

  /** A bare four-character year has no month, which counts as January: the first quarter. */
  lemma IgrPeriodOfYear(y: string)
    requires |y| == 4
    ensures IgrPeriod(Some(y)).1 == 1
  {
    assert Substring(y, 4, 6) == [];
    assert ParseInt([]) == None;
    assert ParseIntOr([], 1) == 1;
    assert CeilDiv(1, 3) == 1;
  }

  lemma QuarterOfMonth(month: int)
    requires 1 <= month <= 12
    ensures CeilDiv(month, 3) == (month + 2) / 3
    ensures 1 <= CeilDiv(month, 3) <= 4
  {
  }

  /** A complaint-index row of the API. */
  datatype RawIgr = RawIgr(competencia: Option<string>, indiceReclamacao: Option<real>)

  datatype IgrEntry = IgrEntry(ano: int, trimestre: int, indice: real)

  /** Year and quarter come from `competencia`; a missing index becomes 0. */
  function ToIgrEntry(raw: RawIgr): (e: IgrEntry)
    ensures (e.ano, e.trimestre) == IgrPeriod(raw.competencia)
    ensures e.indice == raw.indiceReclamacao.GetOr(0.0)
  {
    var (ano, trimestre) := IgrPeriod(raw.competencia);
    IgrEntry(ano, trimestre, raw.indiceReclamacao.GetOr(0.0))
  }

  /** A missing or empty `competencia` is the first quarter of year 0. */
  lemma IgrPeriodMissing()
    ensures IgrPeriod(None) == (0, 1)
    ensures IgrPeriod(Some("")) == (0, 1)
  {
    assert Substring("", 0, 4) == [];
    assert Substring("", 4, 6) == [];
    assert ParseInt([]) == None;
    assert ParseIntOr([], 0) == 0 && ParseIntOr([], 1) == 1;
    assert CeilDiv(1, 3) == 1;
  }

  /** A readjustment row of the operator record, as the API sends it. */
  datatype RawReajuste = RawReajuste(ciclo: string, pctUnico: Option<real>, tipoAgrupamento: Option<string>)

  datatype Reajuste = Reajuste(ano: int, percentual: real, tipoPlano: string)

  /** The year is `parseInt(ciclo) || 0`, a missing percentage is 0, a missing or empty type is `geral`. */
  function ToReajuste(raw: RawReajuste): (r: Reajuste)
    ensures r.percentual == raw.pctUnico.GetOr(0.0)
    ensures r.tipoPlano != ""
    ensures raw.tipoAgrupamento.Some? && raw.tipoAgrupamento.value != "" ==> r.tipoPlano == raw.tipoAgrupamento.value
    ensures ParseInt(raw.ciclo).None? ==> r.ano == 0
    ensures ParseInt(raw.ciclo).Some? ==> r.ano == ParseInt(raw.ciclo).value
  {
    var tipo := raw.tipoAgrupamento.GetOr("");
    Reajuste(ParseIntOr(raw.ciclo, 0), raw.pctUnico.GetOr(0.0), if tipo != "" then tipo else "geral")
  }

  /** The operator record as the API sends it; lists and scores may be missing. */
  datatype RawOperadora = RawOperadora(
    idssScores: Option<seq<RawIdss>>,
    igrReclamacoes: Option<seq<RawIgr>>,
    reajustes: Option<seq<RawReajuste>>,
    idssScore: Option<real>,
    latestIdss: Option<real>)

  datatype OperadoraDetail = OperadoraDetail(
    idssHistorico: seq<IdssEntry>,
    igrReclamacoes: seq<IgrEntry>,
    reajustes: seq<Reajuste>,
    idssScore: Option<real>,
    totalPlanos: int)

  /** `getOperadora`'s reshaping of the record. */
  function ToOperadoraDetail(raw: RawOperadora): (d: OperadoraDetail)
    ensures |d.idssHistorico| == |raw.idssScores.GetOr([])|
    ensures forall i :: 0 <= i < |d.idssHistorico| ==> d.idssHistorico[i] == ToIdssEntry(raw.idssScores.value[i])
    ensures |d.igrReclamacoes| == |raw.igrReclamacoes.GetOr([])|
    ensures forall i :: 0 <= i < |d.igrReclamacoes| ==> d.igrReclamacoes[i] == ToIgrEntry(raw.igrReclamacoes.value[i])
    ensures |d.reajustes| == |raw.reajustes.GetOr([])|
    ensures forall i :: 0 <= i < |d.reajustes| ==> d.reajustes[i] == ToReajuste(raw.reajustes.value[i])
    ensures d.idssScore == if raw.idssScore.Some? then raw.idssScore else raw.latestIdss
    ensures d.totalPlanos == 0
  {
    var idss := raw.idssScores.GetOr([]);
    var igr := raw.igrReclamacoes.GetOr([]);
    var rs := raw.reajustes.GetOr([]);
    OperadoraDetail(
      seq(|idss|, i requires 0 <= i < |idss| => ToIdssEntry(idss[i])),
      seq(|igr|, i requires 0 <= i < |igr| => ToIgrEntry(igr[i])),
      seq(|rs|, i requires 0 <= i < |rs| => ToReajuste(rs[i])),
      if raw.idssScore.Some? then raw.idssScore else raw.latestIdss,
      0)
  }

  // ------------------------------------------------------------ getReajustes

  /** One point of a readjustment series. */
  datatype SeriesPoint = SeriesPoint(ciclo: string, pctUnico: Option<real>)

  /** The row one point contributes: none when its cycle does not parse as a year. */
  function PointRow(tipo: string, p: SeriesPoint): seq<Reajuste>
  {
    match ParseInt(p.ciclo)
    case None => []
    case Some(ano) => [Reajuste(ano, p.pctUnico.GetOr(0.0), tipo)]
  }

  /** The rows one series contributes: its points whose cycle parses as a year, in order. */
  function SeriesRows(tipo: string, points: seq<SeriesPoint>): seq<Reajuste>
  {
    if points == [] then []
    else SeriesRows(tipo, points[..|points| - 1]) + PointRow(tipo, points[|points| - 1])
  }

  lemma SeriesRowsStep(tipo: string, points: seq<SeriesPoint>, j: nat)
    requires j < |points|
    ensures SeriesRows(tipo, points[..j + 1]) == SeriesRows(tipo, points[..j]) + PointRow(tipo, points[j])
  {
    assert points[..j + 1][..j] == points[..j];
  }

  /** The rows of all series, series after series. */
  function FlattenSeries(series: seq<(string, seq<SeriesPoint>)>): seq<Reajuste>
  {
    if series == [] then []
    else FlattenSeries(series[..|series| - 1]) + SeriesRows(series[|series| - 1].0, series[|series| - 1].1)
  }

  lemma FlattenStep(series: seq<(string, seq<SeriesPoint>)>, i: nat)
    requires i < |series|
    ensures FlattenSeries(series[..i + 1]) == FlattenSeries(series[..i]) + SeriesRows(series[i].0, series[i].1)
  {
    assert series[..i + 1][..i] == series[..i];
  }

  /** The comparator `(a, b) => a.ano - b.ano`. */
  predicate ByAno(a: Reajuste, b: Reajuste)
  {
    a.ano <= b.ano
  }

  lemma ByAnoTotalPreorder()
    ensures TotalPreorder(ByAno)
  {
  }

  lemma SeriesRowsAppend(items: seq<Reajuste>, tipo: string, points: seq<SeriesPoint>, j: nat)
    requires j < |points|
    ensures items + SeriesRows(tipo, points[..j + 1]) == items + SeriesRows(tipo, points[..j]) + PointRow(tipo, points[j])
  {
    SeriesRowsStep(tipo, points, j);
  }

  /** The inner loop of `getReajustes`: appends the rows of one series. */
  method AppendSeriesRows(items: seq<Reajuste>, tipo: string, points: seq<SeriesPoint>) returns (r: seq<Reajuste>)
    ensures r == items + SeriesRows(tipo, points)
  {
    r := items;
    for j := 0 to |points|
      invariant r == items + SeriesRows(tipo, points[..j])
    {
      SeriesRowsAppend(items, tipo, points, j);
      r := r + PointRow(tipo, points[j]);
    }
    assert points[..|points|] == points;
  }

  /**
   * `getReajustes(registro)`: no registration number means no request and no
   * rows; otherwise the series are flattened (rows with an unparsable cycle
   * are skipped) and sorted by year, stably. `series` is the response, `None`
   * when the request failed (the promise rejects).
   */
  method GetReajustes(registro: Option<string>, series: Option<seq<(string, seq<SeriesPoint>)>>)
    returns (requested: bool, rows: Option<seq<Reajuste>>)
    ensures requested <==> registro.Some? && registro.value != ""
    ensures !requested ==> rows == Some([])
    ensures requested && series.None? ==> rows.None?
    ensures requested && series.Some? ==> rows == Some(SortBy(FlattenSeries(series.value), ByAno))
  {
    if registro.None? || registro.value == "" {
      return false, Some([]);
    }
    requested := true;
    if series.None? {
      return requested, None;
    }
    var data := series.value;
    var items: seq<Reajuste> := [];
    for i := 0 to |data|
      invariant items == FlattenSeries(data[..i])
    {
      items := AppendSeriesRows(items, data[i].0, data[i].1);
      FlattenStep(data, i);
    }
    assert data[..|data|] == data;
    rows := Some(SortBy(items, ByAno));
  }

  /**
   * The rows `getReajustes` returns are in ascending year order, are exactly
   * the flattened rows (a permutation), and rows of the same year keep their
   * series order.
   */
  lemma GetReajustesOrdered(series: seq<(string, seq<SeriesPoint>)>, k: Reajuste)
    ensures Sorted(SortBy(FlattenSeries(series), ByAno), ByAno)
    ensures multiset(SortBy(FlattenSeries(series), ByAno)) == multiset(FlattenSeries(series))
    ensures EquivalentTo(SortBy(FlattenSeries(series), ByAno), ByAno, k) == EquivalentTo(FlattenSeries(series), ByAno, k)
  {
    ByAnoTotalPreorder();
    SortBySorted(FlattenSeries(series), ByAno);
    SortByPermutes(FlattenSeries(series), ByAno);
    SortByStable(FlattenSeries(series), ByAno, k);
  }

  /** Every flattened row comes from a point whose cycle parses, and carries its series' type. */
  lemma {:induction false} SeriesRowsFromPoints(tipo: string, points: seq<SeriesPoint>, r: Reajuste)
    requires r in SeriesRows(tipo, points)
    ensures r.tipoPlano == tipo
    ensures exists p :: p in points && ParseInt(p.ciclo) == Some(r.ano) && r.percentual == p.pctUnico.GetOr(0.0)
    decreases |points|
  {
    var init := points[..|points| - 1];
    var p := points[|points| - 1];
    if r in SeriesRows(tipo, init) {
      SeriesRowsFromPoints(tipo, init, r);
      var q :| q in init && ParseInt(q.ciclo) == Some(r.ano) && r.percentual == q.pctUnico.GetOr(0.0);
      assert q in points;
    } else {
      assert p in points;
    }
  }

  // ------------------------------------------------------------ createLead

  /** The body `createLead` posts; an absent optional field is left out of the JSON. */
  datatype LeadCreate = LeadCreate(
    nome: string, email: Option<string>, telefone: Option<string>, uf: string,
    cidade: Option<string>, faixaEtaria: string, tipoContratacao: string,
    lgpdAceite: bool, origem: Option<string>, turnstileToken: Option<string>)

  /**
   * How a `createLead` call ends: the server's id and creation time, or a
   * thrown value, with its message when it is an `Error`.
   */
  datatype CreateOutcome = Created(id: int, createdAt: string) | Failed(message: Option<string>)
}
