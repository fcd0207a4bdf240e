/**
 * The comparison page: the selected plan ids live in the `ids` query
 * parameter, plans are added (at most four, no duplicates) and removed,
 * each numeric row marks its best plan, and the monthly-price row is gated
 * on lead capture.
 */
module Comparar {
  import opened Wrappers
  import opened Text
  import opened Numbers
  import opened UrlParams
  import opened Utils
  import ApiClient
  import opened Seqs

  const MaxCompared := 4

  // ------------------------------------------------------------ selectedIds

  /** `.map(Number).filter(Boolean)`: pieces that are not numbers, and zeros, are dropped. */
  function NonZeroNumbers(pieces: seq<string>): (r: seq<int>)
    ensures forall i :: 0 <= i < |r| ==> r[i] != 0
    ensures |r| <= |pieces|
  {
    if pieces == [] then []
    else
      var rest := NonZeroNumbers(pieces[1..]);
      match ToNumber(pieces[0])
      case Some(n) => if n != 0 then [n] + rest else rest
      case None => rest
  }

  /** The ids of the `ids` parameter text; an empty text gives none. */
  function ParseIds(idsParam: string): seq<int>
  {
    if idsParam == "" then [] else NonZeroNumbers(SplitOn(idsParam, ","))
  }

  /** `selectedIds`, read from the query. */
  function SelectedIds(params: Params): seq<int>
  {
    ParseIds(Get(params, "ids").GetOr(""))
  }

  function IdStrings(ids: seq<int>): (r: seq<string>)
    ensures |r| == |ids|
    ensures forall i :: 0 <= i < |r| ==> r[i] == IntToString(ids[i])
  {
    seq(|ids|, i requires 0 <= i < |ids| => IntToString(ids[i]))
  }

  lemma {:induction false} NonZeroNumbersOfStrings(ids: seq<int>)
    requires forall i :: 0 <= i < |ids| ==> ids[i] != 0
    ensures NonZeroNumbers(IdStrings(ids)) == ids
    decreases |ids|
  {
    if ids != [] {
      var p := IdStrings(ids);
      IdStringsTail(ids);
      ToNumberOfString(ids[0]);
      NonZeroHead(p, ids[0]);
      NonZeroNumbersOfStrings(ids[1..]);
      assert ids == [ids[0]] + ids[1..];
    }
  }

  lemma IdStringsTail(ids: seq<int>)
    requires ids != []
    ensures IdStrings(ids)[0] == IntToString(ids[0])
    ensures IdStrings(ids)[1..] == IdStrings(ids[1..])
  {
    assert IdStrings(ids)[1..] == IdStrings(ids[1..]);
  }

  lemma NonZeroHead(pieces: seq<string>, n: int)
    requires pieces != [] && ToNumber(pieces[0]) == Some(n) && n != 0
    ensures NonZeroNumbers(pieces) == [n] + NonZeroNumbers(pieces[1..])
  {
  }

  /** Writing non-zero ids comma-separated and reading them back gives the same ids, in order. */
  lemma ParseJoinedIds(ids: seq<int>)
    requires forall i :: 0 <= i < |ids| ==> ids[i] != 0
    ensures ParseIds(ApiClient.JoinIds(ids)) == ids
  {
    var parts := IdStrings(ids);
    assert ApiClient.JoinIds(ids) == JoinWith(parts, ",");
    if ids != [] {
      assert JoinWith(parts, ",") != "" by {
        ApiClient.JoinNonEmpty(parts);
      }
      SplitJoin(parts, ',');
      NonZeroNumbersOfStrings(ids);
    }
  }

  /** Ids in the URL are taken as they are: duplicates and more than four survive parsing. */
  lemma UrlIdsNotCapped()
    ensures ParseIds(ApiClient.JoinIds([7, 7, 1, 2, 3])) == [7, 7, 1, 2, 3]
  {
    ParseJoinedIds([7, 7, 1, 2, 3]);
  }

  // ----------------------------------------------------- addPlan / removePlan

  /** `addPlan(id)`: `None` when the id is already selected or four are selected; otherwise the whole query becomes the extended `ids`. */
  function AddPlan(selected: seq<int>, id: int): Option<Params>
  {
    if id in selected || |selected| >= MaxCompared then None
    else Some([("ids", ApiClient.JoinIds(selected + [id]))])
  }

  /**
   * Adding keeps the selection at most four long and free of duplicates: the
   * new selection is the old one with `id` at the end.
   */
  lemma AddPlanSelection(params: Params, id: int)
    requires id != 0
    ensures var selected := SelectedIds(params);
      AddPlan(selected, id).Some? ==>
        SelectedIds(AddPlan(selected, id).value) == selected + [id]
        && |SelectedIds(AddPlan(selected, id).value)| <= MaxCompared
        && (Distinct(selected) ==> Distinct(SelectedIds(AddPlan(selected, id).value)))
    ensures AddPlan(SelectedIds(params), id).None? <==> id in SelectedIds(params) || |SelectedIds(params)| >= MaxCompared
  {
    var selected := SelectedIds(params);
    if AddPlan(selected, id).Some? {
      var next := selected + [id];
      assert forall i :: 0 <= i < |next| ==> next[i] != 0;
      ParseJoinedIds(next);
      assert Get(AddPlan(selected, id).value, "ids") == Some(ApiClient.JoinIds(next));
    }
  }

  /** `removePlan(id)`: the query becomes the remaining ids, or is emptied when none remain. */
  function RemovePlan(selected: seq<int>, id: int): Params
  {
    var next := Without(selected, id);
    if next != [] then [("ids", ApiClient.JoinIds(next))] else []
  }

  /** Removing drops every occurrence of the id and keeps the other ids in order; nothing left means no `ids` parameter. */
  lemma RemovePlanSelection(params: Params, id: int)
    ensures SelectedIds(RemovePlan(SelectedIds(params), id)) == Without(SelectedIds(params), id)
    ensures id !in SelectedIds(RemovePlan(SelectedIds(params), id))
    ensures Without(SelectedIds(params), id) == [] <==> RemovePlan(SelectedIds(params), id) == []
  {
    var next := Without(SelectedIds(params), id);
    if next != [] {
      assert forall i :: 0 <= i < |next| ==> next[i] != 0 by {
        assert forall i :: 0 <= i < |next| ==> next[i] in SelectedIds(params);
      }
      ParseJoinedIds(next);
    }
  }

  // ------------------------------------------------------------ getBestIndex

  datatype BestFn = Min | Max

  /** The rows of the comparison table by key, with the rows that mark a best plan. */
  const ComparisonRows: seq<(string, Option<BestFn>)> := [
    ("operadora", None), ("segmentacao", None), ("tipo_contratacao", None), ("acomodacao", None),
    ("abrangencia", None), ("obstetrica", None), ("odonto", None),
    ("idss", Some(Max)), ("igr", Some(Min)), ("reajuste", Some(Min))
  ]

  lemma OnlyScoreRowsMarked()
    ensures forall row :: row in ComparisonRows && row.1.Some? ==>
      (row.0 == "idss" && row.1 == Some(Max)) || (row.0 in ["igr", "reajuste"] && row.1 == Some(Min))
  {
  }

  /** Whether `a` is at least as good as `b` under the row's rule. */
  predicate AtLeastAsGood(fn: BestFn, a: real, b: real)
  {
    if fn == Min then a <= b else a >= b
  }

  /** The numeric values of a row, in plan order. */
  function Numeric(values: seq<Option<real>>): (r: seq<real>)
    ensures |r| <= |values|
    ensures forall x :: x in r <==> Some(x) in values
  {
    if values == [] then []
    else (if values[0].Some? then [values[0].value] else []) + Numeric(values[1..])
  }

  /** `Math.min(...)` / `Math.max(...)` of a non-empty list. */
  function Extreme(fn: BestFn, xs: seq<real>): (r: real)
    requires xs != []
    ensures r in xs
    ensures forall x :: x in xs ==> AtLeastAsGood(fn, r, x)
  {
    if |xs| == 1 then xs[0]
    else
      var rest := Extreme(fn, xs[1..]);
      assert forall x :: x in xs ==> x == xs[0] || x in xs[1..];
      if AtLeastAsGood(fn, xs[0], rest) then xs[0] else rest
  }

  /** `values.indexOf(target)`: the first index holding the target. */
  function IndexOf(values: seq<Option<real>>, target: real): (r: int)
    requires Some(target) in values
    ensures 0 <= r < |values| && values[r] == Some(target)
    ensures forall j :: 0 <= j < r ==> values[j] != Some(target)
  {
    if values[0] == Some(target) then 0 else 1 + IndexOf(values[1..], target)
  }

  /**
   * `getBestIndex`: -1 when the row has no rule, fewer than two plans are
   * shown or fewer than two values are numbers; otherwise the first plan
   * whose value is the best of the row.
   */
  function GetBestIndex(fn: Option<BestFn>, values: seq<Option<real>>): (r: int)
    ensures r == -1 <==> fn.None? || |values| < 2 || |Numeric(values)| < 2
    ensures r != -1 ==> 0 <= r < |values| && values[r].Some?
    ensures r != -1 ==> forall j :: 0 <= j < |values| && values[j].Some? ==> AtLeastAsGood(fn.value, values[r].value, values[j].value)
    ensures r != -1 ==> forall j :: 0 <= j < r && values[j].Some? ==> !AtLeastAsGood(fn.value, values[j].value, values[r].value)
  {
    if fn.None? || |values| < 2 then -1
    else
      var valid := Numeric(values);
      if |valid| < 2 then -1
      else
        var target := Extreme(fn.value, valid);
        var r := IndexOf(values, target);
        assert forall j :: 0 <= j < |values| && values[j].Some? ==> values[j].value in valid;
        r
  }

  // ------------------------------------------------------------ VCM row

  /** What a monthly-price cell shows. */
  datatype VcmCell = Teaser(level: string) | Exact(vcm: real) | NotAvailable

  /**
   * `faixas.find((f) => f.faixa_etaria === faixaEtaria)?.vcm ?? null`: the
   * VCM of the first entry for the bracket, and nothing when no entry has it.
   */
  function MatchedVcm(faixas: seq<(string, Option<real>)>, faixa: string): (r: Option<real>)
    ensures r.Some? ==> exists i :: 0 <= i < |faixas| && faixas[i].0 == faixa && faixas[i].1 == r
    ensures (forall i :: 0 <= i < |faixas| ==> faixas[i].0 != faixa) ==> r.None?
    ensures forall k :: 0 <= k < |faixas| && faixas[k].0 == faixa && (forall j :: 0 <= j < k ==> faixas[j].0 != faixa) ==> r == faixas[k].1
  {
    if faixas == [] then None
    else if faixas[0].0 == faixa then faixas[0].1
    else MatchedVcm(faixas[1..], faixa)
  }

  /** One plan's cell: a visitor sees the price level, a lead the exact value; "N/D" without a value. */
  function VcmCellOf(isLead: bool, vcm: Option<real>): VcmCell
  {
    if !isLead then
      match GetPriceLevel(vcm)
      case Some(level) => Teaser(level)
      case None => NotAvailable
    else if vcm.Some? then Exact(vcm.value)
    else NotAvailable
  }

  /** The row exists only once an age bracket is chosen; it has a cell per plan. */
  function VcmRow(faixa: string, isLead: bool, plans: seq<seq<(string, Option<real>)>>): (r: Option<seq<VcmCell>>)
    ensures r.Some? <==> faixa != ""
    ensures r.Some? ==> |r.value| == |plans|
    ensures r.Some? ==> forall i :: 0 <= i < |plans| ==> (r.value[i].Exact? ==> isLead)
    ensures r.Some? ==> forall i :: 0 <= i < |plans| ==> r.value[i] == VcmCellOf(isLead, MatchedVcm(plans[i], faixa))
  {
    if faixa == "" then None
    else Some(seq(|plans|, i requires 0 <= i < |plans| => VcmCellOf(isLead, MatchedVcm(plans[i], faixa))))
  }

  /** A visitor never sees an exact price, and sees a teaser exactly when a price exists; a lead sees the exact price exactly when it exists. */
  lemma VcmCellGating(isLead: bool, vcm: Option<real>)
    ensures !isLead ==> !VcmCellOf(isLead, vcm).Exact?
    ensures !isLead ==> (VcmCellOf(isLead, vcm).Teaser? <==> vcm.Some?)
    ensures isLead ==> !VcmCellOf(isLead, vcm).Teaser?
    ensures isLead ==> (VcmCellOf(isLead, vcm) == if vcm.Some? then Exact(vcm.value) else NotAvailable)
    ensures VcmCellOf(isLead, vcm).Teaser? ==> VcmCellOf(isLead, vcm).level == GetPriceLevel(vcm).value
  {
    PriceLevelCountsThresholds(vcm);
  }
}
