/**
 * The plan card of the result list: the price gating, the tags and the
 * action buttons.
 */
module PlanCard {
  import opened Wrappers
  import opened Numbers
  import opened Utils
  import Comparar

  /** What the card shows of the price: the exact monthly price, the price-level teaser, both absent when there is no price. */
  datatype PriceDisplay = PriceDisplay(exact: Option<real>, teaser: Option<string>)

  function CardPrice(price: Option<real>, isLead: bool): PriceDisplay
  {
    PriceDisplay(
      if price.Some? && isLead then price else None,
      if GetPriceLevel(price).Some? && !isLead then GetPriceLevel(price) else None)
  }

  /**
   * With a price, a lead sees the exact price and no teaser and a visitor
   * only the teaser; without a price neither shows. The card agrees with
   * the comparison table's price cell for the same price and visitor.
   */
  lemma CardPriceGating(price: Option<real>, isLead: bool)
    ensures var d := CardPrice(price, isLead);
      (price.Some? && isLead ==> d.exact == price && d.teaser.None?)
      && (price.Some? && !isLead ==> d.exact.None? && d.teaser == GetPriceLevel(price) && d.teaser.Some?)
      && (price.None? ==> d.exact.None? && d.teaser.None?)
      && (d.exact.Some? <==> Comparar.VcmCellOf(isLead, price).Exact?)
      && (d.exact.Some? ==> Comparar.VcmCellOf(isLead, price) == Comparar.Exact(d.exact.value))
      && (d.teaser.Some? <==> Comparar.VcmCellOf(isLead, price).Teaser?)
      && (d.teaser.Some? ==> Comparar.VcmCellOf(isLead, price) == Comparar.Teaser(d.teaser.value))
  {
    PriceLevelCountsThresholds(price);
  }

  /** The accommodation tag: "Individual" reads "Apartamento", "Coletiva" reads "Enfermaria", no tag when empty. */
  function AccommodationTag(acomodacao: string): Option<string>
  {
    if acomodacao == "" then None
    else if acomodacao == "Individual" then Some("Apartamento")
    else if acomodacao == "Coletiva" then Some("Enfermaria")
    else Some(acomodacao)
  }

  /** The tag exists exactly for a non-empty value, only the two database codes are renamed, and a renamed tag is never itself a code. */
  lemma AccommodationTagFacts(a: string)
    ensures AccommodationTag(a).Some? <==> a != ""
    ensures a != "" && a != "Individual" && a != "Coletiva" ==> AccommodationTag(a) == Some(a)
    ensures AccommodationTag(a).Some? ==> AccommodationTag(a).value != "Individual" && AccommodationTag(a).value != "Coletiva"
  {
  }

  /** The status tag shows the situation unless it is empty or "Ativo". */
  function StatusTag(situacao: string): (r: Option<string>)
    ensures r.Some? <==> situacao != "" && situacao != "Ativo"
    ensures r.Some? ==> r.value == situacao
  {
    if situacao != "" && situacao != "Ativo" then Some(situacao) else None
  }

  /** "`n` penalidade", with an "s" unless `n` is exactly 1. */
  function PenaltyLabel(n: int): string
  {
    IntToString(n) + " penalidade" + (if n != 1 then "s" else "")
  }

  /** The label names the count and is singular exactly when the count is 1. */
  lemma PenaltyLabelPlural(n: int)
    ensures var l := PenaltyLabel(n);
      StartsWithCount(l, n) && (l[|l| - 1] == 's' <==> n != 1)
  {
  }

  predicate StartsWithCount(l: string, n: int)
  {
    IntToString(n) <= l
  }

  /** The penalty badge shows only for a plan with penalties, and names their count. */
  function PenaltyBadge(temPenalidades: bool, qtd: int): (r: Option<string>)
    ensures r.Some? <==> temPenalidades
    ensures r.Some? ==> StartsWithCount(r.value, qtd) && (r.value[|r.value| - 1] == 's' <==> qtd != 1)
  {
    PenaltyLabelPlural(qtd);
    if temPenalidades then Some(PenaltyLabel(qtd)) else None
  }

  /** The compare button exists only with a compare handler and reads "Comparando" exactly while the plan is selected. */
  function CompareButton(hasOnCompare: bool, isComparing: bool): (r: Option<string>)
    ensures r.Some? <==> hasOnCompare
    ensures r.Some? ==> (r.value == "Comparando" <==> isComparing)
  {
    if !hasOnCompare then None else if isComparing then Some("Comparando") else Some("Comparar")
  }

  /** The link of the card and of its share button. */
  function DetailPath(id: int): string
  {
    "/planos/" + IntToString(id)
  }

  /** The path's last segment is the plan's id, which `Number` reads back as that id. */
  lemma DetailPathId(id: int)
    ensures "/planos/" <= DetailPath(id)
    ensures '/' !in DetailPath(id)[8..]
    ensures ToNumber(DetailPath(id)[8..]) == Some(id)
  {
    assert DetailPath(id)[8..] == IntToString(id);
    NumeralHasNoSlash(id);
    ToNumberOfString(id);
  }
}
