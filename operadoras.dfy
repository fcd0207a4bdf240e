/**
 * The operator directory: filters and a page in the query, 18 operators
 * a page, and the beneficiary count on each card.
 */
module Operadoras {
  import opened Wrappers
  import opened Numbers
  import opened UrlParams
  import opened Pagination

  const PageSize := 18

  /** A page of the operator list: the operators' registration numbers, the total and the paging. */
  datatype PageData = PageData(items: seq<string>, total: int, page: int, pageSize: int, totalPages: int)

  /** What a failed request is replaced with. */
  const EmptyPage := PageData([], 0, 1, PageSize, 0)

  /** The list shown after a request: the response, or the empty page when it failed. */
  function Loaded(response: Option<PageData>): (d: PageData)
    ensures response.None? ==> d.items == [] && d.total == 0 && d.page == 1 && d.pageSize == PageSize && d.totalPages == 0
  {
    response.GetOr(EmptyPage)
  }

  /** What the list area shows. */
  datatype ListView = NoneFound(paged: bool) | Listed(count: int, registros: seq<string>, paged: bool)

  /**
   * The list area: the operators, or "none found"; the pagination bar is
   * drawn after either, whenever there is more than one page.
   */
  function View(d: PageData): (r: ListView)
    ensures (r.NoneFound? <==> d.items == []) && r.paged == ShowPagination(d.totalPages)
    ensures r.Listed? ==> r.count == d.total && r.registros == d.items
  {
    if |d.items| == 0 then NoneFound(ShowPagination(d.totalPages)) else Listed(d.total, d.items, ShowPagination(d.totalPages))
  }

  /**
   * A failed request is shown exactly as a search that found nothing on a
   * single page: no operators and no pagination. An empty page past the
   * last one shows "none found" together with the pagination.
   */
  lemma FailureLooksEmpty(genuine: PageData)
    requires genuine.items == []
    ensures View(Loaded(None)) == NoneFound(false)
    ensures genuine.totalPages <= 1 ==> View(genuine) == View(Loaded(None))
    ensures genuine.totalPages > 1 ==> View(genuine) == NoneFound(true)
  {
  }

  /** The request of the list: empty filters are left out, the page size is 18. */
  function RequestEntries(params: Params, uf: string): seq<(string, Option<string>)>
  {
    var q := GetOrEmpty(params, "q");
    var modalidade := GetOrEmpty(params, "modalidade");
    var page := PageParam(params);
    [("q", if q != "" then Some(q) else None),
     ("uf", if uf != "" then Some(uf) else None),
     ("modalidade", if modalidade != "" then Some(modalidade) else None),
     ("page", if page.Some? then Some(IntToString(page.value)) else Some("NaN")),
     ("page_size", Some(IntToString(PageSize)))]
  }

  /** A bare query asks for page 1, and every request asks for 18 operators. */
  lemma BareRequest(params: Params, uf: string)
    ensures RequestEntries([], uf)[3] == ("page", Some(IntToString(1)))
    ensures RequestEntries(params, uf)[4] == ("page_size", Some(IntToString(18)))
  {
    PageParamDefault([], 1);
  }

  /** The beneficiary cell of a card. */
  datatype Beneficiarios = NotAvailable | Thousands(k: int) | Plain(n: int)

  /** `null` is "N/D", above 1000 the count in thousands rounded to a whole number with `k`, otherwise the number. */
  function BeneficiariosLabel(b: Option<int>): Beneficiarios
  {
    match b
    case None => NotAvailable
    case Some(n) => if n > 1000 then Thousands((n + 500) / 1000) else Plain(n)
  }

  /** The thousands shown are the count rounded to the nearest thousand (halves up), and at least 1. */
  lemma ThousandsRounded(n: int)
    requires n > 1000
    ensures var k := BeneficiariosLabel(Some(n)).k;
      k >= 1 && k * 1000 - 500 <= n < k * 1000 + 500
  {
  }
}
