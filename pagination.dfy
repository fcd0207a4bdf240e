/**
 * The query-string paging shared by the ranking, operator and blog lists:
 * `page` is read with `parseInt`, filter changes send the list back to the
 * first page, and the previous/next buttons are enabled by comparison.
 */
module Pagination {
  import opened Wrappers
  import opened Numbers
  import opened UrlParams

  /** `parseInt(searchParams.get("page") || "1", 10)`; `None` is `NaN`. */
  function PageParam(params: Params): Option<int>
  {
    var raw := GetOrEmpty(params, "page");
    ParseInt(if raw != "" then raw else "1")
  }

  /** No `page` parameter means page 1, and a page written with `String` reads back as itself. */
  lemma PageParamDefault(params: Params, p: int)
    ensures !Has(params, "page") ==> PageParam(params) == Some(1)
    ensures PageParam(Set(params, "page", IntToString(p))) == Some(p)
  {
    ParseIntOfString(1);
    assert IntToString(1) == "1";
    SetFacts(params, "page", IntToString(p));
    ParseIntOfString(p);
  }

  /** The list pages' `updateParam`: set or delete the key, and drop `page` unless the key is `page` itself. */
  function UpdateParamResettingPage(params: Params, key: string, value: string): Params
  {
    var next := SetOrDelete(params, key, value);
    if key != "page" then Delete(next, "page") else next
  }

  /** A filter change sets that filter, sends the list back to page 1 and leaves the other parameters alone. */
  lemma UpdateParamFacts(params: Params, key: string, value: string, other: string)
    ensures key != "page" ==> GetOrEmpty(UpdateParamResettingPage(params, key, value), key) == value
    ensures key != "page" ==> PageParam(UpdateParamResettingPage(params, key, value)) == Some(1)
    ensures key == "page" ==> UpdateParamResettingPage(params, key, value) == SetOrDelete(params, key, value)
    ensures other != key && other != "page" ==> Get(UpdateParamResettingPage(params, key, value), other) == Get(params, other)
  {
    var next := SetOrDelete(params, key, value);
    SetOrDeleteFacts(params, key, value, other);
    if key != "page" {
      SetOrDeleteFacts(params, key, value, key);
      DeleteGet(next, "page", key);
      DeleteGet(next, "page", other);
      DeleteGet(next, "page", "page");
      PageParamDefault(Delete(next, "page"), 1);
    }
  }

  /** The previous and next buttons move `page` by exactly one. */
  lemma PageButtons(params: Params, page: int)
    ensures PageParam(UpdateParamResettingPage(params, "page", IntToString(page - 1))) == Some(page - 1)
    ensures PageParam(UpdateParamResettingPage(params, "page", IntToString(page + 1))) == Some(page + 1)
  {
    PageParamDefault(params, page - 1);
    PageParamDefault(params, page + 1);
  }

  /** Pagination is shown only when there is more than one page. */
  predicate ShowPagination(totalPages: int)
  {
    totalPages > 1
  }

  /** `disabled={page <= 1}`; a `NaN` page compares false. */
  predicate PrevDisabled(page: Option<int>)
  {
    page.Some? && page.value <= 1
  }

  /** `disabled={page >= total_pages}`; a `NaN` page compares false. */
  predicate NextDisabled(page: Option<int>, totalPages: int)
  {
    page.Some? && page.value >= totalPages
  }

  /** On a page within range, previous is enabled exactly when a page exists before, and next exactly when one exists after. */
  lemma ButtonsWithinRange(page: int, totalPages: int)
    requires 1 <= page <= totalPages
    ensures !PrevDisabled(Some(page)) <==> page - 1 >= 1
    ensures !NextDisabled(Some(page), totalPages) <==> page + 1 <= totalPages
  {
  }
}
