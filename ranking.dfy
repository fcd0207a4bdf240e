/**
 * The IDSS ranking page: UF and year filters in the query, a sortable
 * table whose order is sent as `<field>_<dir>`, and a seven-button page
 * window.
 */
module Ranking {
  import opened Wrappers
  import opened Numbers
  import opened UrlParams
  import opened Pagination
  import opened UseUserUf

  /** The years of the year filter, newest first. */
  const Years: seq<int> := seq(6, i requires 0 <= i < 6 => 2024 - i)

  lemma YearsListed()
    ensures Years == [2024, 2023, 2022, 2021, 2020, 2019]
  {
  }

  /** The order sent to the API. */
  function Ordem(field: string, dir: string): string
  {
    field + "_" + dir
  }

  /** The direction a newly chosen column starts with: ascending for the position, descending for any score. */
  function InitialDir(field: string): string
  {
    if field == "posicao" then "asc" else "desc"
  }

  predicate IsDir(dir: string)
  {
    dir == "asc" || dir == "desc"
  }

  /** The order string ends with `_asc` or `_desc`, and cutting that suffix gives back the field. */
  lemma OrdemDecodes(field: string, dir: string)
    requires IsDir(dir)
    ensures var o := Ordem(field, dir);
      (dir == "asc" ==> |o| >= 4 && o[|o| - 4..] == "_asc" && o[..|o| - 4] == field)
      && (dir == "desc" ==> |o| >= 5 && o[|o| - 5..] == "_desc" && o[..|o| - 5] == field)
  {
  }

  /** The first page number of the window. */
  function WindowStart(page: int, totalPages: int): int
  {
    if totalPages <= 7 then 1
    else if page <= 4 then 1
    else if page >= totalPages - 3 then totalPages - 6
    else page - 3
  }

  /** The page-number buttons, shown when there is more than one page. */
  function PageWindow(page: int, totalPages: int): (w: seq<int>)
    requires totalPages > 1
    ensures |w| == if totalPages < 7 then totalPages else 7
    ensures forall i :: 0 <= i < |w| - 1 ==> w[i + 1] == w[i] + 1
  {
    var count := if totalPages < 7 then totalPages else 7;
    seq(count, i requires 0 <= i < count => WindowStart(page, totalPages) + i)
  }

  /** For a page in range the window stays within the pages and contains the page. */
  lemma PageWindowCoversPage(page: int, totalPages: int)
    requires totalPages > 1 && 1 <= page <= totalPages
    ensures var w := PageWindow(page, totalPages);
      w[0] >= 1 && w[|w| - 1] <= totalPages && page in w
  {
    var w := PageWindow(page, totalPages);
    var start := WindowStart(page, totalPages);
    assert 0 <= page - start < |w|;
    assert w[page - start] == page;
  }

  class RankingPage {
    var params: Params
    var sortField: string
    var sortDir: string
    const userUf: UserUf

    predicate Valid()
      reads this
    {
      IsDir(sortDir)
    }

    constructor (url: Params, uf: UserUf)
      ensures Valid() && params == url && userUf == uf
      ensures sortField == "posicao" && sortDir == "asc"
    {
      params := url;
      sortField := "posicao";
      sortDir := "asc";
      userUf := uf;
    }

    /** The order the table requests. */
    function RequestOrdem(): string
      reads this
    {
      Ordem(sortField, sortDir)
    }

    /** `handleSort`: the active column flips direction; another column becomes active with its initial direction. */
    method HandleSort(field: string)
      requires Valid()
      modifies this`sortField, this`sortDir
      ensures Valid()
      ensures field == old(sortField) ==> sortField == field && sortDir == (if old(sortDir) == "asc" then "desc" else "asc")
      ensures field != old(sortField) ==> sortField == field && sortDir == InitialDir(field)
      ensures sortDir != old(sortDir) || field != old(sortField)
      ensures RequestOrdem() == Ordem(field, sortDir)
    {
      if field == sortField {
        sortDir := if sortDir == "asc" then "desc" else "asc";
      } else {
        sortField := field;
        sortDir := InitialDir(field);
      }
    }

    /** `updateParam`. */
    method UpdateParam(key: string, value: string)
      modifies this`params
      ensures params == UpdateParamResettingPage(old(params), key, value)
    {
      var next := params;
      if value != "" {
        next := Set(next, key, value);
      } else {
        next := Delete(next, key);
      }
      if key != "page" {
        next := Delete(next, "page");
      }
      params := next;
    }

    /** Choosing a UF saves it as the user's UF and filters by it. */
    method ChangeUf(value: string)
      modifies this`params, userUf, userUf.storage
      ensures params == UpdateParamResettingPage(old(params), "uf", value)
      ensures userUf.uf == value && userUf.storage.available == old(userUf.storage.available)
      ensures userUf.storage.available ==> userUf.storage.Get(UfStorageKey) == if value != "" then Some(value) else None
    {
      userUf.SetUf(value);
      UpdateParam("uf", value);
    }
  }
}
