/**
 * The plan search page: filters live in the query string, the search box
 * writes `q` after a pause, results arrive a page of 24 at a time with
 * infinite scroll, up to four plans are picked for comparison, and the
 * filters of the last visit are restored when the page opens bare.
 */
module Planos {
  import opened Wrappers
  import opened Text
  import opened UrlParams
  import opened WebStorage
  import opened Utils
  import opened UseUserUf
  import opened Seqs
  import FilterJson
  import Numbers
  import ApiClient

  const PageSize := 24
  const MaxCompared := 4

  /** One page of the plan search: the plan ids, the total, the page number and the page count. */
  datatype PageResponse = PageResponse(items: seq<int>, total: int, page: int, totalPages: int)

  /** More pages exist when this one was full and is not the last. */
  predicate HasMoreAfter(data: PageResponse)
  {
    |data.items| >= PageSize && data.page < data.totalPages
  }

  // ------------------------------------------------------------ pure rules

  /** The text the search writes to `q`: the trimmed text when it has two characters or more, otherwise nothing. */
  function EffectiveQuery(text: string): (r: string)
    ensures |Trim(text)| >= 2 ==> r == Trim(text)
    ensures |Trim(text)| < 2 ==> r == ""
  {
    var trimmed := Trim(text);
    if |trimmed| >= 2 then trimmed else ""
  }

  /** The query after the debounced search has fired. */
  function DebouncedParams(params: Params, text: string): Params
  {
    var effective := EffectiveQuery(text);
    if effective != GetOrEmpty(params, "q") then SetOrDelete(params, "q", effective) else params
  }

  /** After the debounce, `q` holds the effective text and no other parameter changed; nothing is written when `q` already holds it. */
  lemma DebounceSetsQuery(params: Params, text: string, other: string)
    ensures GetOrEmpty(DebouncedParams(params, text), "q") == EffectiveQuery(text)
    ensures other != "q" ==> Get(DebouncedParams(params, text), other) == Get(params, other)
    ensures EffectiveQuery(text) == GetOrEmpty(params, "q") ==> DebouncedParams(params, text) == params
  {
    SetOrDeleteFacts(params, "q", EffectiveQuery(text), other);
  }

  /** `toggleCompare`: a selected plan is removed, another is appended while fewer than four are selected. */
  function Toggle(list: seq<int>, id: int): seq<int>
  {
    if id in list then Without(list, id)
    else if |list| < MaxCompared then list + [id]
    else list
  }

  /** The compare list never exceeds four plans nor holds a plan twice, and a toggle flips the plan's membership unless the list is full. */
  lemma ToggleKeepsList(list: seq<int>, id: int)
    requires |list| <= MaxCompared && Distinct(list)
    ensures |Toggle(list, id)| <= MaxCompared && Distinct(Toggle(list, id))
    ensures id in list ==> id !in Toggle(list, id)
    ensures id !in list ==> (id in Toggle(list, id) <==> |list| < MaxCompared)
    ensures forall x :: x != id ==> (x in Toggle(list, id) <==> x in list)
  {
    if id in list {
      WithoutDistinct(list, id);
    }
  }

  /** `clearFilters`: the query becomes just `q`, or nothing when `q` is empty. */
  function ClearedFilters(params: Params): Params
  {
    var q := GetOrEmpty(params, "q");
    if q != "" then [("q", q)] else []
  }

  lemma ClearKeepsOnlyQuery(params: Params, other: string)
    ensures GetOrEmpty(ClearedFilters(params), "q") == GetOrEmpty(params, "q")
    ensures other != "q" ==> !Has(ClearedFilters(params), other)
  {
    var q := GetOrEmpty(params, "q");
    if q != "" && other != "q" {
      var ps: Params := [("q", q)];
      assert ps[0].0 != other && ps[1..] == [];
      assert Get(ps, other) == Get([], other);
    }
  }

  /** The keys of the sidebar filter sections. */
  const FilterSectionKeys: seq<string> := ["uf", "tipo_contratacao", "segmentacao", "abrangencia"]

  /** `handleFilterChange`: a new UF while a city is set also removes the city; otherwise only the key changes. */
  function FilterChange(params: Params, key: string, value: string): Params
  {
    if key == "uf" && GetOrEmpty(params, "cidade") != "" then Delete(SetOrDelete(params, "uf", value), "cidade")
    else SetOrDelete(params, key, value)
  }

  lemma FilterChangeFacts(params: Params, key: string, value: string, other: string)
    ensures GetOrEmpty(FilterChange(params, key, value), key) == value
    ensures key == "uf" && GetOrEmpty(params, "cidade") != "" ==> !Has(FilterChange(params, key, value), "cidade")
    ensures other != key && other != "cidade" ==> Get(FilterChange(params, key, value), other) == Get(params, other)
    ensures other != key && (key != "uf" || GetOrEmpty(params, "cidade") == "") ==> Get(FilterChange(params, key, value), other) == Get(params, other)
  {
    SetOrDeleteFacts(params, key, value, other);
    if key == "uf" && GetOrEmpty(params, "cidade") != "" {
      var updated := SetOrDelete(params, "uf", value);
      SetOrDeleteFacts(params, "uf", value, "cidade");
      DeleteGet(updated, "cidade", other);
      DeleteGet(updated, "cidade", "uf");
      DeleteGet(updated, "cidade", "cidade");
    }
  }

  // ---------------------------------------------------------- saved filters

  /** `URLSearchParams.set` applied for each entry in turn. */
  function SetAll(ps: Params, entries: FilterJson.Fields): Params
  {
    if entries == [] then ps
    else
      var last := entries[|entries| - 1];
      Set(SetAll(ps, entries[..|entries| - 1]), last.0, last.1)
  }

  /** The saved entries with a value. */
  function NonEmptyEntries(entries: FilterJson.Fields): (r: FilterJson.Fields)
    ensures forall e :: e in r <==> e in entries && e.1 != ""
  {
    if entries == [] then []
    else
      var init := NonEmptyEntries(entries[..|entries| - 1]);
      var last := entries[|entries| - 1];
      assert forall e :: e in entries <==> e in entries[..|entries| - 1] || e == last;
      init + (if last.1 != "" then [last] else [])
  }

  /** The query the restore effect writes from the saved filters. */
  function Restored(saved: FilterJson.Fields): Params
  {
    SetAll([], NonEmptyEntries(saved))
  }

  /** The loop of the restore effect: each entry is set in turn on an empty query. */
  method SetEach(entries: FilterJson.Fields) returns (next: Params)
    ensures next == SetAll([], entries)
    ensures entries != [] ==> Get(next, entries[|entries| - 1].0) == Some(entries[|entries| - 1].1)
  {
    next := [];
    for i := 0 to |entries|
      invariant next == SetAll([], entries[..i])
    {
      var (k, v) := entries[i];
      assert entries[..i + 1][..i] == entries[..i];
      next := Set(next, k, v);
    }
    assert entries[..|entries|] == entries;
    if entries != [] {
      SetFacts(SetAll([], entries[..|entries| - 1]), entries[|entries| - 1].0, entries[|entries| - 1].1);
    }
  }

  lemma {:induction false} SetAllGet(ps: Params, entries: FilterJson.Fields, name: string, v: string)
    ensures (forall e :: e in entries ==> e.0 != name) ==> Get(SetAll(ps, entries), name) == Get(ps, name)
    ensures (name, v) in entries && (forall e :: e in entries && e.0 == name ==> e.1 == v)
      ==> Get(SetAll(ps, entries), name) == Some(v)
    decreases |entries|
  {
    if entries != [] {
      var init := entries[..|entries| - 1];
      var last := entries[|entries| - 1];
      SetAllGet(ps, init, name, v);
      assert forall e :: e in entries <==> e in init || e == last;
      SetFacts(SetAll(ps, init), last.0, last.1);
      if last.0 != name {
        SetGetOther(SetAll(ps, init), last.0, last.1, name);
      }
    }
  }

  /**
   * Saving the filters (`keys` is the whitelist, `PersistedFilterKeys`) and
   * restoring them on a later bare visit brings back every whitelisted
   * filter with its value and nothing else.
   */
  lemma RestoreAfterSave(params: Params, keys: seq<string>, name: string)
    ensures name in keys ==> GetOrEmpty(Restored(KeptFilters(params, keys)), name) == GetOrEmpty(params, name)
    ensures name !in keys ==> !Has(Restored(KeptFilters(params, keys)), name)
  {
    var kept := KeptFilters(params, keys);
    var entries := NonEmptyEntries(kept);
    var value := GetOrEmpty(params, name);
    assert forall e :: e in entries ==> e.0 in keys && e.1 != "" && GetOrEmpty(params, e.0) == e.1 by {
      forall e | e in entries
        ensures e.0 in keys && e.1 != "" && GetOrEmpty(params, e.0) == e.1
      {
        KeptFiltersExact(params, keys, e.0, e.1);
      }
    }
    SetAllGet([], entries, name, value);
    if name in keys && value != "" {
      KeptFiltersExact(params, keys, name, value);
      assert (name, value) in entries;
      assert forall e :: e in entries && e.0 == name ==> e.1 == value;
    } else {
      assert forall e :: e in entries ==> e.0 != name;
    }
  }

  // ------------------------------------------------------------ page state

  class PlanosPage {
    var params: Params
    var initialized: bool
    var items: seq<int>
    var total: int
    var page: int
    var hasMore: bool
    var loading: bool
    var loadingMore: bool
    var compareList: seq<int>
    var searchText: string
    /** The query of the render in which `searchText` last changed: the debounce timer's closure sees this one. */
    var debounceBase: Params
    /** Whether a debounce timer is running: one is armed on mount and on each text change, and fires once. */
    var debouncePending: bool
    const storage: Storage
    const userUf: UserUf

    predicate Valid()
      reads this
    {
      |compareList| <= MaxCompared && Distinct(compareList) && page >= 1
    }

    constructor (url: Params, st: Storage, uf: UserUf)
      ensures Valid()
      ensures params == url && storage == st && userUf == uf
      ensures !initialized && items == [] && total == 0 && page == 1 && hasMore && loading && !loadingMore
      ensures compareList == [] && searchText == GetOrEmpty(url, "q") && debounceBase == url && debouncePending
    {
      params := url;
      initialized := false;
      items := [];
      total := 0;
      page := 1;
      hasMore := true;
      loading := true;
      loadingMore := false;
      compareList := [];
      searchText := GetOrEmpty(url, "q");
      debounceBase := url;
      debouncePending := true;
      storage := st;
      userUf := uf;
    }

    /** `uf`: the query's value, even `""`, else the detected one. */
    function Uf(): string
      reads this, userUf
    {
      Get(params, "uf").GetOr(userUf.uf)
    }

    /** `ordem`: `relevancia` unless the query names another order. */
    function Ordem(): string
      reads this
    {
      var o := GetOrEmpty(params, "ordem");
      if o != "" then o else "relevancia"
    }

    /**
     * The restore effect: once a URL with parameters is seen the page is
     * initialized; a bare URL gets the saved filters written into it (and
     * waits for the next render), or, with none saved, is initialized as is.
     */
    method RestoreFilters()
      requires Valid()
      modifies this`params, this`initialized
      ensures Valid()
      ensures old(initialized) ==> initialized && params == old(params)
      ensures !old(initialized) && old(params) != [] ==> initialized && params == old(params)
      ensures !old(initialized) && old(params) == [] ==>
        params == Restored(GetSavedPlanoFilters(storage)) && (initialized <==> params == [])
      ensures !initialized ==> params != []
    {
      if initialized {
        return;
      }
      if params != [] {
        initialized := true;
        return;
      }
      var saved := GetSavedPlanoFilters(storage);
      var entries := NonEmptyEntries(saved);
      if |entries| > 0 {
        var next := SetEach(entries);
        params := next;
        return;
      }
      initialized := true;
    }

    /**
     * Typing in the search box. A changed text re-runs the debounce effect,
     * whose new timer captures the query as it is now.
     */
    method Type(text: string)
      modifies this`searchText, this`debounceBase, this`debouncePending
      ensures searchText == text
      ensures debounceBase == if text != old(searchText) then params else old(debounceBase)
      ensures debouncePending == (old(debouncePending) || text != old(searchText))
    {
      if text != searchText {
        debounceBase := params;
        debouncePending := true;
      }
      searchText := text;
    }

    /**
     * The debounce timer fires. Its closure holds the query captured when
     * the text last changed: it compares the effective text with that
     * query's `q` and, when they differ, writes that query with `q` set,
     * so a parameter changed since then is put back as it was.
     */
    method DebounceElapsed()
      requires debouncePending
      modifies this`params, this`debouncePending
      ensures !debouncePending
      ensures EffectiveQuery(searchText) != GetOrEmpty(debounceBase, "q") ==>
        params == DebouncedParams(debounceBase, searchText)
      ensures EffectiveQuery(searchText) == GetOrEmpty(debounceBase, "q") ==> params == old(params)
      ensures EffectiveQuery(searchText) != GetOrEmpty(debounceBase, "q") ==>
        GetOrEmpty(params, "q") == EffectiveQuery(searchText) &&
        forall other :: other != "q" ==> Get(params, other) == Get(debounceBase, other)
    {
      debouncePending := false;
      var effective := EffectiveQuery(searchText);
      if effective != GetOrEmpty(debounceBase, "q") {
        var next := debounceBase;
        if effective != "" {
          next := Set(next, "q", effective);
        } else {
          next := Delete(next, "q");
        }
        params := next;
        DebounceSetsQuery(debounceBase, searchText, "q");
        forall other | other != "q"
          ensures Get(params, other) == Get(debounceBase, other)
        {
          DebounceSetsQuery(debounceBase, searchText, other);
        }
      }
    }

    /** The back/forward sync: the box takes `q` unless it already shows it, trimmed or not; a new text re-arms the debounce with the query as it is now. */
    method SyncSearchText()
      modifies this`searchText, this`debounceBase, this`debouncePending
      ensures var q := GetOrEmpty(params, "q");
        searchText == if q != Trim(old(searchText)) && q != old(searchText) then q else old(searchText)
      ensures debounceBase == if searchText != old(searchText) then params else old(debounceBase)
      ensures debouncePending == (old(debouncePending) || searchText != old(searchText))
    {
      var q := GetOrEmpty(params, "q");
      if q != Trim(searchText) && q != searchText {
        searchText := q;
        debounceBase := params;
        debouncePending := true;
      }
    }

    /** `updateParam`. */
    method UpdateParam(key: string, value: string)
      modifies this`params
      ensures params == SetOrDelete(old(params), key, value)
    {
      var next := params;
      if value != "" {
        next := Set(next, key, value);
      } else {
        next := Delete(next, key);
      }
      params := next;
    }

    /** `handleFilterChange`: a UF change is also saved as the user's UF. */
    method HandleFilterChange(key: string, value: string)
      requires key in FilterSectionKeys
      modifies this`params, userUf, userUf.storage
      ensures params == FilterChange(old(params), key, value)
      ensures key == "uf" ==> userUf.uf == value && userUf.storage.available == old(userUf.storage.available)
      ensures key == "uf" && userUf.storage.available ==>
        userUf.storage.Get(UfStorageKey) == if value != "" then Some(value) else None
      ensures key != "uf" ==> userUf.uf == old(userUf.uf) && userUf.storage.items == old(userUf.storage.items)
    {
      if key == "uf" {
        userUf.SetUf(value);
        if GetOrEmpty(params, "cidade") != "" {
          var next := params;
          if value != "" {
            next := Set(next, "uf", value);
          } else {
            next := Delete(next, "uf");
          }
          next := Delete(next, "cidade");
          params := next;
          return;
        }
      }
      UpdateParam(key, value);
    }

    /** `clearFilters`. */
    method ClearFilters()
      modifies this`params
      ensures params == ClearedFilters(old(params))
    {
      var q := GetOrEmpty(params, "q");
      params := if q != "" then [("q", q)] else [];
    }

    /** `toggleCompare`. */
    method ToggleCompare(id: int)
      requires Valid()
      modifies this`compareList
      ensures Valid()
      ensures compareList == Toggle(old(compareList), id)
    {
      ToggleKeepsList(compareList, id);
      if id in compareList {
        compareList := Without(compareList, id);
      } else if |compareList| < MaxCompared {
        compareList := compareList + [id];
      }
    }

    /**
     * The first-page effect, run only once initialized: the list restarts at
     * page 1; a failure leaves it empty with nothing more to load.
     * `savedFaixa` is the bracket the render read with `getSavedFaixaEtaria`
     * (`Utils.GetSavedFaixaEtaria` on the page's storage); the caller passes
     * it, since the render reads it before any effect or handler runs.
     */
    method FetchFirstPage(savedFaixa: string, response: Option<PageResponse>) returns (request: Option<seq<(string, Option<string>)>>)
      requires Valid()
      modifies this`items, this`total, this`page, this`hasMore, this`loading
      ensures Valid()
      ensures request.Some? <==> initialized
      ensures request.Some? ==> request.value == SearchEntries(params, Uf(), savedFaixa, 1)
      ensures request.None? ==> items == old(items) && total == old(total) && page == old(page) && hasMore == old(hasMore) && loading == old(loading)
      ensures request.Some? ==> page == 1 && !loading
      ensures request.Some? && response.Some? ==>
        items == response.value.items && total == response.value.total && hasMore == HasMoreAfter(response.value)
      ensures request.Some? && response.None? ==> items == [] && total == 0 && !hasMore
    {
      if !initialized {
        return None;
      }
      request := Some(SearchEntries(params, Uf(), savedFaixa, 1));
      items := [];
      page := 1;
      hasMore := true;
      loading := true;
      match response {
        case Some(data) =>
          items := data.items;
          total := data.total;
          hasMore := HasMoreAfter(data);
          page := 1;
        case None =>
          items := [];
          total := 0;
          hasMore := false;
      }
      loading := false;
    }

    /**
     * `loadMore`: nothing while a page is loading or when no more exist;
     * otherwise page `page + 1` is requested, its plans are appended after
     * the ones shown and the page advances by one; a failure stops loading.
     * `savedFaixa` is the bracket the render read, as for `FetchFirstPage`.
     */
    method LoadMore(savedFaixa: string, response: Option<PageResponse>) returns (request: Option<seq<(string, Option<string>)>>)
      requires Valid()
      modifies this`items, this`total, this`page, this`hasMore, this`loadingMore
      ensures Valid()
      ensures request.Some? <==> !old(loadingMore) && old(hasMore)
      ensures request.None? ==> items == old(items) && total == old(total) && page == old(page) && hasMore == old(hasMore) && loadingMore == old(loadingMore)
      ensures request.Some? ==> request.value == SearchEntries(params, Uf(), savedFaixa, old(page) + 1) && !loadingMore
      ensures request.Some? && response.Some? ==>
        items == old(items) + response.value.items && page == old(page) + 1
        && total == response.value.total && hasMore == HasMoreAfter(response.value)
      ensures request.Some? && response.None? ==> !hasMore && items == old(items) && page == old(page) && total == old(total)
    {
      if loadingMore || !hasMore {
        return None;
      }
      var nextPage := page + 1;
      loadingMore := true;
      request := Some(SearchEntries(params, Uf(), savedFaixa, nextPage));
      match response {
        case Some(data) =>
          items := items + data.items;
          total := data.total;
          hasMore := HasMoreAfter(data);
          page := nextPage;
        case None =>
          hasMore := false;
      }
      loadingMore := false;
    }
  }

  /**
   * The object `buscarPlanos` receives for a page: every filter of the query
   * with `|| undefined`, the age bracket falling back to the saved one, and
   * the order left out when it is the default.
   */
  function SearchEntries(params: Params, uf: string, savedFaixa: string, page: int): (r: seq<(string, Option<string>)>)
    ensures |r| == 11 && ApiClient.DistinctNames(r)
  {
    var faixa := GetOrEmpty(params, "faixa_etaria");
    var ordem := GetOrEmpty(params, "ordem");
    [("q", NonEmpty(GetOrEmpty(params, "q"))),
     ("uf", NonEmpty(uf)),
     ("cidade", NonEmpty(GetOrEmpty(params, "cidade"))),
     ("tipo_contratacao", NonEmpty(GetOrEmpty(params, "tipo_contratacao"))),
     ("segmentacao", NonEmpty(GetOrEmpty(params, "segmentacao"))),
     ("acomodacao", NonEmpty(GetOrEmpty(params, "acomodacao"))),
     ("abrangencia", NonEmpty(GetOrEmpty(params, "abrangencia"))),
     ("faixa_etaria", NonEmpty(if faixa != "" then faixa else savedFaixa)),
     ("ordem", if ordem != "" && ordem != "relevancia" then Some(ordem) else None),
     ("page", Some(Numbers.IntToString(page))),
     ("page_size", Some(Numbers.IntToString(PageSize)))]
  }

  /** The filters copied from the query into the search request. */
  const CopiedFilters := ["q", "cidade", "tipo_contratacao", "segmentacao", "acomodacao", "abrangencia"]

  /**
   * What the request's query string carries: each copied filter as it is in
   * the page's query, absent when empty; the UF; the age bracket of the query,
   * else the saved one; the order only when it is not `relevancia`; the page
   * number and the page size.
   */
  lemma SearchQueryFacts(params: Params, uf: string, savedFaixa: string, page: int, query: Params)
    requires query == ApiClient.PresentEntries(SearchEntries(params, uf, savedFaixa, page))
    ensures forall f :: f in CopiedFilters ==> Get(query, f) == NonEmpty(GetOrEmpty(params, f))
    ensures Get(query, "uf") == NonEmpty(uf)
    ensures Get(query, "faixa_etaria") ==
      NonEmpty(if GetOrEmpty(params, "faixa_etaria") != "" then GetOrEmpty(params, "faixa_etaria") else savedFaixa)
    ensures Get(query, "ordem").None? <==> GetOrEmpty(params, "ordem") in {"", "relevancia"}
    ensures Get(query, "ordem").Some? ==> Get(query, "ordem").value == GetOrEmpty(params, "ordem")
    ensures Get(query, "page") == Some(Numbers.IntToString(page))
    ensures Get(query, "page_size") == Some(Numbers.IntToString(PageSize))
  {
    forall f | f in CopiedFilters ensures Get(query, f) == NonEmpty(GetOrEmpty(params, f)) {
      SearchQueryFilter(params, uf, savedFaixa, page, query, f);
    }
    SearchQueryPlace(params, uf, savedFaixa, page, query);
    SearchQueryPaging(params, uf, savedFaixa, page, query);
  }

  lemma SearchQueryPlace(params: Params, uf: string, savedFaixa: string, page: int, query: Params)
    requires query == ApiClient.PresentEntries(SearchEntries(params, uf, savedFaixa, page))
    ensures Get(query, "uf") == NonEmpty(uf)
    ensures Get(query, "faixa_etaria") ==
      NonEmpty(if GetOrEmpty(params, "faixa_etaria") != "" then GetOrEmpty(params, "faixa_etaria") else savedFaixa)
  {
    var e := SearchEntries(params, uf, savedFaixa, page);
    var faixa := if GetOrEmpty(params, "faixa_etaria") != "" then GetOrEmpty(params, "faixa_etaria") else savedFaixa;
    assert e[1] == ("uf", NonEmpty(uf));
    assert e[7] == ("faixa_etaria", NonEmpty(faixa));
    ApiClient.PresentGet(e, 1);
    ApiClient.PresentGet(e, 7);
  }

  lemma SearchQueryFilter(params: Params, uf: string, savedFaixa: string, page: int, query: Params, f: string)
    requires query == ApiClient.PresentEntries(SearchEntries(params, uf, savedFaixa, page))
    requires f in CopiedFilters
    ensures Get(query, f) == NonEmpty(GetOrEmpty(params, f))
  {
    var e := SearchEntries(params, uf, savedFaixa, page);
    var k := if f == "q" then 0 else if f == "cidade" then 2 else if f == "tipo_contratacao" then 3
      else if f == "segmentacao" then 4 else if f == "acomodacao" then 5 else 6;
    assert e[k].0 == f;
    ApiClient.PresentGet(e, k);
  }

  lemma SearchQueryPaging(params: Params, uf: string, savedFaixa: string, page: int, query: Params)
    requires query == ApiClient.PresentEntries(SearchEntries(params, uf, savedFaixa, page))
    ensures Get(query, "ordem").None? <==> GetOrEmpty(params, "ordem") in {"", "relevancia"}
    ensures Get(query, "ordem").Some? ==> Get(query, "ordem").value == GetOrEmpty(params, "ordem")
    ensures Get(query, "page") == Some(Numbers.IntToString(page))
    ensures Get(query, "page_size") == Some(Numbers.IntToString(PageSize))
  {
    var e := SearchEntries(params, uf, savedFaixa, page);
    ApiClient.PresentGet(e, 8);
    ApiClient.PresentGet(e, 9);
    ApiClient.PresentGet(e, 10);
  }
}
