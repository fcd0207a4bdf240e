/**
 * The home-page search box: three selects and a search that navigates to
 * the plan list with the chosen filters.
 */
module SearchBox {
  import opened Wrappers
  import opened UrlParams
  import opened WebStorage
  import opened UseUserUf

  /** The filters of a search, in the order the box sets them, each only when chosen. */
  function SearchParams(uf: string, tipo: string, faixa: string): Params
  {
    (if uf != "" then [("uf", uf)] else [])
    + (if tipo != "" then [("tipo_contratacao", tipo)] else [])
    + (if faixa != "" then [("faixa_etaria", faixa)] else [])
  }

  /** The search target: `/planos?` and the serialized filters. */
  function SearchTarget(uf: string, tipo: string, faixa: string, enc: string -> string): string
  {
    "/planos?" + Serialize(SearchParams(uf, tipo, faixa), enc)
  }

  /**
   * Each filter is in the target exactly when it was chosen, with its
   * value; with nothing chosen the target is the bare `/planos?`.
   */
  lemma SearchParamsFacts(uf: string, tipo: string, faixa: string, enc: string -> string)
    ensures Get(SearchParams(uf, tipo, faixa), "uf") == if uf != "" then Some(uf) else None
    ensures Get(SearchParams(uf, tipo, faixa), "tipo_contratacao") == if tipo != "" then Some(tipo) else None
    ensures Get(SearchParams(uf, tipo, faixa), "faixa_etaria") == if faixa != "" then Some(faixa) else None
    ensures |SearchParams(uf, tipo, faixa)| <= 3
    ensures SearchTarget(uf, tipo, faixa, enc) == "/planos?" <==> uf == "" && tipo == "" && faixa == ""
  {
    var a: Params := if uf != "" then [("uf", uf)] else [];
    var b: Params := if tipo != "" then [("tipo_contratacao", tipo)] else [];
    var c: Params := if faixa != "" then [("faixa_etaria", faixa)] else [];
    GetAppend(a, b + c, "uf");
    GetAppend(b, c, "uf");
    GetAppend(a, b + c, "tipo_contratacao");
    GetAppend(b, c, "tipo_contratacao");
    GetAppend(a, b + c, "faixa_etaria");
    GetAppend(b, c, "faixa_etaria");
    assert SearchParams(uf, tipo, faixa) == a + (b + c);
    SerializeEmpty(SearchParams(uf, tipo, faixa), enc);
    var t := SearchTarget(uf, tipo, faixa, enc);
    assert t == "/planos?" + Serialize(SearchParams(uf, tipo, faixa), enc);
    if t == "/planos?" {
      assert |t| == |"/planos?"| + |Serialize(SearchParams(uf, tipo, faixa), enc)|;
    }
  }

  class SearchBox {
    const userUf: UserUf
    var uf: string
    var tipo: string
    var faixa: string

    /** The UF starts as `defaultUf` when one is given (even `""`), and as the detected UF otherwise. */
    constructor (defaultUf: Option<string>, defaultTipo: string, defaultFaixa: string, userUf: UserUf)
      ensures this.userUf == userUf
      ensures uf == (if defaultUf.Some? then defaultUf.value else userUf.uf)
      ensures tipo == defaultTipo && faixa == defaultFaixa
    {
      this.userUf := userUf;
      uf := defaultUf.GetOr(userUf.uf);
      tipo := defaultTipo;
      faixa := defaultFaixa;
    }

    /** `handleUfChange`: the box, the saved UF and the `onUfChange` callback (the returned value) all get the value. */
    method HandleUfChange(value: string) returns (notified: string)
      modifies this`uf, userUf, userUf.storage
      ensures uf == value && userUf.uf == value && notified == value
      ensures userUf.storage.available == old(userUf.storage.available)
      ensures userUf.storage.available ==> userUf.storage.Get(UfStorageKey) == if value != "" then Some(value) else None
    {
      uf := value;
      userUf.SetUf(value);
      notified := value;
    }

    method SetTipo(value: string)
      modifies this`tipo
      ensures tipo == value
    {
      tipo := value;
    }

    method SetFaixa(value: string)
      modifies this`faixa
      ensures faixa == value
    {
      faixa := value;
    }

    /** `handleSearch`: the chosen filters are set on an empty query, in order, and the target returned. */
    method HandleSearch(enc: string -> string) returns (target: string)
      ensures target == SearchTarget(uf, tipo, faixa, enc)
    {
      var params: Params := [];
      if uf != "" {
        params := Set(params, "uf", uf);
      }
      assert params == SearchParams(uf, "", "");
      if tipo != "" {
        GetAppend(params, [], "tipo_contratacao");
        params := Set(params, "tipo_contratacao", tipo);
      }
      assert params == SearchParams(uf, tipo, "");
      if faixa != "" {
        GetAppend([("uf", uf)], [("tipo_contratacao", tipo)], "faixa_etaria");
        params := Set(params, "faixa_etaria", faixa);
      }
      assert params == SearchParams(uf, tipo, faixa);
      target := "/planos?" + Serialize(params, enc);
    }

    /** Enter anywhere in the box runs the search; other keys do nothing. */
    method HandleKeyDown(isEnter: bool, enc: string -> string) returns (target: Option<string>)
      ensures target == if isEnter then Some(SearchTarget(uf, tipo, faixa, enc)) else None
    {
      target := None;
      if isEnter {
        var t := HandleSearch(enc);
        target := Some(t);
      }
    }
  }
}
