/**
 * Shared helpers of the application: IDSS presentation, price levels, the
 * competência formatter, initials, and the preferences kept in local storage
 * (the age band, with its migration from the old short codes, and the plan
 * search filters).
 */
module Utils {
  import opened Wrappers
  import opened Text
  import opened WebStorage
  import opened UrlParams
  import FilterJson

  // ---------------------------------------------------------------- IDSS

  /** Text colour for an IDSS score (`null` is no score). */
  function IdssColor(score: Option<real>): string
  {
    if score.None? then "text-gray-400"
    else if score.value >= 0.8 then "text-success"
    else if score.value >= 0.6 then "text-warning"
    else "text-danger"
  }

  /** Background and text colour classes for an IDSS score. */
  function IdssBgColor(score: Option<real>): string
  {
    if score.None? then "bg-gray-100 text-gray-500"
    else if score.value >= 0.8 then "bg-green-100 text-green-800"
    else if score.value >= 0.6 then "bg-yellow-100 text-yellow-800"
    else "bg-red-100 text-red-800"
  }

  /** Letter grade for an IDSS score. */
  function IdssBadge(score: Option<real>): string
  {
    if score.None? then "N/A"
    else if score.value >= 0.8 then "A"
    else if score.value >= 0.6 then "B"
    else "C"
  }

  /** Verbal label for an IDSS score. */
  function IdssLabel(score: Option<real>): string
  {
    if score.None? then "Sem avaliação"
    else if score.value >= 0.8 then "Excelente"
    else if score.value >= 0.6 then "Regular"
    else "Precisa melhorar"
  }

  /** Rank of a letter grade: 0 for no grade, then C < B < A. */
  function BadgeRank(badge: string): nat
  {
    if badge == "A" then 3 else if badge == "B" then 2 else if badge == "C" then 1 else 0
  }

  /**
   * The four helpers agree: each picks its first, second, third or fourth
   * output for the same scores (no score, at least 0.8, at least 0.6, below).
   */
  lemma IdssHelpersAgree(score: Option<real>)
    ensures IdssBadge(score) == "N/A" <==> IdssLabel(score) == "Sem avaliação"
    ensures IdssBadge(score) == "N/A" <==> IdssColor(score) == "text-gray-400"
    ensures IdssBadge(score) == "N/A" <==> IdssBgColor(score) == "bg-gray-100 text-gray-500"
    ensures IdssBadge(score) == "A" <==> IdssLabel(score) == "Excelente"
    ensures IdssBadge(score) == "A" <==> IdssColor(score) == "text-success"
    ensures IdssBadge(score) == "A" <==> IdssBgColor(score) == "bg-green-100 text-green-800"
    ensures IdssBadge(score) == "B" <==> IdssLabel(score) == "Regular"
    ensures IdssBadge(score) == "B" <==> IdssColor(score) == "text-warning"
    ensures IdssBadge(score) == "B" <==> IdssBgColor(score) == "bg-yellow-100 text-yellow-800"
    ensures IdssBadge(score) == "C" <==> IdssLabel(score) == "Precisa melhorar"
    ensures IdssBadge(score) == "C" <==> IdssColor(score) == "text-danger"
    ensures IdssBadge(score) == "C" <==> IdssBgColor(score) == "bg-red-100 text-red-800"
  {
  }

  /** A higher score never gets a worse grade, and every score gets a grade. */
  lemma IdssBadgeMonotone(a: real, b: real)
    requires a <= b
    ensures 1 <= BadgeRank(IdssBadge(Some(a))) <= BadgeRank(IdssBadge(Some(b)))
  {
  }

  // --------------------------------------------------------- price levels

  /** `getPriceLevel`: `$` below 300, `$$` below 600, `$$$` below 1000, `$$$$` from 1000. */
  function GetPriceLevel(value: Option<real>): Option<string>
  {
    if value.None? then None
    else if value.value < 300.0 then Some("$")
    else if value.value < 600.0 then Some("$$")
    else if value.value < 1000.0 then Some("$$$")
    else Some("$$$$")
  }

  /** Number of the thresholds 300, 600 and 1000 that a value reaches. */
  function ThresholdsReached(v: real): nat
  {
    (if v >= 300.0 then 1 else 0) + (if v >= 600.0 then 1 else 0) + (if v >= 1000.0 then 1 else 0)
  }

  /**
   * A present price always gets a level, made of one `$` per threshold
   * reached plus one; a missing price gets none.
   */
  lemma PriceLevelCountsThresholds(value: Option<real>)
    ensures GetPriceLevel(value).Some? <==> value.Some?
    ensures value.Some? ==> |GetPriceLevel(value).value| == ThresholdsReached(value.value) + 1
    ensures value.Some? ==> forall i :: 0 <= i < |GetPriceLevel(value).value| ==> GetPriceLevel(value).value[i] == '$'
  {
  }

  /** A higher price never gets a lower level. */
  lemma PriceLevelMonotone(a: real, b: real)
    requires a <= b
    ensures |GetPriceLevel(Some(a)).value| <= |GetPriceLevel(Some(b)).value|
  {
    PriceLevelCountsThresholds(Some(a));
    PriceLevelCountsThresholds(Some(b));
  }

  /** `getPriceLevelLabel`: the label of each level. */
  function PriceLevelLabel(level: string): Option<string>
  {
    if level == "$" then Some("Econômico")
    else if level == "$$" then Some("Intermediário")
    else if level == "$$$" then Some("Premium")
    else if level == "$$$$" then Some("Top")
    else None
  }

  /** Every level `getPriceLevel` produces has a label, and different levels have different labels. */
  lemma PriceLevelLabelled(a: real, b: real)
    ensures PriceLevelLabel(GetPriceLevel(Some(a)).value).Some?
    ensures GetPriceLevel(Some(a)) != GetPriceLevel(Some(b))
        ==> PriceLevelLabel(GetPriceLevel(Some(a)).value) != PriceLevelLabel(GetPriceLevel(Some(b)).value)
  {
  }

  // --------------------------------------------------------------- lists

  const UfList: seq<string> := [
    "AC", "AL", "AM", "AP", "BA", "CE", "DF", "ES", "GO", "MA",
    "MG", "MS", "MT", "PA", "PB", "PE", "PI", "PR", "RJ", "RN",
    "RO", "RR", "RS", "SC", "SE", "SP", "TO"]

  /** The age bands as the database stores them. */
  const FaixasEtarias: seq<string> := [
    "00 a 18 anos", "19 a 23 anos", "24 a 28 anos", "29 a 33 anos", "34 a 38 anos",
    "39 a 43 anos", "44 a 48 anos", "49 a 53 anos", "54 a 58 anos", "59 anos ou mais"]

  // ------------------------------------------------------------ competência

  function RemoveDashes(s: string): (r: string)
    ensures |r| <= |s|
    ensures forall k :: 0 <= k < |r| ==> r[k] in s && r[k] != '-'
  {
    if s == [] then [] else (if s[0] == '-' then [] else [s[0]]) + RemoveDashes(s[1..])
  }

  /**
   * `formatCompetencia`: `DD/MM/YYYY` becomes `MM/YYYY`; other slashed text is
   * kept; otherwise, with the dashes removed, `YYYYMM...` becomes `MM/YYYY`
   * and a bare year is kept. Empty input gives no label.
   */
  function FormatCompetencia(value: Option<string>): (r: Option<string>)
    ensures r.Some? <==> value.Some? && value.value != ""
    ensures r.Some? ==> r.value != ""
    ensures r.Some? && '/' in value.value ==>
      r.value == if |SplitOn(value.value, "/")| == 3 && |SplitOn(value.value, "/")[2]| == 4
                 then SplitOn(value.value, "/")[1] + "/" + SplitOn(value.value, "/")[2]
                 else value.value
    ensures r.Some? && '/' !in value.value && |RemoveDashes(value.value)| >= 6 ==>
      r.value == RemoveDashes(value.value)[4..6] + "/" + RemoveDashes(value.value)[..4]
    ensures r.Some? && '/' !in value.value && |RemoveDashes(value.value)| == 4 ==> r.value == RemoveDashes(value.value)
    ensures r.Some? && '/' !in value.value && |RemoveDashes(value.value)| < 6 && |RemoveDashes(value.value)| != 4 ==> r == value
  {
    if value.None? || value.value == "" then None
    else
      var v := value.value;
      if '/' in v then
        var parts := SplitOn(v, "/");
        if |parts| == 3 && |parts[2]| == 4 then Some(parts[1] + "/" + parts[2]) else Some(v)
      else
        var clean := RemoveDashes(v);
        if |clean| >= 6 then Some(clean[4..6] + "/" + clean[..4])
        else if |clean| == 4 then Some(clean)
        else Some(v)
  }

  /** `a/b` with no slash in `a` or `b` splits into exactly `a` and `b`. */
  lemma SplitPair(a: string, b: string)
    requires '/' !in a && '/' !in b
    ensures SplitOn(a + "/" + b, "/") == [a, b]
  {
    SplitJoin([a, b], '/');
    assert JoinWith([a, b], "/") == a + "/" + JoinWith([b], "/");
  }

  /** Formatting a label that `formatCompetencia` produced leaves it unchanged. */
  lemma FormatCompetenciaIdempotent(value: Option<string>)
    requires FormatCompetencia(value).Some?
    ensures FormatCompetencia(FormatCompetencia(value)) == FormatCompetencia(value)
  {
    var v := value.value;
    if '/' in v {
      var parts := SplitOn(v, "/");
      if |parts| == 3 && |parts[2]| == 4 {
        SplitPiecesFree(v, '/');
        SplitPair(parts[1], parts[2]);
      }
    } else {
      var clean := RemoveDashes(v);
      if |clean| >= 6 {
        assert '/' !in clean[4..6] && '/' !in clean[..4] by {
          forall c | c in clean[4..6] + clean[..4] ensures c in clean { }
        }
        var r := clean[4..6] + "/" + clean[..4];
        SplitPair(clean[4..6], clean[..4]);
        assert '/' in r by { assert r[2] == '/'; }
      } else if |clean| == 4 {
        assert RemoveDashes(clean) == clean by { RemoveDashesNoDash(clean); }
      }
    }
  }

  /** `DD/MM/YYYY` becomes `MM/YYYY`. */
  lemma CompetenciaOfDate(d: string, m: string, y: string)
    requires '/' !in d && '/' !in m && '/' !in y && |y| == 4
    ensures FormatCompetencia(Some(d + "/" + m + "/" + y)) == Some(m + "/" + y)
  {
    var v := d + "/" + m + "/" + y;
    SplitJoin([d, m, y], '/');
    assert JoinWith([m, y], "/") == m + "/" + JoinWith([y], "/");
    assert JoinWith([d, m, y], "/") == d + "/" + JoinWith([m, y], "/");
    assert v == JoinWith([d, m, y], "/");
    assert v[|d|] == '/';
  }

  /** Text already in `MM/YYYY` form (one slash) is kept as it is. */
  lemma CompetenciaOfMonthYear(m: string, y: string)
    requires '/' !in m && '/' !in y
    ensures FormatCompetencia(Some(m + "/" + y)) == Some(m + "/" + y)
  {
    SplitPair(m, y);
    assert (m + "/" + y)[|m|] == '/';
  }

  /**
   * `YYYYMM...` and `YYYY-MM...` become `MM/YYYY`: the first four characters
   * left after removing the dashes are the year, the next two the month.
   */
  lemma CompetenciaOfYearMonth(y: string, m: string, rest: string, dash: bool)
    requires |y| == 4 && |m| == 2
    requires '-' !in y && '-' !in m && '-' !in rest
    requires '/' !in y && '/' !in m && '/' !in rest
    ensures FormatCompetencia(Some(y + (if dash then "-" else "") + m + rest)) == Some(m + "/" + y)
  {
    var v := y + (if dash then "-" else "") + m + rest;
    YearMonthClean(y, m, rest, dash);
    var clean := y + m + rest;
    assert clean[4..6] == m && clean[..4] == y;
  }

  /** Removing the dashes from `YYYY-MM...` leaves `YYYYMM...`, with no slash anywhere. */
  lemma YearMonthClean(y: string, m: string, rest: string, dash: bool)
    requires '-' !in y && '-' !in m && '-' !in rest
    requires '/' !in y && '/' !in m && '/' !in rest
    ensures RemoveDashes(y + (if dash then "-" else "") + m + rest) == y + m + rest
    ensures '/' !in y + (if dash then "-" else "") + m + rest
  {
    var sep := if dash then "-" else "";
    var tail := m + rest;
    assert y + sep + m + rest == y + (sep + tail) by { }
    assert y + tail == y + m + rest by { }
    AbsentFromBoth('-', m, rest);
    AbsentFromBoth('/', m, rest);
    AbsentFromBoth('/', sep, tail);
    AbsentFromBoth('/', y, sep + tail);
    RemoveDashesParts(y, sep, tail);
  }

  lemma AbsentFromBoth(c: char, a: string, b: string)
    requires c !in a && c !in b
    ensures c !in a + b
  {
  }

  lemma RemoveDashesParts(y: string, sep: string, tail: string)
    requires '-' !in y && '-' !in tail && (sep == "" || sep == "-")
    ensures RemoveDashes(y + (sep + tail)) == y + tail
  {
    RemoveDashesNoDash(y);
    RemoveDashesNoDash(tail);
    assert RemoveDashes(sep) == "" by {
      if sep == "-" { assert RemoveDashes("-") == [] + RemoveDashes([]); }
    }
    RemoveDashesAppend(sep, tail);
    assert "" + tail == tail;
    assert RemoveDashes(sep + tail) == tail;
    RemoveDashesAppend(y, sep + tail);
  }

  /** A bare year `YYYY` is kept. */
  lemma CompetenciaOfYear(y: string)
    requires |y| == 4 && '-' !in y && '/' !in y
    ensures FormatCompetencia(Some(y)) == Some(y)
  {
    RemoveDashesNoDash(y);
  }

  /**
   * The four labels the documentation of `formatCompetencia` lists, each an
   * instance of a general lemma above (one helper per label keeps each
   * proof small).
   */
  lemma CompetenciaExamples()
    ensures FormatCompetencia(Some("202401")) == Some("01/2024")
    ensures FormatCompetencia(Some("2024-10")) == Some("10/2024")
    ensures FormatCompetencia(Some("25/08/2026")) == Some("08/2026")
    ensures FormatCompetencia(Some("2024")) == Some("2024")
  {
    CompactExample();
    DashedExample();
    DateExample();
    CompetenciaOfYear("2024");
  }

  lemma CompactExample()
    ensures FormatCompetencia(Some("202401")) == Some("01/2024")
  {
    CompetenciaOfYearMonth("2024", "01", "", false);
    assert "2024" + "" + "01" + "" == "202401";
    assert "01" + "/" + "2024" == "01/2024";
  }

  lemma DashedExample()
    ensures FormatCompetencia(Some("2024-10")) == Some("10/2024")
  {
    CompetenciaOfYearMonth("2024", "10", "", true);
    assert "2024" + "-" + "10" + "" == "2024-10";
    assert "10" + "/" + "2024" == "10/2024";
  }

  lemma DateExample()
    ensures FormatCompetencia(Some("25/08/2026")) == Some("08/2026")
  {
    CompetenciaOfDate("25", "08", "2026");
    assert "25" + "/" + "08" + "/" + "2026" == "25/08/2026" && "08" + "/" + "2026" == "08/2026";
  }

  lemma {:induction false} RemoveDashesAppend(a: string, b: string)
    ensures RemoveDashes(a + b) == RemoveDashes(a) + RemoveDashes(b)
    decreases |a|
  {
    if a == [] {
      assert a + b == b;
    } else {
      var h := if a[0] == '-' then "" else [a[0]];
      RemoveDashesAppend(a[1..], b);
      assert (a + b)[0] == a[0] && (a + b)[1..] == a[1..] + b;
      assert RemoveDashes(a + b) == h + RemoveDashes(a[1..] + b);
      assert h + (RemoveDashes(a[1..]) + RemoveDashes(b)) == (h + RemoveDashes(a[1..])) + RemoveDashes(b);
    }
  }

  lemma {:induction false} RemoveDashesNoDash(s: string)
    requires '-' !in s
    ensures RemoveDashes(s) == s
    decreases |s|
  {
    if s != [] {
      RemoveDashesNoDash(s[1..]);
      assert [s[0]] + s[1..] == s;
    }
  }

  // ---------------------------------------------------------------- initials

  /** The words longer than two characters, in order. */
  function LongWords(words: seq<string>): (r: seq<string>)
    ensures forall i :: 0 <= i < |r| ==> |r[i]| > 2
    ensures |r| <= |words|
  {
    if words == [] then []
    else (if |words[0]| > 2 then [words[0]] else []) + LongWords(words[1..])
  }

  /** A word is kept exactly when it is one of the words and is longer than two characters. */
  lemma {:induction false} LongWordsMembers(words: seq<string>, w: string)
    ensures w in LongWords(words) <==> w in words && |w| > 2
    decreases |words|
  {
    if words != [] {
      LongWordsMembers(words[1..], w);
      assert words == [words[0]] + words[1..];
    }
  }

  /** Filtering a concatenation filters each part and keeps them in order. */
  lemma {:induction false} LongWordsAppend(a: seq<string>, b: seq<string>)
    ensures LongWords(a + b) == LongWords(a) + LongWords(b)
    decreases |a|
  {
    if a == [] {
      assert a + b == b;
    } else {
      var h: seq<string> := if |a[0]| > 2 then [a[0]] else [];
      LongWordsAppend(a[1..], b);
      assert (a + b)[0] == a[0] && (a + b)[1..] == a[1..] + b;
      assert LongWords(a + b) == h + LongWords(a[1..] + b);
      assert h + (LongWords(a[1..]) + LongWords(b)) == (h + LongWords(a[1..])) + LongWords(b);
    }
  }

  function FirstLetters(words: seq<string>): (r: string)
    requires forall i :: 0 <= i < |words| ==> words[i] != []
    ensures |r| == |words| && forall i :: 0 <= i < |words| ==> r[i] == words[i][0]
  {
    if words == [] then [] else [words[0][0]] + FirstLetters(words[1..])
  }

  /** `getInitials`: the upper-cased first letters of the first two words longer than two characters. */
  function GetInitials(name: string): (r: string)
    ensures |r| <= 2
    ensures |r| == if |LongWords(SplitOn(name, " "))| < 2 then |LongWords(SplitOn(name, " "))| else 2
    ensures forall i :: 0 <= i < |r| ==> r[i] == UpperChar(LongWords(SplitOn(name, " "))[i][0])
  {
    var long := LongWords(SplitOn(name, " "));
    ToUpper(FirstLetters(long[..if |long| < 2 then |long| else 2]))
  }

  /** For two long space-free words, the initials are their first letters in upper case. */
  lemma InitialsOfTwoWords(a: string, b: string)
    requires |a| > 2 && |b| > 2 && ' ' !in a && ' ' !in b
    ensures GetInitials(a + " " + b) == [UpperChar(a[0]), UpperChar(b[0])]
  {
    SplitJoin([a, b], ' ');
    assert JoinWith([a, b], " ") == a + " " + JoinWith([b], " ");
    assert LongWords([a, b]) == [a, b] by {
      assert LongWords([a, b]) == [a] + LongWords([b]);
      assert LongWords([b]) == [b] + LongWords([]);
    }
    assert [a, b][..2] == [a, b];
  }

  /** Words of two characters or fewer never contribute an initial. */
  lemma InitialsSkipShortWords(a: string, b: string)
    requires |a| <= 2 && ' ' !in a && ' ' !in b
    ensures GetInitials(a + " " + b) == GetInitials(b)
  {
    SplitJoin([a, b], ' ');
    assert JoinWith([a, b], " ") == a + " " + JoinWith([b], " ");
    SplitWithout(b, ' ');
    assert LongWords([a, b]) == LongWords([b]) by {
      assert LongWords([a, b]) == [] + LongWords([b]);
    }
  }

  // -------------------------------------------------------------- age band

  const FaixaStorageKey := "saude_faixa_etaria"

  /** Old short age-band codes and the database value each one stands for. */
  const FaixaMigration: map<string, string> := map[
    "0-18" := "00 a 18 anos", "19-23" := "19 a 23 anos", "24-28" := "24 a 28 anos",
    "29-33" := "29 a 33 anos", "34-38" := "34 a 38 anos", "39-43" := "39 a 43 anos",
    "44-48" := "44 a 48 anos", "49-53" := "49 a 53 anos", "54-58" := "54 a 58 anos",
    "59+" := "59 anos ou mais"]

  /** Every old code migrates to one of the ten database bands. */
  lemma MigrationTargetsAreBands()
    ensures forall k :: k in FaixaMigration ==> FaixaMigration[k] in FaixasEtarias
  {
    assert FaixaMigration["0-18"] == FaixasEtarias[0];
    assert FaixaMigration["19-23"] == FaixasEtarias[1];
    assert FaixaMigration["24-28"] == FaixasEtarias[2];
    assert FaixaMigration["29-33"] == FaixasEtarias[3];
    assert FaixaMigration["34-38"] == FaixasEtarias[4];
    assert FaixaMigration["39-43"] == FaixasEtarias[5];
    assert FaixaMigration["44-48"] == FaixasEtarias[6];
    assert FaixaMigration["49-53"] == FaixasEtarias[7];
    assert FaixaMigration["54-58"] == FaixasEtarias[8];
    assert FaixaMigration["59+"] == FaixasEtarias[9];
  }

  /** Old codes have at most five characters. */
  lemma CodesShort()
    ensures forall k :: k in FaixaMigration ==> |k| <= 5
  {
  }

  /** Database bands have at least twelve. */
  lemma BandsLong()
    ensures forall f :: f in FaixasEtarias ==> |f| >= 12
  {
  }

  /** No database band is itself an old code, so migrating twice changes nothing. */
  lemma MigrationTargetsNotCodes()
    ensures forall k :: k in FaixaMigration ==> FaixaMigration[k] !in FaixaMigration
  {
    MigrationTargetsAreBands();
    CodesShort();
    BandsLong();
  }

  /**
   * `getSavedFaixaEtaria`: the stored band (or `""`); an old code is rewritten
   * to its database value, which is stored back. The result is never an old
   * code, and when it is not empty it is what storage now holds, so a second
   * call returns the same value and writes nothing.
   */
  method GetSavedFaixaEtaria(st: Storage) returns (r: string)
    modifies st
    ensures st.available == old(st.available)
    ensures r !in FaixaMigration
    ensures r != "" ==> st.Get(FaixaStorageKey) == Some(r)
    ensures var raw := old(st.Get(FaixaStorageKey)).GetOr("");
      if raw in FaixaMigration then r == FaixaMigration[raw] && st.items == old(st.items)[FaixaStorageKey := r]
      else r == raw && st.items == old(st.items)
  {
    MigrationTargetsNotCodes();
    var raw := st.Get(FaixaStorageKey).GetOr("");
    if raw in FaixaMigration {
      var migrated := FaixaMigration[raw];
      var ok := st.SetItem(FaixaStorageKey, migrated);
      r := if ok then migrated else "";
    } else {
      r := raw;
    }
  }

  /** `saveFaixaEtaria`: stores a non-empty band and removes the key for an empty one. */
  method SaveFaixaEtaria(st: Storage, value: string)
    modifies st
    ensures st.available == old(st.available)
    ensures st.items == if !st.available then old(st.items)
                        else if value != "" then old(st.items)[FaixaStorageKey := value]
                        else old(st.items) - {FaixaStorageKey}
  {
    var ok;
    if value != "" {
      ok := st.SetItem(FaixaStorageKey, value);
    } else {
      ok := st.RemoveItem(FaixaStorageKey);
    }
  }

  // ---------------------------------------------------------- plan filters

  const FiltersStorageKey := "saude_planos_filters"

  const PersistedFilterKeys: seq<string> := [
    "q", "uf", "cidade", "tipo_contratacao", "segmentacao",
    "acomodacao", "abrangencia", "faixa_etaria", "ordem"]

  /** The filters kept from `ps`: each of `keys` whose value is not empty, in the order of `keys`. */
  function KeptFilters(ps: Params, keys: seq<string>): FilterJson.Fields
  {
    if keys == [] then []
    else
      var key := keys[|keys| - 1];
      var value := GetOrEmpty(ps, key);
      KeptFilters(ps, keys[..|keys| - 1]) + (if value != "" then [(key, value)] else [])
  }

  /** Exactly the listed names with a non-empty value are kept, each with its current value. */
  lemma {:induction false} KeptFiltersExact(ps: Params, keys: seq<string>, name: string, value: string)
    ensures (name, value) in KeptFilters(ps, keys) <==> name in keys && value != "" && GetOrEmpty(ps, name) == value
    decreases |keys|
  {
    if keys != [] {
      var init := keys[..|keys| - 1];
      KeptFiltersExact(ps, init, name, value);
      assert keys == init + [keys[|keys| - 1]];
    }
  }

  /** `savePlanoFilters`: stores the JSON of the whitelisted non-empty filters. */
  method SavePlanoFilters(st: Storage, params: Params)
    modifies st
    ensures st.available == old(st.available)
    ensures st.items == if st.available
      then old(st.items)[FiltersStorageKey := FilterJson.Stringify(KeptFilters(params, PersistedFilterKeys))]
      else old(st.items)
    ensures st.available ==> GetSavedPlanoFilters(st) == KeptFilters(params, PersistedFilterKeys)
  {
    var kept: FilterJson.Fields := [];
    for i := 0 to |PersistedFilterKeys|
      invariant kept == KeptFilters(params, PersistedFilterKeys[..i])
    {
      var key := PersistedFilterKeys[i];
      var value := GetOrEmpty(params, key);
      assert PersistedFilterKeys[..i + 1][..i] == PersistedFilterKeys[..i];
      if value != "" {
        kept := kept + [(key, value)];
      }
    }
    assert PersistedFilterKeys[..|PersistedFilterKeys|] == PersistedFilterKeys;
    var ok := st.SetItem(FiltersStorageKey, FilterJson.Stringify(kept));
    SavedFiltersRoundTrip(kept);
  }

  /** What `getSavedPlanoFilters` makes of the stored text: nothing stored, or unreadable JSON, gives no filters. */
  function ReadSavedFilters(raw: Option<string>): FilterJson.Fields
  {
    if raw.None? || raw.value == "" then []
    else FilterJson.Parse(raw.value).GetOr([])
  }

  /** `getSavedPlanoFilters`. */
  function GetSavedPlanoFilters(st: Storage): FilterJson.Fields
    reads st
  {
    ReadSavedFilters(st.Get(FiltersStorageKey))
  }

  /** Filters saved as JSON are read back unchanged. */
  lemma SavedFiltersRoundTrip(f: FilterJson.Fields)
    ensures ReadSavedFilters(Some(FilterJson.Stringify(f))) == f
  {
    FilterJson.ParseStringify(f);
  }
}
