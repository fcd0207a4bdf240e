/**
 * `JSON.stringify` and `JSON.parse` for the flat objects of strings in which
 * the saved plan filters are kept: `{"name":"value",...}` with `"` and `\`
 * escaped inside strings. The writer is given in continuation style (each
 * piece is prepended to what follows it).
 */
module FilterJson {
  import opened Wrappers

  type Fields = seq<(string, string)>

  /** The escaped characters of `x`, followed by `tail`. */
  function EscapeThen(x: string, tail: string): string
  {
    if x == [] then tail
    else if x[0] == '"' || x[0] == '\\' then ['\\', x[0]] + EscapeThen(x[1..], tail)
    else [x[0]] + EscapeThen(x[1..], tail)
  }

  /** The string literal for `x`, followed by `tail`. */
  function QuoteThen(x: string, tail: string): string
  {
    ['"'] + EscapeThen(x, ['"'] + tail)
  }

  /** The members `"name":"value"` of `f` separated by commas, the closing brace, then `tail`. */
  function MembersThen(f: Fields, tail: string): string
    requires f != []
  {
    QuoteThen(f[0].0, [':'] + QuoteThen(f[0].1,
      if |f| == 1 then ['}'] + tail else [','] + MembersThen(f[1..], tail)))
  }

  /** `JSON.stringify(obj)` of a flat object whose values are strings. */
  function Stringify(f: Fields): string
  {
    if f == [] then "{}" else ['{'] + MembersThen(f, "")
  }

  /** Reads the characters of a string literal after its opening quote; gives the value and what follows the closing quote. */
  function ParseStringBody(s: string): (r: Option<(string, string)>)
    ensures r.Some? ==> |r.value.1| < |s|
  {
    if s == [] then None
    else if s[0] == '"' then Some(("", s[1..]))
    else if s[0] == '\\' then
      if |s| >= 2 && (s[1] == '"' || s[1] == '\\') then
        match ParseStringBody(s[2..])
        case None => None
        case Some((v, rest)) => Some(([s[1]] + v, rest))
      else None
    else
      match ParseStringBody(s[1..])
      case None => None
      case Some((v, rest)) => Some(([s[0]] + v, rest))
  }

  function ParseString(s: string): (r: Option<(string, string)>)
    ensures r.Some? ==> |r.value.1| < |s|
  {
    if s != [] && s[0] == '"' then ParseStringBody(s[1..]) else None
  }

  /** Reads `"name":"value"` members separated by commas up to the closing brace; gives them and what follows. */
  function ParseMembers(s: string): (r: Option<(Fields, string)>)
    ensures r.Some? ==> |r.value.1| < |s|
    decreases |s|
  {
    match ParseString(s)
    case None => None
    case Some((k, r1)) =>
      if r1 == [] || r1[0] != ':' then None
      else
        match ParseString(r1[1..])
        case None => None
        case Some((v, r2)) =>
          if r2 == [] then None
          else if r2[0] == '}' then Some(([(k, v)], r2[1..]))
          else if r2[0] == ',' then
            match ParseMembers(r2[1..])
            case None => None
            case Some((f, r3)) => Some(([(k, v)] + f, r3))
          else None
  }

  /** `JSON.parse(s)` for the flat string objects `Stringify` writes; `None` where `JSON.parse` would throw or the text has another shape. */
  function Parse(s: string): Option<Fields>
  {
    if s == "{}" then Some([])
    else if s != [] && s[0] == '{' then
      match ParseMembers(s[1..])
      case Some((f, rest)) => if rest == [] then Some(f) else None
      case None => None
    else None
  }

  lemma {:induction false} ParseEscaped(x: string, rest: string)
    ensures ParseStringBody(EscapeThen(x, ['"'] + rest)) == Some((x, rest))
    decreases |x|
  {
    if x == [] {
      assert (['"'] + rest)[1..] == rest;
    } else {
      ParseEscaped(x[1..], rest);
      var tail := EscapeThen(x[1..], ['"'] + rest);
      if x[0] == '"' || x[0] == '\\' {
        assert (['\\', x[0]] + tail)[2..] == tail;
      } else {
        assert ([x[0]] + tail)[1..] == tail;
      }
      assert [x[0]] + x[1..] == x;
    }
  }

  lemma ParseQuoted(x: string, rest: string)
    ensures ParseString(QuoteThen(x, rest)) == Some((x, rest))
  {
    ParseEscaped(x, rest);
    assert QuoteThen(x, rest)[1..] == EscapeThen(x, ['"'] + rest);
  }

  /** How `ParseMembers` proceeds once a name, a colon and a value have been read. */
  lemma ParseMembersStep(s: string, k: string, x: string, v: string, r2: string)
    requires ParseString(s) == Some((k, [':'] + x))
    requires ParseString(x) == Some((v, r2))
    requires r2 != [] && (r2[0] == '}' || r2[0] == ',')
    ensures ParseMembers(s) == if r2[0] == '}' then Some(([(k, v)], r2[1..]))
      else match ParseMembers(r2[1..])
           case None => None
           case Some((g, r3)) => Some(([(k, v)] + g, r3))
  {
    assert ([':'] + x)[1..] == x;
  }

  lemma {:induction false} ParseMembersOf(f: Fields, rest: string)
    requires f != []
    ensures ParseMembers(MembersThen(f, rest)) == Some((f, rest))
    decreases |f|
  {
    var k, v := f[0].0, f[0].1;
    var tail := if |f| == 1 then ['}'] + rest else [','] + MembersThen(f[1..], rest);
    var x := QuoteThen(v, tail);
    ParseQuoted(k, [':'] + x);
    ParseQuoted(v, tail);
    ParseMembersStep(MembersThen(f, rest), k, x, v, tail);
    if |f| > 1 {
      ParseMembersOf(f[1..], rest);
      assert tail[1..] == MembersThen(f[1..], rest);
      assert [(k, v)] + f[1..] == f;
    } else {
      assert tail[1..] == rest;
      assert [(k, v)] == f;
    }
  }

  /** What `Stringify` writes, `Parse` reads back unchanged. */
  lemma ParseStringify(f: Fields)
    ensures Parse(Stringify(f)) == Some(f)
  {
    if f != [] {
      var s := Stringify(f);
      ParseMembersOf(f, "");
      assert s[1..] == MembersThen(f, "");
      assert s != "{}" by { assert s[1] == '"'; }
    }
  }
}
