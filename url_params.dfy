/**
 * `URLSearchParams` as a list of name-value pairs, with `get`, `has`, `set`
 * and `delete` as section 6.2 of the WHATWG URL Standard defines them, and the
 * `application/x-www-form-urlencoded` serializer of section 5.2 of that
 * standard. The percent-encoding of names and values is a parameter `enc`.
 */
module UrlParams {
  import opened Wrappers
  import opened Text

  type Params = seq<(string, string)>

  /** `get(name)`: the value of the first pair with that name. */
  function Get(ps: Params, name: string): Option<string>
  {
    if ps == [] then None
    else if ps[0].0 == name then Some(ps[0].1)
    else Get(ps[1..], name)
  }

  /** `get(name) || ""`. */
  function GetOrEmpty(ps: Params, name: string): string
  {
    Get(ps, name).GetOr("")
  }

  predicate Has(ps: Params, name: string)
  {
    Get(ps, name).Some?
  }

  /** `delete(name)`: removes every pair with that name. */
  function Delete(ps: Params, name: string): (r: Params)
    ensures |r| <= |ps|
  {
    if ps == [] then []
    else (if ps[0].0 == name then [] else [ps[0]]) + Delete(ps[1..], name)
  }

  /** Replaces the first pair named `name` and removes the later ones. */
  function ReplaceFirst(ps: Params, name: string, value: string): Params
  {
    if ps == [] then []
    else if ps[0].0 == name then [(name, value)] + Delete(ps[1..], name)
    else [ps[0]] + ReplaceFirst(ps[1..], name, value)
  }

  /** `set(name, value)`: replace the first pair with that name and drop the others, or append. */
  function Set(ps: Params, name: string, value: string): Params
  {
    if Has(ps, name) then ReplaceFirst(ps, name, value) else ps + [(name, value)]
  }

  /** The `if (value) next.set(key, value); else next.delete(key);` pattern of the pages. */
  function SetOrDelete(ps: Params, name: string, value: string): Params
  {
    if value != "" then Set(ps, name, value) else Delete(ps, name)
  }

  /** Number of pairs with the given name. */
  function Count(ps: Params, name: string): nat
  {
    if ps == [] then 0 else (if ps[0].0 == name then 1 else 0) + Count(ps[1..], name)
  }

  lemma {:induction false} DeleteGet(ps: Params, name: string, other: string)
    ensures Get(Delete(ps, name), other) == if other == name then None else Get(ps, other)
    ensures Count(Delete(ps, name), name) == 0
    decreases |ps|
  {
    if ps != [] {
      DeleteGet(ps[1..], name, other);
      var head := if ps[0].0 == name then [] else [ps[0]];
      var d := head + Delete(ps[1..], name);
      if head == [] {
        assert d == Delete(ps[1..], name);
      } else {
        assert d[1..] == Delete(ps[1..], name);
      }
    }
  }

  /** Deleting twice is deleting once; deleting different names commutes. */
  lemma {:induction false} DeleteDelete(ps: Params, a: string, b: string)
    ensures Delete(Delete(ps, a), b) == Delete(Delete(ps, b), a)
    ensures Delete(Delete(ps, a), a) == Delete(ps, a)
    decreases |ps|
  {
    if ps != [] {
      DeleteDelete(ps[1..], a, b);
      DeleteAppend(if ps[0].0 == a then [] else [ps[0]], Delete(ps[1..], a), b);
      DeleteAppend(if ps[0].0 == b then [] else [ps[0]], Delete(ps[1..], b), a);
      DeleteAppend(if ps[0].0 == a then [] else [ps[0]], Delete(ps[1..], a), a);
    }
  }

  lemma {:induction false} DeleteAppend(xs: Params, ys: Params, name: string)
    ensures Delete(xs + ys, name) == Delete(xs, name) + Delete(ys, name)
    decreases |xs|
  {
    if xs == [] {
      assert xs + ys == ys;
    } else {
      var head := if xs[0].0 == name then [] else [xs[0]];
      assert (xs + ys)[0] == xs[0];
      assert (xs + ys)[1..] == xs[1..] + ys;
      DeleteAppend(xs[1..], ys, name);
      assert Delete(xs + ys, name) == head + (Delete(xs[1..], name) + Delete(ys, name));
      assert Delete(xs, name) == head + Delete(xs[1..], name);
    }
  }

  lemma {:induction false} ReplaceFirstFacts(ps: Params, name: string, value: string)
    requires Has(ps, name)
    ensures Get(ReplaceFirst(ps, name, value), name) == Some(value)
    ensures Count(ReplaceFirst(ps, name, value), name) == 1
    ensures Delete(ReplaceFirst(ps, name, value), name) == Delete(ps, name)
    decreases |ps|
  {
    if ps[0].0 == name {
      DeleteGet(ps[1..], name, name);
      DeleteDelete(ps[1..], name, name);
      var r := [(name, value)] + Delete(ps[1..], name);
      assert r[1..] == Delete(ps[1..], name);
    } else {
      ReplaceFirstFacts(ps[1..], name, value);
      var r := [ps[0]] + ReplaceFirst(ps[1..], name, value);
      assert r[1..] == ReplaceFirst(ps[1..], name, value);
    }
  }

  lemma {:induction false} CountGet(ps: Params, name: string)
    ensures Count(ps, name) == 0 <==> !Has(ps, name)
    decreases |ps|
  {
    if ps != [] {
      CountGet(ps[1..], name);
    }
  }

  lemma {:induction false} AppendFacts(ps: Params, name: string, value: string)
    requires !Has(ps, name)
    ensures Get(ps + [(name, value)], name) == Some(value)
    ensures Count(ps + [(name, value)], name) == 1
    ensures Delete(ps + [(name, value)], name) == Delete(ps, name)
    decreases |ps|
  {
    if ps == [] {
      assert Delete([(name, value)], name) == [] + Delete([], name);
    } else {
      AppendFacts(ps[1..], name, value);
      assert (ps + [(name, value)])[1..] == ps[1..] + [(name, value)];
    }
  }

  /**
   * After `set`, `get` returns the new value, exactly one pair carries the
   * name, and deleting the name gives what deleting it did before: every
   * other pair is unchanged and in its old order.
   */
  lemma SetFacts(ps: Params, name: string, value: string)
    ensures Get(Set(ps, name, value), name) == Some(value)
    ensures Count(Set(ps, name, value), name) == 1
    ensures Delete(Set(ps, name, value), name) == Delete(ps, name)
  {
    if Has(ps, name) {
      ReplaceFirstFacts(ps, name, value);
    } else {
      AppendFacts(ps, name, value);
    }
  }

  /** `set` leaves every other name's `get` unchanged. */
  lemma SetGetOther(ps: Params, name: string, value: string, other: string)
    requires other != name
    ensures Get(Set(ps, name, value), other) == Get(ps, other)
  {
    SetFacts(ps, name, value);
    DeleteGet(Set(ps, name, value), name, other);
    DeleteGet(ps, name, other);
  }

  /** The set-or-delete update gives the key the new value (absent for `""`) and leaves every other name alone. */
  lemma SetOrDeleteFacts(ps: Params, name: string, value: string, other: string)
    ensures GetOrEmpty(SetOrDelete(ps, name, value), name) == value
    ensures value == "" ==> !Has(SetOrDelete(ps, name, value), name)
    ensures other != name ==> Get(SetOrDelete(ps, name, value), other) == Get(ps, other)
  {
    if value != "" {
      SetFacts(ps, name, value);
      if other != name {
        SetGetOther(ps, name, value, other);
      }
    } else {
      DeleteGet(ps, name, name);
      DeleteGet(ps, name, other);
    }
  }

  /** `application/x-www-form-urlencoded` serialization: `name=value` pairs joined by `&`. */
  function Serialize(ps: Params, enc: string -> string): string
  {
    if ps == [] then ""
    else if |ps| == 1 then enc(ps[0].0) + "=" + enc(ps[0].1)
    else enc(ps[0].0) + "=" + enc(ps[0].1) + "&" + Serialize(ps[1..], enc)
  }

  /** The serialization is empty exactly when there are no pairs. */
  lemma SerializeEmpty(ps: Params, enc: string -> string)
    ensures Serialize(ps, enc) == "" <==> ps == []
  {
    if ps != [] {
      assert '=' in Serialize(ps, enc);
    }
  }

  /** `get` on a concatenation looks in the first part, then the second. */
  lemma {:induction false} GetAppend(xs: Params, ys: Params, name: string)
    ensures Get(xs + ys, name) == if Has(xs, name) then Get(xs, name) else Get(ys, name)
    decreases |xs|
  {
    if xs == [] {
      assert xs + ys == ys;
    } else {
      GetAppend(xs[1..], ys, name);
      assert (xs + ys)[1..] == xs[1..] + ys;
    }
  }
}
