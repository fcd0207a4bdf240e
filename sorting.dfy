/**
 * `Array.prototype.sort` with a comparator, which ECMAScript requires to be
 * stable. `SortBy` is the specification: an insertion sort that places each
 * element after every earlier element that does not compare above it.
 * `SortInPlace` is the in-place sort on an array, proved equal to it.
 */
module Sorting {

  /** The comparator is a total preorder: any two elements compare, and comparing is transitive. */
  ghost predicate TotalPreorder<T(!new)>(le: (T, T) -> bool)
  {
    (forall a, b :: le(a, b) || le(b, a))
    && (forall a, b, c :: le(a, b) && le(b, c) ==> le(a, c))
  }

  lemma Transitive<T(!new)>(le: (T, T) -> bool, a: T, b: T, c: T)
    requires TotalPreorder(le)
    ensures le(a, b) && le(b, c) ==> le(a, c)
  {
  }

  ghost predicate Sorted<T>(s: seq<T>, le: (T, T) -> bool)
  {
    forall i, j :: 0 <= i < j < |s| ==> le(s[i], s[j])
  }

  /** Inserts `x` after the last element of `t` that does not compare above it. */
  function Insert<T>(t: seq<T>, x: T, le: (T, T) -> bool): seq<T>
  {
    if t == [] then [x]
    else if le(t[|t| - 1], x) then t + [x]
    else Insert(t[..|t| - 1], x, le) + [t[|t| - 1]]
  }

  /** The stable sort of `s` under `le`. */
  function SortBy<T>(s: seq<T>, le: (T, T) -> bool): seq<T>
  {
    if s == [] then []
    else Insert(SortBy(s[..|s| - 1], le), s[|s| - 1], le)
  }

  lemma {:induction false} InsertPermutes<T>(t: seq<T>, x: T, le: (T, T) -> bool)
    ensures multiset(Insert(t, x, le)) == multiset(t) + multiset{x}
    decreases |t|
  {
    if t != [] && !le(t[|t| - 1], x) {
      InsertPermutes(t[..|t| - 1], x, le);
      assert t == t[..|t| - 1] + [t[|t| - 1]];
    }
  }

  /** `SortBy` rearranges its input: the result is a permutation of `s`. */
  lemma {:induction false} SortByPermutes<T>(s: seq<T>, le: (T, T) -> bool)
    ensures multiset(SortBy(s, le)) == multiset(s)
    decreases |s|
  {
    if s != [] {
      SortByPermutes(s[..|s| - 1], le);
      InsertPermutes(SortBy(s[..|s| - 1], le), s[|s| - 1], le);
      assert s == s[..|s| - 1] + [s[|s| - 1]];
    }
  }

  lemma {:induction false} InsertSorted<T(!new)>(t: seq<T>, x: T, le: (T, T) -> bool)
    requires TotalPreorder(le) && Sorted(t, le)
    ensures Sorted(Insert(t, x, le), le)
    decreases |t|
  {
    if t != [] {
      var last := t[|t| - 1];
      if !le(last, x) {
        var init := t[..|t| - 1];
        InsertSorted(init, x, le);
        var u := Insert(init, x, le);
        InsertPermutes(init, x, le);
        forall e | e in u
          ensures le(e, last)
        {
          assert e in multiset(u);
          if e != x {
            assert e in multiset(init);
            var k :| 0 <= k < |init| && init[k] == e;
            assert t[k] == e;
          }
        }
        var r := u + [last];
        forall i, j | 0 <= i < j < |r|
          ensures le(r[i], r[j])
        {
          if j == |u| {
            assert r[i] in u;
          }
        }
      }
    }
  }

  /** `SortBy` sorts. */
  lemma {:induction false} SortBySorted<T(!new)>(s: seq<T>, le: (T, T) -> bool)
    requires TotalPreorder(le)
    ensures Sorted(SortBy(s, le), le)
    decreases |s|
  {
    if s != [] {
      SortBySorted(s[..|s| - 1], le);
      InsertSorted(SortBy(s[..|s| - 1], le), s[|s| - 1], le);
    }
  }

  /** The elements of `s` that compare equal to `k`, in their order in `s`. */
  function EquivalentTo<T>(s: seq<T>, le: (T, T) -> bool, k: T): (r: seq<T>)
    ensures |r| <= |s|
  {
    if s == [] then []
    else EquivalentTo(s[..|s| - 1], le, k) + (if le(s[|s| - 1], k) && le(k, s[|s| - 1]) then [s[|s| - 1]] else [])
  }

  lemma {:induction false} InsertKeepsEquivalents<T(!new)>(t: seq<T>, x: T, le: (T, T) -> bool, k: T)
    requires TotalPreorder(le)
    ensures EquivalentTo(Insert(t, x, le), le, k)
         == EquivalentTo(t, le, k) + (if le(x, k) && le(k, x) then [x] else [])
    decreases |t|
  {
    if t == [] {
    } else {
      var last := t[|t| - 1];
      var init := t[..|t| - 1];
      if le(last, x) {
        assert (t + [x])[..|t|] == t;
      } else {
        InsertKeepsEquivalents(init, x, le, k);
        var u := Insert(init, x, le);
        assert (u + [last])[..|u|] == u;
        Transitive(le, last, k, x);
        var tx := if le(x, k) && le(k, x) then [x] else [];
        var tl := if le(last, k) && le(k, last) then [last] else [];
        assert tx == [] || tl == [];
        assert tx + tl == tl + tx;
      }
    }
  }

  /** `SortBy` is stable: elements that compare equal keep their relative order. */
  lemma {:induction false} SortByStable<T(!new)>(s: seq<T>, le: (T, T) -> bool, k: T)
    requires TotalPreorder(le)
    ensures EquivalentTo(SortBy(s, le), le, k) == EquivalentTo(s, le, k)
    decreases |s|
  {
    if s != [] {
      SortByStable(s[..|s| - 1], le, k);
      InsertKeepsEquivalents(SortBy(s[..|s| - 1], le), s[|s| - 1], le, k);
    }
  }

  /** Where `Insert` puts `x`: after the last element of `t` that does not compare above it. */
  function InsertPos<T>(t: seq<T>, x: T, le: (T, T) -> bool): (p: nat)
    ensures p <= |t|
  {
    if t == [] then 0
    else if le(t[|t| - 1], x) then |t|
    else InsertPos(t[..|t| - 1], x, le)
  }

  lemma {:induction false} InsertIsSplice<T>(t: seq<T>, x: T, le: (T, T) -> bool)
    ensures Insert(t, x, le) == t[..InsertPos(t, x, le)] + [x] + t[InsertPos(t, x, le)..]
    decreases |t|
  {
    if t != [] && !le(t[|t| - 1], x) {
      var init := t[..|t| - 1];
      InsertIsSplice(init, x, le);
      var p := InsertPos(init, x, le);
      assert init[..p] == t[..p];
      assert init[p..] + [t[|t| - 1]] == t[p..];
    }
  }

  /** The insertion point is the only position whose left neighbour compares at or below `x` and whose right part all compares above it. */
  lemma {:induction false} InsertPosUnique<T>(t: seq<T>, x: T, le: (T, T) -> bool, j: int)
    requires 0 <= j <= |t|
    requires j == 0 || le(t[j - 1], x)
    requires forall k :: j <= k < |t| ==> !le(t[k], x)
    ensures InsertPos(t, x, le) == j
    decreases |t|
  {
    if j < |t| {
      InsertPosUnique(t[..|t| - 1], x, le, j);
    }
  }

  lemma SortByPrefix<T>(s: seq<T>, i: int, le: (T, T) -> bool)
    requires 0 <= i < |s|
    ensures SortBy(s[..i + 1], le) == Insert(SortBy(s[..i], le), s[i], le)
  {
    assert s[..i + 1][..i] == s[..i];
  }

  /** Moves `a[i]` left into the sorted prefix `a[..i]`, as `Insert` does. */
  method InsertInPlace<T>(a: array<T>, i: int, le: (T, T) -> bool)
    requires 0 <= i < a.Length
    modifies a
    ensures a[..i + 1] == Insert(old(a[..i]), old(a[i]), le)
    ensures a[i + 1..] == old(a[i + 1..])
  {
    var x := a[i];
    ghost var t := a[..i];
    var j := i;
    while j > 0 && !le(a[j - 1], x)
      invariant 0 <= j <= i
      invariant forall k :: 0 <= k < j ==> a[k] == t[k]
      invariant forall k :: j < k <= i ==> a[k] == t[k - 1]
      invariant forall k :: j <= k < i ==> !le(t[k], x)
      invariant a[i + 1..] == old(a[i + 1..])
    {
      a[j] := a[j - 1];
      j := j - 1;
    }
    a[j] := x;
    InsertPosUnique(t, x, le, j);
    InsertIsSplice(t, x, le);
    Spliced(a[..i + 1], t, j, x);
  }

  /** A sequence that agrees with `t` before `j`, holds `x` at `j` and `t` shifted by one after it. */
  lemma Spliced<T>(u: seq<T>, t: seq<T>, j: int, x: T)
    requires 0 <= j <= |t| && |u| == |t| + 1
    requires forall k :: 0 <= k < j ==> u[k] == t[k]
    requires u[j] == x
    requires forall k :: j < k < |u| ==> u[k] == t[k - 1]
    ensures u == t[..j] + [x] + t[j..]
  {
    var r := t[..j] + [x] + t[j..];
    forall k | j < k < |u|
      ensures u[k] == r[k]
    {
      assert r[k] == t[j..][k - (j + 1)];
    }
  }

  lemma InsertStop<T>(t: seq<T>, j: int, x: T, le: (T, T) -> bool)
    requires 0 <= j <= |t| && (j == 0 || le(t[j - 1], x))
    ensures Insert(t[..j], x, le) == t[..j] + [x]
  {
  }

  /** Sorts `a` in place; the result is exactly `SortBy` of the old contents. */
  method SortInPlace<T>(a: array<T>, le: (T, T) -> bool)
    modifies a
    ensures a[..] == SortBy(old(a[..]), le)
  {
    ghost var s := a[..];
    var i := 0;
    while i < a.Length
      invariant 0 <= i <= a.Length
      invariant a[..i] == SortBy(s[..i], le)
      invariant a[i..] == s[i..]
    {
      ghost var sorted := a[..i];
      assert a[i] == s[i] by { assert a[i..][0] == s[i..][0]; }
      InsertInPlace(a, i, le);
      SortByPrefix(s, i, le);
      assert a[..i + 1] == SortBy(s[..i + 1], le);
      assert a[i + 1..] == s[i + 1..] by { assert s[i..][1..] == s[i + 1..]; }
      i := i + 1;
    }
    assert a[..] == a[..a.Length];
    assert s == s[..a.Length];
  }
}
