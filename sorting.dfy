/** `Array.prototype.sort` with a numeric comparator, as the expense and workout lists and the
    report use it. Since ECMAScript 2019 the sort is stable: entries the comparator calls
    equal keep their input order. */
module Sorting {

  /** Whether a key `a` may come before a key `b`: ascending order, or descending when
      `desc`. */
  predicate InOrder(a: int, b: int, desc: bool) {
    if desc then a >= b else a <= b
  }

  predicate SortedBy<T>(s: seq<T>, key: T -> int, desc: bool) {
    forall i, j :: 0 <= i < j < |s| ==> InOrder(key(s[i]), key(s[j]), desc)
  }

  /** The entries of `s` whose key is `v`, in their order in `s`. */
  function WithKey<T>(s: seq<T>, key: T -> int, v: int): seq<T> {
    if s == [] then [] else (if key(s[0]) == v then [s[0]] else []) + WithKey(s[1..], key, v)
  }

  /** Puts `x` in front of the first entry of `s` it may come before. */
  function Insert<T>(x: T, s: seq<T>, key: T -> int, desc: bool): (r: seq<T>)
    requires SortedBy(s, key, desc)
    ensures SortedBy(r, key, desc)
    ensures multiset(r) == multiset(s) + multiset{x}
    decreases |s|
  {
    if s == [] || InOrder(key(x), key(s[0]), desc) then [x] + s
    else
      var t := Insert(x, s[1..], key, desc);
      assert s == [s[0]] + s[1..];
      KeysAfter(t, s[1..], x, key, key(s[0]), desc);
      [s[0]] + t
  }

  /** Every entry of a permutation of `u + [x]` may come after a key `b` when those of `u`
      and `x` may. */
  lemma KeysAfter<T>(t: seq<T>, u: seq<T>, x: T, key: T -> int, b: int, desc: bool)
    requires multiset(t) == multiset(u) + multiset{x}
    requires InOrder(b, key(x), desc) && forall i :: 0 <= i < |u| ==> InOrder(b, key(u[i]), desc)
    ensures forall k :: 0 <= k < |t| ==> InOrder(b, key(t[k]), desc)
  {
    forall k | 0 <= k < |t| ensures InOrder(b, key(t[k]), desc) {
      var y := t[k];
      assert y in multiset(t);
      if y != x {
        assert y in multiset(u);
        var j :| 0 <= j < |u| && u[j] == y;
      }
    }
  }

  /** A stable insertion sort in the order `desc` names. */
  function Sort<T>(s: seq<T>, key: T -> int, desc: bool): (r: seq<T>)
    ensures SortedBy(r, key, desc)
    ensures multiset(r) == multiset(s)
    decreases |s|
  {
    if s == [] then []
    else
      assert s == [s[0]] + s[1..];
      Insert(s[0], Sort(s[1..], key, desc), key, desc)
  }

  /** `[...s].sort((a, b) => key(a) - key(b))`: oldest first. */
  function SortAsc<T>(s: seq<T>, key: T -> int): (r: seq<T>)
    ensures forall i, j :: 0 <= i < j < |r| ==> key(r[i]) <= key(r[j])
    ensures multiset(r) == multiset(s)
  {
    Sort(s, key, false)
  }

  /** `[...s].sort((a, b) => key(b) - key(a))`: newest first. */
  function SortDesc<T>(s: seq<T>, key: T -> int): (r: seq<T>)
    ensures forall i, j :: 0 <= i < j < |r| ==> key(r[i]) >= key(r[j])
    ensures multiset(r) == multiset(s)
  {
    Sort(s, key, true)
  }

  lemma {:induction false} InsertWithKey<T>(x: T, s: seq<T>, key: T -> int, desc: bool, v: int)
    requires SortedBy(s, key, desc)
    ensures WithKey(Insert(x, s, key, desc), key, v) == (if key(x) == v then [x] else []) + WithKey(s, key, v)
    decreases |s|
  {
    if s == [] || InOrder(key(x), key(s[0]), desc) {
      assert ([x] + s)[1..] == s;
    } else {
      var r, t := Insert(x, s, key, desc), Insert(x, s[1..], key, desc);
      assert r[0] == s[0] && r[1..] == t;
      InsertWithKey(x, s[1..], key, desc, v);
      var first := if key(s[0]) == v then [s[0]] else [];
      assert WithKey(r, key, v) == first + WithKey(t, key, v);
      assert WithKey(s, key, v) == first + WithKey(s[1..], key, v);
      // `x` goes after `s[0]` only when their keys differ, so not both keys are `v`
      assert key(s[0]) != v || key(x) != v;
    }
  }

  /** The sort is stable: for every key value, the entries with that key come out in the
      order they went in. With `SortedBy` this fixes the result completely. */
  lemma {:induction false} SortStable<T>(s: seq<T>, key: T -> int, desc: bool, v: int)
    ensures WithKey(Sort(s, key, desc), key, v) == WithKey(s, key, v)
    decreases |s|
  {
    if s != [] {
      SortStable(s[1..], key, desc, v);
      InsertWithKey(s[0], Sort(s[1..], key, desc), key, desc, v);
    }
  }

  /** The ascending sort is stable. */
  lemma {:induction false} SortAscStable<T>(s: seq<T>, key: T -> int, v: int)
    ensures WithKey(SortAsc(s, key), key, v) == WithKey(s, key, v)
  {
    SortStable(s, key, false, v);
  }

  /** The descending sort is stable too. */
  lemma {:induction false} SortDescStable<T>(s: seq<T>, key: T -> int, v: int)
    ensures WithKey(SortDesc(s, key), key, v) == WithKey(s, key, v)
  {
    SortStable(s, key, true, v);
  }
}
