/** The list updates every page performs on its records: `map` that rewrites the entries
    with a given id, and `filter`. */
module Lists {
  import opened Common

  /** `s.map(x => idOf(x) === id ? f(x) : x)`. */
  function UpdateWhere<T>(s: seq<T>, idOf: T -> Id, id: Id, f: T -> T): (r: seq<T>)
    ensures |r| == |s|
    ensures forall i :: 0 <= i < |s| ==> r[i] == if idOf(s[i]) == id then f(s[i]) else s[i]
    decreases |s|
  {
    if s == [] then []
    else [if idOf(s[0]) == id then f(s[0]) else s[0]] + UpdateWhere(s[1..], idOf, id, f)
  }

  /** A non-empty sequence is its entries but the last, followed by the last. */
  lemma SplitLast<T>(s: seq<T>)
    requires s != []
    ensures s == s[..|s| - 1] + [s[|s| - 1]]
  {
  }

  /** The prefix one longer is the prefix and the next entry. */
  lemma PrefixStep<T>(s: seq<T>, i: nat)
    requires i < |s|
    ensures s[..i + 1] == s[..i] + [s[i]]
  {
  }

  /** `s.filter(keep)`. */
  function Filter<T(==)>(s: seq<T>, keep: T -> bool): (r: seq<T>)
    ensures |r| <= |s|
    ensures forall i :: 0 <= i < |r| ==> r[i] in s && keep(r[i])
    ensures forall i :: 0 <= i < |s| && keep(s[i]) ==> s[i] in r
    ensures multiset(r) <= multiset(s)
    decreases |s|
  {
    if s == [] then []
    else
      var p := Filter(s[..|s| - 1], keep);
      assert s == s[..|s| - 1] + [s[|s| - 1]];
      if keep(s[|s| - 1]) then p + [s[|s| - 1]] else p
  }

  /** `filter` keeps every accepted value as often as it occurs and drops the others. */
  lemma {:induction false} FilterCount<T>(s: seq<T>, keep: T -> bool, x: T)
    ensures multiset(Filter(s, keep))[x] == if keep(x) then multiset(s)[x] else 0
    decreases |s|
  {
    if s != [] {
      var t, last := s[..|s| - 1], s[|s| - 1];
      FilterCount(t, keep, x);
      assert s == t + [last];
    }
  }

  /** The positions of the entries `keep` accepts, in increasing order. */
  function KeptPositions<T>(s: seq<T>, keep: T -> bool): (r: seq<nat>)
    ensures forall k :: 0 <= k < |r| ==> r[k] < |s| && keep(s[r[k]])
    ensures forall k, l :: 0 <= k < l < |r| ==> r[k] < r[l]
    ensures forall i :: 0 <= i < |s| && keep(s[i]) ==> i in r
    decreases |s|
  {
    if s == [] then []
    else
      var p := KeptPositions(s[..|s| - 1], keep);
      if keep(s[|s| - 1]) then p + [|s| - 1] else p
  }

  /** `filter` keeps exactly the accepted entries and keeps them in their original order:
      its k-th result is the entry at the k-th accepted position. */
  lemma {:induction false} FilterInOrder<T>(s: seq<T>, keep: T -> bool)
    ensures |Filter(s, keep)| == |KeptPositions(s, keep)|
    ensures forall k :: 0 <= k < |Filter(s, keep)| ==> Filter(s, keep)[k] == s[KeptPositions(s, keep)[k]]
    decreases |s|
  {
    if s != [] {
      var t, last := s[..|s| - 1], s[|s| - 1];
      FilterInOrder(t, keep);
      var r, p := Filter(s, keep), KeptPositions(s, keep);
      var rt, pt := Filter(t, keep), KeptPositions(t, keep);
      if keep(last) {
        assert r == rt + [last] && p == pt + [|s| - 1];
      } else {
        assert r == rt && p == pt;
      }
      forall k | 0 <= k < |rt| ensures r[k] == s[p[k]] {
        assert r[k] == rt[k] == t[pt[k]] && p[k] == pt[k];
      }
    }
  }

  /** The test `x => idOf(x) !== id`. */
  function OtherId<T>(idOf: T -> Id, id: Id): T -> bool {
    x => idOf(x) != id
  }

  /** `s.filter(x => idOf(x) !== id)`, the delete handler of every page. */
  function Without<T(==)>(s: seq<T>, idOf: T -> Id, id: Id): (r: seq<T>)
    ensures forall i :: 0 <= i < |r| ==> r[i] in s && idOf(r[i]) != id
    ensures forall i :: 0 <= i < |s| && idOf(s[i]) != id ==> s[i] in r
  {
    Filter(s, OtherId(idOf, id))
  }

  /** Deleting by id leaves exactly the entries with another id, in their original order:
      the k-th survivor is the k-th entry of `s` whose id is not `id`. */
  lemma WithoutInOrder<T>(s: seq<T>, idOf: T -> Id, id: Id)
    ensures var r, p := Without(s, idOf, id), KeptPositions(s, OtherId(idOf, id));
      && |r| == |p|
      && (forall k :: 0 <= k < |r| ==> r[k] == s[p[k]])
      && (forall k, l :: 0 <= k < l < |p| ==> p[k] < p[l])
      && (forall i :: 0 <= i < |s| ==> (i in p <==> idOf(s[i]) != id))
  {
    FilterInOrder(s, OtherId(idOf, id));
  }

  /** No two entries share an id. */
  ghost predicate UniqueIds<T>(s: seq<T>, idOf: T -> Id) {
    forall i, j :: 0 <= i < j < |s| ==> idOf(s[i]) != idOf(s[j])
  }

  /** `id` is not the id of any entry. */
  ghost predicate FreshId<T>(s: seq<T>, idOf: T -> Id, id: Id) {
    forall i :: 0 <= i < |s| ==> idOf(s[i]) != id
  }

  /** Appending an entry with an unused id keeps the ids unique. */
  lemma AppendKeepsUniqueIds<T>(s: seq<T>, idOf: T -> Id, x: T)
    requires UniqueIds(s, idOf) && FreshId(s, idOf, idOf(x))
    ensures UniqueIds(s + [x], idOf)
  {
    var t := s + [x];
    forall i, j | 0 <= i < j < |t| ensures idOf(t[i]) != idOf(t[j]) {
      if j < |s| {
        assert t[i] == s[i] && t[j] == s[j];
      } else {
        assert t[i] == s[i];
      }
    }
  }

  /** Rewriting entries without touching their ids keeps the ids unique. */
  lemma UpdateKeepsUniqueIds<T>(s: seq<T>, idOf: T -> Id, id: Id, f: T -> T)
    requires UniqueIds(s, idOf)
    requires forall x :: idOf(f(x)) == idOf(x)
    ensures UniqueIds(UpdateWhere(s, idOf, id, f), idOf)
  {
    var r := UpdateWhere(s, idOf, id, f);
    forall i, j | 0 <= i < j < |r| ensures idOf(r[i]) != idOf(r[j]) {
      assert idOf(r[i]) == idOf(s[i]) && idOf(r[j]) == idOf(s[j]);
    }
  }

  /** Dropping entries keeps the ids unique. */
  lemma FilterKeepsUniqueIds<T>(s: seq<T>, idOf: T -> Id, keep: T -> bool)
    requires UniqueIds(s, idOf)
    ensures UniqueIds(Filter(s, keep), idOf)
  {
    FilterInOrder(s, keep);
    var r, p := Filter(s, keep), KeptPositions(s, keep);
    forall i, j | 0 <= i < j < |r| ensures idOf(r[i]) != idOf(r[j]) {
      assert r[i] == s[p[i]] && r[j] == s[p[j]] && p[i] < p[j];
    }
  }
}
