/**
 * Python's stable `list.sort(key=...)` for keys of the form `(int, str)`, as used by
 * `FileSystemNode.sort_children`. The sort is described by the order in which it takes the
 * original indices: `StableOrder(keys)` is that order, and `Permute` applies it.
 */
module Sorting {

  /** Python compares `str` values lexicographically by code point. */
  predicate LexLe(a: string, b: string)
    decreases |a|
  {
    |a| == 0 || (|b| > 0 && (a[0] < b[0] || (a[0] == b[0] && LexLe(a[1..], b[1..]))))
  }

  lemma {:induction false} LexLeReflexive(a: string)
    ensures LexLe(a, a)
    decreases |a|
  {
    if |a| > 0 { LexLeReflexive(a[1..]); }
  }

  lemma {:induction false} LexLeTotal(a: string, b: string)
    ensures LexLe(a, b) || LexLe(b, a)
    decreases |a|
  {
    if |a| > 0 && |b| > 0 && a[0] == b[0] { LexLeTotal(a[1..], b[1..]); }
  }

  lemma {:induction false} LexLeTransitive(a: string, b: string, c: string)
    requires LexLe(a, b) && LexLe(b, c)
    ensures LexLe(a, c)
    decreases |a|
  {
    if |a| > 0 && a[0] == b[0] && b[0] == c[0] { LexLeTransitive(a[1..], b[1..], c[1..]); }
  }

  lemma {:induction false} LexLeAntisymmetric(a: string, b: string)
    requires LexLe(a, b) && LexLe(b, a)
    ensures a == b
    decreases |a|
  {
    if |a| > 0 {
      LexLeAntisymmetric(a[1..], b[1..]);
      assert a == [a[0]] + a[1..] && b == [b[0]] + b[1..];
    }
  }

  /** The sort key `(group, lower-case name)`; tuples compare component by component. */
  datatype Key = Key(group: nat, name: string)

  predicate KeyLe(a: Key, b: Key)
  {
    a.group < b.group || (a.group == b.group && LexLe(a.name, b.name))
  }

  /** `KeyLe` is a total order on keys: the facts the sort proofs rely on. */
  lemma KeyLeTotalOrder(a: Key, b: Key, c: Key)
    ensures KeyLe(a, a)
    ensures KeyLe(a, b) || KeyLe(b, a)
    ensures KeyLe(a, b) && KeyLe(b, c) ==> KeyLe(a, c)
    ensures KeyLe(a, b) && KeyLe(b, a) ==> a == b
  {
    LexLeReflexive(a.name);
    LexLeTotal(a.name, b.name);
    if KeyLe(a, b) && KeyLe(b, c) && a.group == b.group == c.group {
      LexLeTransitive(a.name, b.name, c.name);
    }
    if KeyLe(a, b) && KeyLe(b, a) {
      LexLeAntisymmetric(a.name, b.name);
    }
  }

  predicate InRange(s: seq<nat>, n: nat)
  {
    forall i :: 0 <= i < |s| ==> s[i] < n
  }

  predicate Distinct(s: seq<nat>)
  {
    forall i, j :: 0 <= i < |s| && 0 <= j < |s| && i != j ==> s[i] != s[j]
  }

  /** Indices taken in non-decreasing key order. */
  predicate SortedByKey(s: seq<nat>, keys: seq<Key>)
    requires InRange(s, |keys|)
  {
    forall i, j :: 0 <= i < j < |s| ==> KeyLe(keys[s[i]], keys[s[j]])
  }

  /** Indices with equal keys keep their original relative order. */
  predicate StableByKey(s: seq<nat>, keys: seq<Key>)
    requires InRange(s, |keys|)
  {
    forall i, j :: 0 <= i < j < |s| && keys[s[i]] == keys[s[j]] ==> s[i] < s[j]
  }

  /** Inserts index `x` before the first index whose key is not smaller than `x`'s. */
  function Insert(x: nat, s: seq<nat>, keys: seq<Key>): (r: seq<nat>)
    requires x < |keys| && InRange(s, |keys|)
    ensures multiset(r) == multiset{x} + multiset(s)
    ensures |r| == |s| + 1 && InRange(r, |keys|)
  {
    if |s| == 0 then [x]
    else if KeyLe(keys[x], keys[s[0]]) then [x] + s
    else
      assert s == [s[0]] + s[1..];
      [s[0]] + Insert(x, s[1..], keys)
  }

  /** Insertion sort of a sequence of indices (front element inserted into the sorted rest). */
  function SortIndices(ix: seq<nat>, keys: seq<Key>): (r: seq<nat>)
    requires InRange(ix, |keys|)
    ensures multiset(r) == multiset(ix)
    ensures |r| == |ix| && InRange(r, |keys|)
  {
    if |ix| == 0 then []
    else
      assert ix == [ix[0]] + ix[1..];
      Insert(ix[0], SortIndices(ix[1..], keys), keys)
  }

  function Range(n: nat): (r: seq<nat>)
    ensures |r| == n && InRange(r, n)
    ensures forall i :: 0 <= i < n ==> r[i] == i
  {
    seq(n, i requires 0 <= i < n => i)
  }

  /** The order in which a stable sort by `keys` takes the original positions. */
  function StableOrder(keys: seq<Key>): (p: seq<nat>)
    ensures |p| == |keys| && InRange(p, |keys|)
  {
    SortIndices(Range(|keys|), keys)
  }

  /** The elements of `s` in the order `p`. */
  function Permute<T>(s: seq<T>, p: seq<nat>): (r: seq<T>)
    requires InRange(p, |s|)
    ensures |r| == |p|
    ensures forall i :: 0 <= i < |p| ==> r[i] == s[p[i]]
  {
    seq(|p|, i requires 0 <= i < |p| => s[p[i]])
  }

  lemma {:induction false} InsertDistinct(x: nat, s: seq<nat>, keys: seq<Key>)
    requires x < |keys| && InRange(s, |keys|)
    requires Distinct(s) && x !in s
    ensures Distinct(Insert(x, s, keys))
  {
    if |s| > 0 && !KeyLe(keys[x], keys[s[0]]) {
      InsertDistinct(x, s[1..], keys);
      var r := Insert(x, s[1..], keys);
      assert s[0] !in multiset(r) by {
        assert s[0] != x;
        assert s[0] !in s[1..];
      }
    }
  }

  lemma {:induction false} InsertSorted(x: nat, s: seq<nat>, keys: seq<Key>)
    requires x < |keys| && InRange(s, |keys|)
    requires SortedByKey(s, keys)
    ensures SortedByKey(Insert(x, s, keys), keys)
  {
    if |s| == 0 {
    } else if KeyLe(keys[x], keys[s[0]]) {
      forall j | 0 < j < |s| + 1
        ensures KeyLe(keys[x], keys[([x] + s)[j]])
      {
        KeyLeTotalOrder(keys[x], keys[s[0]], keys[s[j - 1]]);
      }
    } else {
      InsertSorted(x, s[1..], keys);
      var r := Insert(x, s[1..], keys);
      KeyLeTotalOrder(keys[x], keys[s[0]], keys[s[0]]);
      forall j | 0 <= j < |r|
        ensures KeyLe(keys[s[0]], keys[r[j]])
      {
        InsertedFrom(x, s, keys, j);
      }
    }
  }

  /** An element of `x` inserted into the tail of `s` is `x` or a later element of `s`. */
  lemma InsertedFrom(x: nat, s: seq<nat>, keys: seq<Key>, j: nat)
    requires x < |keys| && InRange(s, |keys|) && |s| > 0
    requires j < |Insert(x, s[1..], keys)|
    ensures var y := Insert(x, s[1..], keys)[j];
      y == x || exists k :: 1 <= k < |s| && s[k] == y
  {
    var r := Insert(x, s[1..], keys);
    assert r[j] in multiset(r);
    if r[j] != x {
      assert r[j] in s[1..];
      var k :| 0 <= k < |s[1..]| && s[1..][k] == r[j];
      assert s[k + 1] == r[j];
    }
  }

  lemma {:induction false} InsertStable(x: nat, s: seq<nat>, keys: seq<Key>)
    requires x < |keys| && InRange(s, |keys|)
    requires StableByKey(s, keys) && SortedByKey(s, keys)
    requires forall i :: 0 <= i < |s| ==> x < s[i]
    ensures StableByKey(Insert(x, s, keys), keys)
  {
    if |s| > 0 && !KeyLe(keys[x], keys[s[0]]) {
      InsertStable(x, s[1..], keys);
      var r := Insert(x, s[1..], keys);
      KeyLeTotalOrder(keys[x], keys[x], keys[x]);
      forall j | 0 <= j < |r| && keys[s[0]] == keys[r[j]]
        ensures s[0] < r[j]
      {
        InsertedFrom(x, s, keys, j);
      }
    }
  }

  predicate Increasing(s: seq<nat>)
  {
    forall i, j :: 0 <= i < j < |s| ==> s[i] < s[j]
  }

  lemma {:induction false} SortIndicesCorrect(ix: seq<nat>, keys: seq<Key>)
    requires InRange(ix, |keys|) && Increasing(ix)
    ensures Distinct(SortIndices(ix, keys))
    ensures SortedByKey(SortIndices(ix, keys), keys)
    ensures StableByKey(SortIndices(ix, keys), keys)
  {
    if |ix| > 0 {
      SortIndicesCorrect(ix[1..], keys);
      var s := SortIndices(ix[1..], keys);
      forall i | 0 <= i < |s|
        ensures ix[0] < s[i]
      {
        assert s[i] in multiset(ix[1..]);
        var k :| 0 <= k < |ix[1..]| && ix[1..][k] == s[i];
      }
      assert ix[0] !in multiset(s);
      InsertDistinct(ix[0], s, keys);
      InsertSorted(ix[0], s, keys);
      InsertStable(ix[0], s, keys);
    }
  }

  /**
   * A stable sort: `StableOrder(keys)` lists every position exactly once, in non-decreasing
   * key order, and positions with equal keys keep their original order.
   */
  lemma StableOrderCorrect(keys: seq<Key>)
    ensures Distinct(StableOrder(keys))
    ensures SortedByKey(StableOrder(keys), keys)
    ensures StableByKey(StableOrder(keys), keys)
  {
    SortIndicesCorrect(Range(|keys|), keys);
  }

  lemma {:induction false} PermuteInsert<T>(s: seq<T>, x: nat, q: seq<nat>, keys: seq<Key>)
    requires |keys| == |s| && x < |s| && InRange(q, |s|)
    ensures multiset(Permute(s, Insert(x, q, keys))) == multiset{s[x]} + multiset(Permute(s, q))
  {
    if |q| == 0 {
      PermuteCons(s, x, []);
    } else if KeyLe(keys[x], keys[q[0]]) {
      PermuteCons(s, x, q);
    } else {
      var tail := Insert(x, q[1..], keys);
      PermuteInsert(s, x, q[1..], keys);
      PermuteCons(s, q[0], tail);
      PermuteCons(s, q[0], q[1..]);
      assert q == [q[0]] + q[1..];
      assert multiset(Permute(s, Insert(x, q, keys))) == multiset{s[q[0]]} + multiset(Permute(s, tail));
    }
  }

  lemma PermuteCons<T>(s: seq<T>, y: nat, rest: seq<nat>)
    requires y < |s| && InRange(rest, |s|)
    ensures InRange([y] + rest, |s|)
    ensures Permute(s, [y] + rest) == [s[y]] + Permute(s, rest)
  {
    assert InRange([y] + rest, |s|);
  }

  lemma {:induction false} PermuteSortIndices<T>(s: seq<T>, ix: seq<nat>, keys: seq<Key>)
    requires |keys| == |s| && InRange(ix, |s|)
    ensures multiset(Permute(s, SortIndices(ix, keys))) == multiset(Permute(s, ix))
  {
    if |ix| > 0 {
      PermuteSortIndices(s, ix[1..], keys);
      PermuteInsert(s, ix[0], SortIndices(ix[1..], keys), keys);
      assert Permute(s, ix) == [s[ix[0]]] + Permute(s, ix[1..]);
    }
  }

  /** Reordering by `StableOrder` is a permutation of the elements. */
  lemma StableOrderPermutes<T>(s: seq<T>, keys: seq<Key>)
    requires |keys| == |s|
    ensures multiset(Permute(s, StableOrder(keys))) == multiset(s)
  {
    PermuteSortIndices(s, Range(|s|), keys);
    assert Permute(s, Range(|s|)) == s;
  }
}
