/** Python's insertion-ordered `dict`, as the list of its `items()`. */
module PyDict {
  import opened Wrappers

  type Dict<K, V> = seq<(K, V)>

  /** `d.get(k)`: the value stored under `k`, if any. */
  function Get<K(==,!new), V>(d: Dict<K, V>, k: K): Option<V> {
    if d == [] then None
    else if d[0].0 == k then Some(d[0].1)
    else Get(d[1..], k)
  }

  /** No key is stored twice, as in every Python dict. */
  predicate KeysUnique<K(==,!new), V>(d: Dict<K, V>) {
    d == [] || (Get(d[1..], d[0].0).None? && KeysUnique(d[1..]))
  }

  /** `d[k] = v`: an existing key keeps its position and takes the new value;
      a new key goes at the end. */
  function Put<K(==,!new), V>(d: Dict<K, V>, k: K, v: V): (r: Dict<K, V>)
    ensures Get(r, k) == Some(v)
    ensures forall k' :: k' != k ==> Get(r, k') == Get(d, k')
    ensures KeysUnique(d) ==> KeysUnique(r)
    ensures |r| == if Get(d, k).Some? then |d| else |d| + 1
    ensures forall i :: 0 <= i < |d| ==> r[i].0 == d[i].0
  {
    if d == [] then [(k, v)]
    else if d[0].0 == k then [(k, v)] + d[1..]
    else [d[0]] + Put(d[1..], k, v)
  }

  /** `del d[k]` where `k` may be absent: the other entries, in order. */
  function Remove<K(==,!new), V>(d: Dict<K, V>, k: K): (r: Dict<K, V>)
    ensures Get(r, k).None?
    ensures forall k' :: k' != k ==> Get(r, k') == Get(d, k')
    ensures KeysUnique(d) ==> KeysUnique(r)
  {
    if d == [] then []
    else if d[0].0 == k then Remove(d[1..], k)
    else [d[0]] + Remove(d[1..], k)
  }

  /** `d.pop(k, default)`: the value stored under `k`, or `default` when
      there is none, and the dict without `k`. */
  function Pop<K(==,!new), V>(d: Dict<K, V>, k: K, default: V): (r: (V, Dict<K, V>))
    ensures Get(d, k).Some? ==> r.0 == Get(d, k).value
    ensures Get(d, k).None? ==> r.0 == default
    ensures Get(r.1, k).None?
    ensures forall k' :: k' != k ==> Get(r.1, k') == Get(d, k')
    ensures KeysUnique(d) ==> KeysUnique(r.1)
  {
    (if Get(d, k).Some? then Get(d, k).value else default, Remove(d, k))
  }

  /** Storing a key the dict does not hold appends it at the end. */
  lemma {:induction false} PutAbsentLast<K(!new), V>(d: Dict<K, V>, k: K, v: V)
    requires Get(d, k).None?
    ensures |Put(d, k, v)| > 0 && Put(d, k, v)[|Put(d, k, v)| - 1] == (k, v)
  {
    if d != [] {
      PutAbsentLast(d[1..], k, v);
    }
  }

  /** The position of key `k` in `d`. */
  function KeyIndex<K(==,!new), V>(d: Dict<K, V>, k: K): (i: nat)
    requires Get(d, k).Some?
    ensures i < |d| && d[i].0 == k
  {
    if d[0].0 == k then 0 else 1 + KeyIndex(d[1..], k)
  }

  /** `d1 | d2`: every key of either, the right operand's value winning; the
      left operand's keys keep their positions and the keys only the right
      one holds follow, in the right operand's order. */
  function Union<K(==,!new), V>(d1: Dict<K, V>, d2: Dict<K, V>): (r: Dict<K, V>)
    requires KeysUnique(d2)
    ensures forall k :: Get(r, k) == if Get(d2, k).Some? then Get(d2, k) else Get(d1, k)
    ensures KeysUnique(d1) ==> KeysUnique(r)
    ensures |d1| <= |r| && forall i :: 0 <= i < |d1| ==> r[i].0 == d1[i].0
    ensures forall i :: |d1| <= i < |r| ==> Get(d1, r[i].0).None? && Get(d2, r[i].0).Some?
    ensures forall i, j :: |d1| <= i < j < |r| ==> KeyIndex(d2, r[i].0) < KeyIndex(d2, r[j].0)
    decreases |d2|
  {
    if d2 == [] then d1
    else
      var k := d2[0].0;
      var p := Put(d1, k, d2[0].1);
      var r := Union(p, d2[1..]);
      PutKeeps(d1, k, d2[0].1);
      UnionStep(d1, d2, p, r);
      r
  }

  /** What `d[k] = v` keeps of `d`'s keys: they stay in place, at most `k`
      is added, after them and only when absent. */
  lemma PutKeeps<K(!new), V>(d: Dict<K, V>, k: K, v: V)
    ensures var p := Put(d, k, v);
      |d| <= |p| <= |d| + 1 && (forall i :: 0 <= i < |d| ==> p[i].0 == d[i].0)
      && (|d| < |p| ==> p[|d|].0 == k && Get(d, k).None?)
      && (forall x :: Get(p, x).None? ==> Get(d, x).None? && x != k)
  {
    if Get(d, k).None? {
      PutAbsentLast(d, k, v);
    }
  }

  /** The inductive step of `Union`'s key order. `p` is `d1` with the first
      entry of `d2` put in, described by what putting keeps: the keys of `d1`
      in place, the new key after them when it was absent, and nothing else
      added. What holds of `r`, the merge of `p` with the rest of `d2`, then
      holds of `d1` and all of `d2`. */
  lemma UnionStep<K(!new), V>(d1: Dict<K, V>, d2: Dict<K, V>, p: Dict<K, V>, r: Dict<K, V>)
    requires d2 != []
    requires |d1| <= |p| <= |d1| + 1 && forall i :: 0 <= i < |d1| ==> p[i].0 == d1[i].0
    requires |d1| < |p| ==> p[|d1|].0 == d2[0].0 && Get(d1, d2[0].0).None?
    requires forall x :: Get(p, x).None? ==> Get(d1, x).None? && x != d2[0].0
    requires |p| <= |r| && forall i :: 0 <= i < |p| ==> r[i].0 == p[i].0
    requires forall i :: |p| <= i < |r| ==> Get(p, r[i].0).None? && Get(d2[1..], r[i].0).Some?
    requires forall i, j :: |p| <= i < j < |r| ==> KeyIndex(d2[1..], r[i].0) < KeyIndex(d2[1..], r[j].0)
    ensures |d1| <= |r| && forall i :: 0 <= i < |d1| ==> r[i].0 == d1[i].0
    ensures forall i :: |d1| <= i < |r| ==> Get(d1, r[i].0).None? && Get(d2, r[i].0).Some?
    ensures forall i, j :: |d1| <= i < j < |r| ==> KeyIndex(d2, r[i].0) < KeyIndex(d2, r[j].0)
  {
    forall i | |p| <= i < |r|
      ensures Get(d1, r[i].0).None? && Get(d2, r[i].0).Some?
      ensures KeyIndex(d2, r[i].0) == 1 + KeyIndex(d2[1..], r[i].0)
    {
      KeyIndexTail(d2, r[i].0);
    }
    KeysAfterFirst(d2, r, |d1|, |p|);
  }

  /** A key of the rest of `d2` other than its first key is found one place
      further on in `d2`. */
  lemma KeyIndexTail<K(!new), V>(d2: Dict<K, V>, x: K)
    requires d2 != [] && x != d2[0].0 && Get(d2[1..], x).Some?
    ensures Get(d2, x).Some?
    ensures KeyIndex(d2, x) == 1 + KeyIndex(d2[1..], x)
  {
  }

  /** Keys of `r` from `hi` on that are found one place further on in `d2`
      than in its tail, after at most `d2`'s first key at `lo`, keep their
      order in `d2` from `lo` on. */
  lemma KeysAfterFirst<K(!new), V>(d2: Dict<K, V>, r: Dict<K, V>, lo: nat, hi: nat)
    requires d2 != [] && lo <= hi <= lo + 1 && hi <= |r|
    requires lo < hi ==> r[lo].0 == d2[0].0
    requires forall i :: hi <= i < |r| ==> Get(d2[1..], r[i].0).Some? && Get(d2, r[i].0).Some?
    requires forall i :: hi <= i < |r| ==> KeyIndex(d2, r[i].0) == 1 + KeyIndex(d2[1..], r[i].0)
    requires forall i, j :: hi <= i < j < |r| ==> KeyIndex(d2[1..], r[i].0) < KeyIndex(d2[1..], r[j].0)
    ensures forall i, j :: lo <= i < j < |r| ==> KeyIndex(d2, r[i].0) < KeyIndex(d2, r[j].0)
  {
  }

  /** A key `Get` does not find is stored nowhere. */
  lemma {:induction false} GetNoneAbsent<K(!new), V>(d: Dict<K, V>, k: K)
    requires Get(d, k).None?
    ensures forall i :: 0 <= i < |d| ==> d[i].0 != k
  {
    if d != [] {
      GetNoneAbsent(d[1..], k);
      assert forall i :: 1 <= i < |d| ==> d[i] == d[1..][i - 1];
    }
  }

  lemma FirstThreeDistinct<K(!new), V>(d: Dict<K, V>)
    requires KeysUnique(d) && |d| >= 3
    ensures d[0].0 != d[1].0 && d[0].0 != d[2].0 && d[1].0 != d[2].0
  {
    GetNoneAbsent(d[1..], d[0].0);
    assert KeysUnique(d[1..]);
    GetNoneAbsent(d[2..], d[1].0);
    assert d[1..][1..] == d[2..];
  }

  lemma ThreeBoolsNotDistinct(a: bool, b: bool, c: bool)
    ensures a == b || a == c || b == c
  {
  }

  /** A dict keyed by booleans holds at most one `True` and one `False` entry. */
  lemma BoolKeyedAtMostTwo<V>(d: Dict<bool, V>)
    requires KeysUnique(d)
    ensures |d| <= 2
  {
    if |d| > 2 {
      ThreeBoolsNotDistinct(d[0].0, d[1].0, d[2].0);
      FirstThreeDistinct(d);
      assert false;
    }
  }
}
