/** Python dicts: insertion-ordered entries with distinct keys. */
module Dicts {
  import opened Wrappers

  /** The entries of a dict in insertion order. */
  type Dict<K, V> = seq<(K, V)>

  predicate DistinctKeys<K(==), V>(d: Dict<K, V>) {
    forall i, j :: 0 <= i < j < |d| ==> d[i].0 != d[j].0
  }

  /** The keys of the entries of `d` (of any list of pairs). */
  function Keys<K, V>(d: Dict<K, V>): (ks: set<K>)
    ensures forall i :: 0 <= i < |d| ==> d[i].0 in ks
    ensures forall k :: k in ks ==> exists i :: 0 <= i < |d| && d[i].0 == k
  {
    if |d| == 0 then {}
    else
      var ks := {d[0].0} + Keys(d[1..]);
      assert forall i :: 1 <= i < |d| ==> d[i].0 == d[1..][i - 1].0;
      ks
  }

  lemma KeysCons<K, V>(h: (K, V), rest: Dict<K, V>)
    ensures Keys([h] + rest) == {h.0} + Keys(rest)
  {
    assert ([h] + rest)[1..] == rest;
  }

  lemma {:induction false} KeysSnoc<K, V>(es: Dict<K, V>)
    requires |es| > 0
    ensures Keys(es) == Keys(es[..|es| - 1]) + {es[|es| - 1].0}
  {
    if |es| > 1 {
      KeysSnoc(es[1..]);
      assert es[1..][..|es| - 2] == es[..|es| - 1][1..];
    }
  }

  lemma {:induction false} KeysSameKeys<K, V>(a: Dict<K, V>, b: Dict<K, V>)
    requires |a| == |b| && forall i :: 0 <= i < |a| ==> a[i].0 == b[i].0
    ensures Keys(a) == Keys(b)
  {
    if |a| > 0 {
      KeysSameKeys(a[1..], b[1..]);
    }
  }

  /** `list(d.values())`. */
  function Values<K, V>(d: Dict<K, V>): (vs: seq<V>)
    ensures |vs| == |d| && forall i :: 0 <= i < |d| ==> vs[i] == d[i].1
  {
    seq(|d|, i requires 0 <= i < |d| => d[i].1)
  }

  /** Where the first entry for `k` sits. */
  function IndexOf<K(==), V>(d: Dict<K, V>, k: K): (i: nat)
    requires k in Keys(d)
    ensures i < |d| && d[i].0 == k
    ensures forall j :: 0 <= j < i ==> d[j].0 != k
  {
    if d[0].0 == k then 0
    else
      assert d == [d[0]] + d[1..];
      KeysCons(d[0], d[1..]);
      1 + IndexOf(d[1..], k)
  }

  /** `d.get(k)`. */
  function Find<K(==), V>(d: Dict<K, V>, k: K): (r: Option<V>)
    ensures r.None? <==> k !in Keys(d)
    ensures r.Some? ==> exists i :: 0 <= i < |d| && d[i] == (k, r.value)
  {
    if k in Keys(d) then Some(d[IndexOf(d, k)].1) else None
  }

  lemma FindAt<K, V>(d: Dict<K, V>, i: nat)
    requires DistinctKeys(d) && i < |d|
    ensures Find(d, d[i].0) == Some(d[i].1)
  {
  }

  /** `d[k] = v`: an existing key keeps its position and takes the new value;
      a new key goes to the end. */
  function Put<K(==,!new), V>(d: Dict<K, V>, k: K, v: V): (r: Dict<K, V>)
    requires DistinctKeys(d)
    ensures DistinctKeys(r)
    ensures Keys(r) == Keys(d) + {k}
    ensures k in Keys(d) ==> |r| == |d| && forall i :: 0 <= i < |d| ==> r[i].0 == d[i].0
    ensures k !in Keys(d) ==> r == d + [(k, v)]
    ensures Find(r, k) == Some(v)
  {
    if k in Keys(d) then
      var p := IndexOf(d, k);
      var r := d[p := (k, v)];
      KeysSameKeys(r, d);
      FindAt(r, p);
      r
    else
      var r := d + [(k, v)];
      KeysSnoc(r);
      assert r[..|d|] == d;
      FindAt(r, |d|);
      r
  }

  /** Assigning one key leaves every other key's value as it was. */
  lemma PutOthers<K(!new), V>(d: Dict<K, V>, k: K, v: V, other: K)
    requires DistinctKeys(d) && other != k
    ensures Find(Put(d, k, v), other) == Find(d, other)
  {
    var r := Put(d, k, v);
    if other in Keys(d) {
      var p := IndexOf(d, other);
      FindAt(d, p);
      FindAt(r, p);
    }
  }

  /** `v` is what the last entry for `k` in `es` carries. */
  ghost predicate LastWrite<K, V>(es: seq<(K, V)>, k: K, v: V) {
    exists i :: 0 <= i < |es| && es[i] == (k, v) && forall j :: i < j < |es| ==> es[j].0 != k
  }

  /** A dict built by assigning `d[k] = v` for each entry in turn. */
  function FromEntries<K(==,!new), V>(es: seq<(K, V)>): (d: Dict<K, V>)
    ensures DistinctKeys(d)
    ensures Keys(d) == Keys(es)
  {
    if |es| == 0 then []
    else
      KeysSnoc(es);
      Put(FromEntries(es[..|es| - 1]), es[|es| - 1].0, es[|es| - 1].1)
  }

  /** Last write wins: the value a key ends up with is the one its last entry carries. */
  lemma {:induction false} FromEntriesLastWrite<K(!new), V>(es: seq<(K, V)>, k: K)
    requires k in Keys(es)
    ensures Find(FromEntries(es), k).Some? && LastWrite(es, k, Find(FromEntries(es), k).value)
  {
    var n := |es| - 1;
    var init := es[..n];
    var last := es[n];
    var prev := FromEntries(init);
    KeysSnoc(es);
    assert FromEntries(es) == Put(prev, last.0, last.1);
    if k == last.0 {
      assert Find(FromEntries(es), k) == Some(last.1);
      assert es[n] == (k, last.1);
    } else {
      FromEntriesLastWrite(init, k);
      PutOthers(prev, last.0, last.1, k);
      var v := Find(prev, k).value;
      var i :| 0 <= i < |init| && init[i] == (k, v) && forall j :: i < j < |init| ==> init[j].0 != k;
      LastWriteExtend(es, init, k, v, i);
    }
  }

  lemma LastWriteExtend<K, V>(es: seq<(K, V)>, init: seq<(K, V)>, k: K, v: V, i: nat)
    requires |es| > 0 && init == es[..|es| - 1]
    requires 0 <= i < |init| && init[i] == (k, v)
    requires forall j :: i < j < |init| ==> init[j].0 != k
    requires es[|es| - 1].0 != k
    ensures LastWrite(es, k, v)
  {
    assert es[i] == (k, v);
    forall j | i < j < |es| ensures es[j].0 != k {
      if j < |init| { assert es[j] == init[j]; }
    }
  }
}
