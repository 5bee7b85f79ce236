/** Sequence operations that list comprehensions and slicing loops reduce to. */
module Seqs {

  /** `a` is `b` with some elements left out, the rest kept in order. */
  predicate IsSubsequence<T(==)>(a: seq<T>, b: seq<T>)
    decreases |b|
  {
    || |a| == 0
    || (|b| > 0 && ((a[0] == b[0] && IsSubsequence(a[1..], b[1..])) || IsSubsequence(a, b[1..])))
  }

  /** `[x for x in xs if keep(x)]`. */
  function Filter<T(==,!new)>(xs: seq<T>, keep: T -> bool): (r: seq<T>)
    ensures IsSubsequence(r, xs)
    ensures forall x :: x in r <==> x in xs && keep(x)
    ensures forall x :: multiset(r)[x] == if keep(x) then multiset(xs)[x] else 0
  {
    if |xs| == 0 then []
    else
      var rest := Filter(xs[1..], keep);
      assert xs == [xs[0]] + xs[1..];
      if keep(xs[0]) then
        assert ([xs[0]] + rest)[1..] == rest;
        [xs[0]] + rest
      else rest
  }

  /** A filter that keeps everything changes nothing. */
  lemma {:induction false} FilterKeepsAll<T(!new)>(xs: seq<T>, keep: T -> bool)
    requires forall x :: x in xs ==> keep(x)
    ensures Filter(xs, keep) == xs
  {
    if |xs| > 0 {
      assert keep(xs[0]) by { assert xs[0] in xs; }
      forall x | x in xs[1..] ensures keep(x) {
        assert x in xs;
      }
      FilterKeepsAll(xs[1..], keep);
      assert xs == [xs[0]] + xs[1..];
    }
  }

  /** The rows laid end to end. */
  function Flatten<T>(rows: seq<seq<T>>): seq<T>
  {
    if |rows| == 0 then [] else rows[0] + Flatten(rows[1..])
  }

  /** `[xs[i:i + n] for i in range(0, len(xs), n)]`: consecutive slices of
      `n` elements, the last one possibly shorter. */
  function Chunks<T>(xs: seq<T>, n: nat): (rows: seq<seq<T>>)
    requires n > 0
    ensures Flatten(rows) == xs
    ensures forall i :: 0 <= i < |rows| ==> 0 < |rows[i]| <= n
    ensures forall i :: 0 <= i < |rows| - 1 ==> |rows[i]| == n
    decreases |xs|
  {
    if |xs| == 0 then []
    else if |xs| <= n then
      assert Flatten([xs]) == xs + Flatten([]);
      [xs]
    else
      var rest := Chunks(xs[n..], n);
      var rows := [xs[..n]] + rest;
      assert rows[1..] == rest;
      assert xs == xs[..n] + xs[n..];
      rows
  }
}
