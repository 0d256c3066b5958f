/** Counting finite sets and duplicate-free lists: the pigeonhole arguments other modules use. */
module Counting {
  ghost predicate Distinct<T>(xs: seq<T>) {
    forall j, k | 0 <= j < k < |xs| :: xs[j] != xs[k]
  }

  ghost function Elements<T>(xs: seq<T>): set<T> {
    set x | x in xs
  }

  ghost function Below(n: nat): (r: set<nat>)
    ensures |r| == n
    ensures forall x: nat :: x in r <==> x < n
  {
    if n == 0 then {} else Below(n - 1) + {n - 1}
  }

  lemma {:induction false} SubsetCount<T>(a: set<T>, b: set<T>)
    requires a <= b
    ensures |a| <= |b|
  {
    if a != {} {
      var x :| x in a;
      SubsetCount(a - {x}, b - {x});
    }
  }

  lemma {:induction false} DistinctCount<T>(xs: seq<T>)
    requires Distinct(xs)
    ensures |Elements(xs)| == |xs|
  {
    if xs != [] {
      var n := |xs| - 1;
      DistinctCount(xs[..n]);
      assert xs == xs[..n] + [xs[n]];
      assert Elements(xs) == Elements(xs[..n]) + {xs[n]};
    }
  }

  /** A duplicate-free list of numbers below `n` is no longer than `n`, and shorter if it misses one. */
  lemma Pigeonhole(xs: seq<nat>, n: nat)
    requires Distinct(xs) && forall k | 0 <= k < |xs| :: xs[k] < n
    ensures |xs| <= n
    ensures (exists hole: nat :: hole < n && hole !in xs) ==> |xs| < n
  {
    DistinctCount(xs);
    SubsetCount(Elements(xs), Below(n));
    if hole: nat :| hole < n && hole !in xs {
      SubsetCount(Elements(xs), Below(n) - {hole});
    }
  }
}
