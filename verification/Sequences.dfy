/** Numbers, and sequences and sets of different ones. */
module Sequences {

  function Min(a: int, b: int): int {
    if a < b then a else b
  }

  predicate Distinct(s: seq<nat>) {
    forall i, j | 0 <= i < j < |s| :: s[i] != s[j]
  }

  /** So many different numbers are not in a smaller set. */
  lemma {:induction false} AllDifferent(xs: seq<nat>, from: nat, within: set<nat>)
    requires from <= |xs| && (forall k | from <= k < |xs| :: xs[k] in within)
    requires forall j, k | from <= j < k < |xs| :: xs[j] != xs[k]
    ensures |xs| - from <= |within|
    decreases |xs| - from
  {
    if from < |xs| {
      AllDifferent(xs, from + 1, within - {xs[from]});
    }
  }

  lemma SubsetSize<T>(a: set<T>, b: set<T>)
    requires a <= b
    ensures |a| <= |b|
  {
    assert b == a + (b - a);
  }

  /** The numbers from `lo` on, `n` of them. */
  function Numbers(lo: nat, n: nat): (r: set<nat>)
    ensures |r| == n && forall m: nat :: m in r <==> lo <= m < lo + n
  {
    if n == 0 then {} else Numbers(lo, n - 1) + {lo + n - 1}
  }
}
