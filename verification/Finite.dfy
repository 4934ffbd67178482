/** Counting facts about finite sets and duplicate-free sequences. */
module Finite {

  predicate NoDuplicates<T(==)>(s: seq<T>) {
    forall i, j :: 0 <= i < j < |s| ==> s[i] != s[j]
  }

  predicate Bounded(s: seq<nat>, n: nat) {
    forall k :: 0 <= k < |s| ==> s[k] < n
  }

  ghost function Elements<T>(s: seq<T>): set<T> { set x | x in s }

  /** The set {0, ..., n-1}. */
  ghost function Below(n: nat): (r: set<nat>)
    ensures |r| == n && forall v: nat :: v in r <==> v < n
  {
    if n == 0 then {} else Below(n - 1) + {n - 1}
  }

  lemma SubsetSize<T>(a: set<T>, b: set<T>)
    requires a <= b
    ensures |a| <= |b| && (|a| == |b| ==> a == b)
  {
    assert b == a + (b - a);
    assert |b| == |a| + |b - a|;
    if |a| == |b| { assert b - a == {}; }
  }

  lemma {:induction false} DistinctElements<T>(s: seq<T>)
    requires NoDuplicates(s)
    ensures |Elements(s)| == |s|
  {
    if s != [] {
      var rest, last := s[..|s| - 1], s[|s| - 1];
      DistinctElements(rest);
      assert Elements(s) == Elements(rest) + {last};
      assert last !in rest;
    }
  }

  /** A duplicate-free sequence of numbers below `n` has at most `n` entries, and `n` only if it has them all. */
  lemma AtMostAll(s: seq<nat>, n: nat)
    requires NoDuplicates(s) && forall v :: v in s ==> v < n
    ensures |s| <= n
    ensures |s| == n <==> forall v: nat :: v < n ==> v in s
  {
    DistinctElements(s);
    SubsetSize(Elements(s), Below(n));
    if |s| == n {
      forall v: nat | v < n ensures v in s {
        assert v in Elements(s);
      }
    }
    if forall v: nat :: v < n ==> v in s {
      assert Elements(s) == Below(n);
    }
  }
}
