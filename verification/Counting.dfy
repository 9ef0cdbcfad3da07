/** Finite-set and finite-sequence counting facts shared by the other modules. */
module Counting {

  /** The numbers 0..n-1. */
  ghost function Below(n: nat): (r: set<nat>)
    ensures forall i: nat :: i in r <==> i < n
  {
    if n == 0 then {} else Below(n - 1) + {n - 1}
  }

  lemma BelowCount(n: nat)
    ensures |Below(n)| == n
  {
    if n > 0 {
      BelowCount(n - 1);
    }
  }

  lemma SubsetCount<T>(a: set<T>, b: set<T>)
    requires a <= b
    ensures |a| <= |b|
    ensures |a| == |b| ==> a == b
  {
    var rest := b - a;
    assert b == a + rest;
    assert |b| == |a| + |rest|;
  }

  /** All entries of a sequence differ. */
  ghost predicate Distinct<T>(s: seq<T>) {
    forall i, j :: 0 <= i < j < |s| ==> s[i] != s[j]
  }

  ghost function Members<T>(s: seq<T>): set<T> {
    set x | x in s
  }

  lemma DistinctCount<T>(s: seq<T>)
    requires Distinct(s)
    ensures |Members(s)| == |s|
  {
    if |s| > 0 {
      var front := s[..|s| - 1];
      DistinctCount(front);
      assert s == front + [s[|s| - 1]];
      assert Members(s) == Members(front) + {s[|s| - 1]};
    }
  }

  /** More entries than values: two entries coincide. */
  lemma Pigeonhole(s: seq<nat>, n: nat) returns (p: nat, q: nat)
    requires |s| > n
    requires forall k :: 0 <= k < |s| ==> s[k] < n
    ensures p < q < |s| && s[p] == s[q]
  {
    if Distinct(s) {
      DistinctCount(s);
      BelowCount(n);
      SubsetCount(Members(s), Below(n));
    }
    p, q :| 0 <= p < q < |s| && s[p] == s[q];
  }

  /** A sequence that lists 0..n-1, each exactly once. */
  ghost predicate Permutation(s: seq<int>, n: nat) {
    && |s| == n
    && Distinct(s)
    && forall k :: 0 <= k < n ==> 0 <= s[k] < n
  }

  /** A permutation misses no value. */
  lemma PermutationHits(s: seq<int>, n: nat, v: nat) returns (k: nat)
    requires Permutation(s, n) && v < n
    ensures k < n && s[k] == v
  {
    if v !in s {
      var t: seq<nat> := seq(n, i requires 0 <= i < n => s[i] as nat);
      DistinctCount(t);
      BelowCount(n);
      SubsetCount(Members(t), Below(n) - {v});
    }
    k :| 0 <= k < n && s[k] == v;
  }

  lemma SwapPermutation(s: seq<int>, n: nat, i: nat, j: nat)
    requires Permutation(s, n) && i < n && j < n
    ensures Permutation(s[i := s[j]][j := s[i]], n)
  {
  }

  function Sum(s: seq<int>): int {
    if s == [] then 0 else Sum(s[..|s| - 1]) + s[|s| - 1]
  }

  lemma {:induction false} SumUpdate(s: seq<int>, a: nat, v: int)
    requires a < |s|
    ensures Sum(s[a := v]) == Sum(s) - s[a] + v
  {
    var m := |s| - 1;
    if a < m {
      SumUpdate(s[..m], a, v);
      assert s[a := v][..m] == s[..m][a := v];
    } else {
      assert s[a := v][..m] == s[..m];
    }
  }

  lemma {:induction false} SumBounds(s: seq<int>, v: int)
    ensures (forall i :: 0 <= i < |s| ==> s[i] >= 0) ==> Sum(s) >= 0
    ensures (forall i :: 0 <= i < |s| ==> s[i] == v) ==> Sum(s) == |s| * v
  {
    if s != [] {
      SumBounds(s[..|s| - 1], v);
    }
  }
}
