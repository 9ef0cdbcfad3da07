/** The in-place shuffle that gengraph.c and gentree.c share. The draws are what rand() returned. */
module Shuffle {
  import opened Counting

  /** The order after the first i swaps. */
  function Shuffled(n: nat, draws: seq<nat>, i: nat): (perm: seq<int>)
    requires i <= n && i <= |draws|
    ensures Permutation(perm, n)
  {
    if i == 0 then
      seq(n, k => k)
    else
      var was := Shuffled(n, draws, i - 1);
      var j := i - 1 + draws[i - 1] % (n - (i - 1));
      SwapPermutation(was, n, i - 1, j);
      was[i - 1 := was[j]][j := was[i - 1]]
  }

  method Permute(n: nat, draws: seq<nat>) returns (perm: array<int>)
    requires |draws| == n
    ensures fresh(perm) && perm[..] == Shuffled(n, draws, n) && Permutation(perm[..], n)
  {
    perm := new int[n](i => i);
    assert perm[..] == Shuffled(n, draws, 0);
    for i := 0 to n
      invariant perm[..] == Shuffled(n, draws, i)
    {
      var j := i + draws[i] % (n - i);
      ghost var was := perm[..];
      perm[i], perm[j] := perm[j], perm[i];
      assert perm[..] == was[i := was[j]][j := was[i]];
    }
  }

  lemma {:induction false} EarlierDraws(n: nat, draws: seq<nat>, r: nat, i: nat)
    requires i <= n && i <= |draws|
    ensures Shuffled(n, draws + [r], i) == Shuffled(n, draws, i)
  {
    if i > 0 {
      EarlierDraws(n, draws, r, i - 1);
    }
  }

  /** Drawing j exchanges the values at places i and j and disturbs no other place. */
  lemma OneMoreDraw(n: nat, draws: seq<nat>, i: nat, j: nat)
    requires i == |draws| < n && i <= j < n
    ensures Shuffled(n, draws + [j - i], i + 1)[..i] == Shuffled(n, draws, i)[..i]
    ensures Shuffled(n, draws + [j - i], i + 1)[i] == Shuffled(n, draws, i)[j]
    ensures Shuffled(n, draws + [j - i], i + 1)[j] == Shuffled(n, draws, i)[i]
    ensures forall k :: i < k < n && k != j ==> Shuffled(n, draws + [j - i], i + 1)[k] == Shuffled(n, draws, i)[k]
  {
    hide Shuffled, Permutation;
    EarlierDraws(n, draws, j - i, i);
    RemainderBelow(j - i, n - i);
    ShuffledStep(n, draws + [j - i], i, j);
  }

  lemma ShuffledStep(n: nat, draws: seq<nat>, i: nat, j: nat)
    requires i < n && i < |draws| && j == i + draws[i] % (n - i)
    ensures var was := Shuffled(n, draws, i);
            j < n == |was| && Shuffled(n, draws, i + 1) == was[i := was[j]][j := was[i]]
  {
  }

  lemma RemainderBelow(x: nat, m: nat)
    requires x < m
    ensures x % m == x
  {
  }

  /** Draws that settle the first m places as in the order wanted. */
  lemma {:induction false} DrawsFor(n: nat, order: seq<int>, m: nat) returns (draws: seq<nat>)
    requires Permutation(order, n) && m <= n
    ensures |draws| == m && Shuffled(n, draws, m)[..m] == order[..m]
  {
    if m == 0 {
      draws := [];
    } else {
      var i := m - 1;
      var front := DrawsFor(n, order, i);
      var was := Shuffled(n, front, i);
      var j := PermutationHits(was, n, order[i]);
      forall k | 0 <= k < i
        ensures was[k] != order[i]
      {
        assert was[..i][k] == order[..i][k];
      }
      OneMoreDraw(n, front, i, j);
      draws := front + [j - i];
      hide Shuffled;
      var now := Shuffled(n, draws, m);
      assert now[..m] == now[..i] + [now[i]];
      assert order[..m] == order[..i] + [order[i]];
    }
  }

  /** Every order of 0..n-1 can come out. */
  lemma EveryOrderComesOut(n: nat, order: seq<int>)
    requires Permutation(order, n)
    ensures exists draws: seq<nat> :: |draws| == n && Shuffled(n, draws, n) == order
  {
    var draws := DrawsFor(n, order, n);
    assert Shuffled(n, draws, n)[..n] == Shuffled(n, draws, n) && order[..n] == order;
  }
}
