/** boss.c's in-degree checker: it accepts a permutation exactly when every edge goes forward in it. */
module TopoChecker {
  import opened Counting
  import opened Graphs
  import opened TopoVerdict

  ghost function Heads(g: Graph, v: nat, m: nat): set<nat>
    requires g.Valid() && v < g.n && m <= g.n
  {
    set u: nat | u in Below(m) && g.Edge(u, v)
  }

  ghost function ScannedHeads(g: Graph, t: seq<int>, v: nat, i: nat): set<int>
    requires g.Valid() && v < g.n && i <= |t| && InRange(g, t)
  {
    set u | u in Members(t[..i]) && g.Edge(u, v)
  }

  lemma HeadsGrow(g: Graph, v: nat, m: nat)
    requires g.Valid() && v < g.n && 0 < m <= g.n
    ensures Heads(g, v, m) == Heads(g, v, m - 1) + if g.Edge(m - 1, v) then {m - 1} else {}
    ensures m - 1 !in Heads(g, v, m - 1)
  {
  }

  lemma {:induction false} InDegreeCounts(g: Graph, v: nat, m: nat)
    requires g.Valid() && v < g.n && m <= g.n
    ensures InDegree(g, v, m) == |Heads(g, v, m)|
  {
    if m == 0 {
      assert Heads(g, v, m) == {};
    } else {
      InDegreeCounts(g, v, m - 1);
      HeadsGrow(g, v, m);
    }
  }

  lemma ScannedGrows(g: Graph, t: seq<int>, v: nat, i: nat)
    requires g.Valid() && v < g.n && 0 < i <= |t| && InRange(g, t) && Distinct(t)
    ensures ScannedHeads(g, t, v, i) == ScannedHeads(g, t, v, i - 1) + if g.Edge(t[i - 1], v) then {t[i - 1]} else {}
    ensures t[i - 1] !in ScannedHeads(g, t, v, i - 1)
  {
    assert t[..i] == t[..i - 1] + [t[i - 1]];
    assert Members(t[..i]) == Members(t[..i - 1]) + {t[i - 1]};
  }

  lemma {:induction false} ScannedCounts(g: Graph, t: seq<int>, v: nat, i: nat)
    requires g.Valid() && v < g.n && i <= |t| && InRange(g, t) && Distinct(t)
    ensures Scanned(g, t, v, i) == |ScannedHeads(g, t, v, i)|
  {
    if i == 0 {
      assert ScannedHeads(g, t, v, i) == {};
    } else {
      ScannedCounts(g, t, v, i - 1);
      ScannedGrows(g, t, v, i);
    }
  }

  /** Place i passes the test iff every head of an edge into t[i] stands before place i. */
  lemma PlaceTest(g: Graph, t: seq<int>, i: nat)
    requires g.Valid() && Permutation(t, g.n) && i < g.n
    ensures InRange(g, t)
    ensures InDegree(g, t[i], g.n) == Scanned(g, t, t[i], i)
       <==> forall p :: 0 <= p < g.n && g.Edge(t[p], t[i]) ==> p < i
  {
    var heads, scanned := Heads(g, t[i], g.n), ScannedHeads(g, t, t[i], i);
    InDegreeCounts(g, t[i], g.n);
    ScannedCounts(g, t, t[i], i);
    SubsetCount(scanned, heads);
    forall p | |heads| == |scanned| && 0 <= p < g.n && g.Edge(t[p], t[i])
      ensures p < i
    {
      assert t[p] in heads;
      var k :| 0 <= k < i && t[k] == t[p];
    }
    if forall p :: 0 <= p < g.n && g.Edge(t[p], t[i]) ==> p < i {
      forall u | u in heads
        ensures u in scanned
      {
        var p := PermutationHits(t, g.n, u);
        assert t[..i][p] == u;
      }
      assert heads == scanned;
    }
  }

  /** Sound and complete on permutations, for any matrix, self-loops included. */
  lemma CheckerDecidesOrder(g: Graph, t: seq<int>)
    requires g.Valid() && Permutation(t, g.n)
    ensures Accepts(g, t) <==> forall p, q :: 0 <= p < g.n && 0 <= q < g.n && g.rows[t[p]][t[q]] == 1 ==> p < q
  {
    forall i: nat | i < g.n
      ensures InRange(g, t)
      ensures InDegree(g, t[i], g.n) == Scanned(g, t, t[i], i)
         <==> forall p :: 0 <= p < g.n && g.Edge(t[p], t[i]) ==> p < i
    {
      PlaceTest(g, t, i);
    }
  }

  lemma {:induction false} NoEdgeIn(g: Graph, v: nat, m: nat)
    requires g.Valid() && v < g.n && m <= g.n && InDegree(g, v, m) == 0
    ensures forall u: nat :: u < m ==> !g.Edge(u, v)
  {
    if m > 0 {
      NoEdgeIn(g, v, m - 1);
    }
  }

  lemma {:induction false} SomeEdgeIn(g: Graph, v: nat, m: nat)
    requires g.Valid() && v < g.n && m <= g.n
    ensures InDegree(g, v, m) > 0 <==> exists u :: 0 <= u < m && g.rows[u][v] == 1
  {
    if m > 0 {
      SomeEdgeIn(g, v, m - 1);
      if g.rows[m - 1][v] == 1 {
        assert 0 <= m - 1 < m;
      }
    }
  }

  lemma {:induction false} NothingTakenOff(g: Graph, t: seq<int>, v: nat, i: nat)
    requires g.Valid() && v < g.n && i <= |t| && InRange(g, t) && InDegree(g, v, g.n) == 0
    ensures Scanned(g, t, v, i) == 0
  {
    NoEdgeIn(g, v, g.n);
    if i > 0 {
      NothingTakenOff(g, t, v, i - 1);
    }
  }

  ghost predicate HasEdgeIn(g: Graph, v: nat)
    requires g.Valid() && v < g.n
  {
    exists u :: 0 <= u < g.n && g.rows[u][v] == 1
  }

  /** The checker trusts its caller that T is a permutation: with two vertices or more it accepts some T
      that is none exactly when some vertex has no edge into it, itself included. */
  lemma OnlyPermutationsAccepted(g: Graph)
    requires g.Valid()
    ensures (forall t: seq<int> :: Accepts(g, t) ==> Permutation(t, g.n))
       <==> g.n <= 1 || forall v: nat :: v < g.n ==> HasEdgeIn(g, v)
  {
    forall v: nat | v < g.n
      ensures InDegree(g, v, g.n) > 0 <==> HasEdgeIn(g, v)
    {
      SomeEdgeIn(g, v, g.n);
    }
    if g.n > 1 && exists v: nat :: v < g.n && InDegree(g, v, g.n) == 0 {
      var v: nat :| v < g.n && InDegree(g, v, g.n) == 0;
      SourceRepeated(g, v);
    } else {
      forall t: seq<int> | Accepts(g, t)
        ensures Permutation(t, g.n)
      {
        if g.n > 1 {
          FirstIsSource(g, t);
        }
      }
    }
  }

  lemma FirstIsSource(g: Graph, t: seq<int>)
    requires g.Valid() && g.n > 0 && Accepts(g, t)
    ensures |t| > 0 && 0 <= t[0] < g.n && InDegree(g, t[0], g.n) == 0
  {
    assert Scanned(g, t, t[0], 0) == 0;
  }

  /** A vertex without edges into it, n times over. */
  lemma SourceRepeated(g: Graph, v: nat)
    requires g.Valid() && g.n > 1 && v < g.n && InDegree(g, v, g.n) == 0
    ensures exists t: seq<int> :: Accepts(g, t) && !Permutation(t, g.n)
  {
    var t := seq(g.n, _ => v as int);
    forall i | 0 <= i < g.n
      ensures InDegree(g, t[i], g.n) == Scanned(g, t, t[i], i)
    {
      NothingTakenOff(g, t, v, i);
    }
    assert t[0] == t[1];
    assert Accepts(g, t) && !Permutation(t, g.n);
  }

  /** The flat array holds row i at i * n .. i * n + n. */
  ghost predicate HoldsMatrix(a: seq<int>, g: Graph)
    requires g.Valid()
  {
    |a| == g.n * g.n && forall i: nat :: i < g.n ==> RowAt(a, g, i)
  }

  ghost predicate RowAt(a: seq<int>, g: Graph, i: nat)
    requires g.Valid() && i < g.n
  {
    i * g.n + g.n <= |a| && a[i * g.n..i * g.n + g.n] == g.rows[i]
  }

  lemma CellHolds(a: seq<int>, g: Graph, i: nat, j: nat)
    requires g.Valid() && HoldsMatrix(a, g) && i < g.n && j < g.n
    ensures 0 <= i * g.n + j < |a| && a[i * g.n + j] == g.rows[i][j]
  {
    assert RowAt(a, g, i);
    assert a[i * g.n..i * g.n + g.n][j] == a[i * g.n + j];
  }

  /** The in-degree pass over row i of A. */
  method CountRow(A: array<int>, inDegree: array<int>, n: nat, i: nat, ghost g: Graph)
    requires n <= inDegree.Length && g.Valid() && g.n == n && i < n && A != inDegree
    requires HoldsMatrix(A[..], g)
    requires forall v :: 0 <= v < n ==> inDegree[v] == InDegree(g, v, i)
    modifies inDegree
    ensures forall v :: 0 <= v < n ==> inDegree[v] == InDegree(g, v, i + 1)
  {
    for j := 0 to n
      invariant forall v :: 0 <= v < n ==> inDegree[v] == InDegree(g, v, if v < j then i + 1 else i)
    {
      CellHolds(A[..], g, i, j);
      if A[i * n + j] == 1 {
        inDegree[j] := inDegree[j] + 1;
      }
    }
  }

  /** The scan of place i of T: its successors lose one in-edge. */
  method ScanPlace(A: array<int>, T: array<int>, inDegree: array<int>, n: nat, i: nat, ghost g: Graph)
    requires n <= inDegree.Length && g.Valid() && g.n == n && A != inDegree && T != inDegree
    requires HoldsMatrix(A[..], g)
    requires T.Length == n && i < n && InRange(g, T[..])
    requires forall v :: 0 <= v < n ==> inDegree[v] == InDegree(g, v, n) - Scanned(g, T[..], v, i)
    modifies inDegree
    ensures forall v :: 0 <= v < n ==> inDegree[v] == InDegree(g, v, n) - Scanned(g, T[..], v, i + 1)
  {
    ghost var t := T[..];
    assert T[i] == t[i];
    for j := 0 to n
      invariant forall v :: 0 <= v < n ==>
                  inDegree[v] == InDegree(g, v, n) - Scanned(g, t, v, if v < j then i + 1 else i)
    {
      CellHolds(A[..], g, T[i], j);
      if A[T[i] * n + j] == 1 {
        inDegree[j] := inDegree[j] - 1;
      }
    }
  }

  /** The first pass: the counters become the in-degrees. */
  method CountInDegrees(A: array<int>, inDegree: array<int>, n: nat, ghost g: Graph)
    requires n <= inDegree.Length && g.Valid() && g.n == n && A != inDegree
    requires HoldsMatrix(A[..], g)
    requires forall v :: 0 <= v < n ==> inDegree[v] == 0
    modifies inDegree
    ensures forall v :: 0 <= v < n ==> inDegree[v] == InDegree(g, v, n)
  {
    assert forall v :: 0 <= v < n ==> InDegree(g, v, 0) == 0;
    hide InDegree, HoldsMatrix;
    for i := 0 to n
      invariant forall v :: 0 <= v < n ==> inDegree[v] == InDegree(g, v, i)
    {
      CountRow(A, inDegree, n, i, g);
    }
  }

  /** The first i places of t pass the test. */
  predicate PassedTo(g: Graph, t: seq<int>, i: nat)
    requires g.Valid() && InRange(g, t) && i <= |t|
  {
    forall k :: 0 <= k < i ==> InDegree(g, t[k], g.n) == Scanned(g, t, t[k], k)
  }

  lemma NothingScanned(g: Graph, t: seq<int>)
    requires g.Valid() && InRange(g, t)
    ensures PassedTo(g, t, 0) && forall v: nat :: v < g.n ==> Scanned(g, t, v, 0) == 0
  {
  }

  lemma PassPlace(g: Graph, t: seq<int>, i: nat)
    requires g.Valid() && InRange(g, t) && i < |t| && PassedTo(g, t, i)
    ensures if InDegree(g, t[i], g.n) == Scanned(g, t, t[i], i) then PassedTo(g, t, i + 1) else !Accepts(g, t)
  {
    hide InDegree, Scanned;
  }

  lemma PassedAccepts(g: Graph, t: seq<int>)
    requires g.Valid() && InRange(g, t) && |t| == g.n && PassedTo(g, t, |t|)
    ensures Accepts(g, t)
  {
    hide InDegree, Scanned;
  }

  /** The second pass: T is scanned as long as the counter of the next vertex stands at zero. */
  method ScanOrder(A: array<int>, T: array<int>, inDegree: array<int>, n: nat, ghost g: Graph) returns (r: int)
    requires n <= inDegree.Length && g.Valid() && g.n == n && A != inDegree && T != inDegree
    requires HoldsMatrix(A[..], g)
    requires T.Length == n && InRange(g, T[..])
    requires forall v :: 0 <= v < n ==> inDegree[v] == InDegree(g, v, n)
    modifies inDegree
    ensures r == if Accepts(g, T[..]) then 1 else 0
  {
    hide InDegree, Scanned, HoldsMatrix, PassedTo, Accepts;
    ghost var cells, t := A[..], T[..];
    NothingScanned(g, t);
    for i := 0 to n
      invariant A[..] == cells && T[..] == t && PassedTo(g, t, i)
      invariant forall v :: 0 <= v < n ==> inDegree[v] == InDegree(g, v, n) - Scanned(g, t, v, i)
    {
      PassPlace(g, t, i);
      assert T[i] == t[i];
      if inDegree[T[i]] != 0 {
        return 0;
      }
      ScanPlace(A, T, inDegree, n, i, g);
    }
    PassedAccepts(g, t);
    return 1;
  }

  /** isTopologicalSortValid: a counter array filled by one pass over A and lowered by the scan of T.
      The ghost graph is the matrix that the flat array holds. */
  method IsTopologicalSortValid(A: array<int>, T: array<int>, n: nat, ghost g: Graph) returns (r: int)
    requires n <= 100 && g.Valid() && g.n == n
    requires HoldsMatrix(A[..], g)
    requires T.Length == n && InRange(g, T[..])
    ensures r == if Accepts(g, T[..]) then 1 else 0
  {
    hide HoldsMatrix, InDegree, Accepts;
    var inDegree := new int[100](_ => 0);
    CountInDegrees(A, inDegree, n, g);
    r := ScanOrder(A, T, inDegree, n, g);
  }
}
