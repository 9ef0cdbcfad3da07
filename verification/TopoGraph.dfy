/** The directed graph that the boss reads from graph.txt, one row of 0/1 entries for each vertex. */
module Graphs {
  import opened Counting

  datatype Graph = Graph(n: nat, rows: seq<seq<int>>) {
    predicate Valid() {
      |rows| == n && forall i :: 0 <= i < n ==> |rows[i]| == n
    }

    /** The test `A[i * n + j] == 1`. */
    predicate Edge(i: nat, j: nat)
      requires Valid() && i < n && j < n
    {
      rows[i][j] == 1
    }

    /** The edges a worker acts on: the diagonal is skipped by `i != id`. */
    predicate Arc(i: nat, j: nat)
      requires Valid()
    {
      i < n && j < n && i != j && Edge(i, j)
    }

    /** Vertices with an arc into v. */
    ghost function Ins(v: nat): set<nat>
      requires Valid()
    {
      set u: nat | u in Below(n) && Arc(u, v)
    }
  }

  /** A walk along arcs that returns to its first vertex. */
  ghost predicate ClosedWalk(g: Graph, w: seq<nat>)
    requires g.Valid()
  {
    |w| >= 2 && w[0] == w[|w| - 1] && Walk(g, w)
  }

  ghost predicate Walk(g: Graph, w: seq<nat>)
    requires g.Valid()
  {
    forall k :: 0 <= k < |w| - 1 ==> g.Arc(w[k], w[k + 1])
  }

  ghost predicate Acyclic(g: Graph)
    requires g.Valid()
  {
    forall w :: !ClosedWalk(g, w)
  }

  /** Every arc goes from an earlier to a later place of t. */
  ghost predicate Ordered(g: Graph, t: seq<int>)
    requires g.Valid() && Permutation(t, g.n)
  {
    forall p, q :: 0 <= p < g.n && 0 <= q < g.n && g.Arc(t[p], t[q]) ==> p < q
  }

  lemma {:induction false} WalkClimbs(g: Graph, t: seq<int>, w: seq<nat>) returns (first: nat, last: nat)
    requires g.Valid() && Permutation(t, g.n) && Ordered(g, t)
    requires |w| >= 2 && Walk(g, w)
    ensures first < last < g.n && t[first] == w[0] && t[last] == w[|w| - 1]
  {
    var m := |w| - 1;
    assert g.Arc(w[m - 1], w[m - 1 + 1]);
    last := PermutationHits(t, g.n, w[m]);
    if m == 1 {
      first := PermutationHits(t, g.n, w[0]);
    } else {
      var mid;
      first, mid := WalkClimbs(g, t, w[..m]);
      assert g.Arc(t[mid], t[last]);
    }
  }

  /** Only an acyclic graph has a topological order. */
  lemma OrderedIsAcyclic(g: Graph, t: seq<int>)
    requires g.Valid() && Permutation(t, g.n) && Ordered(g, t)
    ensures Acyclic(g)
  {
    forall w | ClosedWalk(g, w)
      ensures false
    {
      var first, last := WalkClimbs(g, t, w);
    }
  }

  /** A walk longer than the vertex set closes on itself. */
  lemma LongWalkCloses(g: Graph, w: seq<nat>)
    requires g.Valid() && Walk(g, w) && |w| > g.n && |w| >= 2
    ensures !Acyclic(g)
  {
    forall k | 0 <= k < |w|
      ensures w[k] < g.n
    {
      if k < |w| - 1 {
        assert g.Arc(w[k], w[k + 1]);
      } else {
        assert g.Arc(w[k - 1], w[k - 1 + 1]);
      }
    }
    var p, q := Pigeonhole(w, g.n);
    var c := w[p..q + 1];
    forall k | 0 <= k < |c| - 1
      ensures g.Arc(c[k], c[k + 1])
    {
      assert g.Arc(w[p + k], w[p + k + 1]);
    }
    assert ClosedWalk(g, c);
  }

  // ---------------------------------------------------------------- in terms of the matrix

  /** A cycle in the matrix: no cell of the diagonal, and back at the first vertex. */
  ghost predicate CellCycle(g: Graph, w: seq<nat>)
    requires g.Valid()
  {
    && |w| >= 2 && w[0] == w[|w| - 1]
    && (forall k :: 0 <= k < |w| ==> w[k] < g.n)
    && forall k, m :: 0 <= k && m == k + 1 && m < |w| ==> w[k] != w[m] && g.rows[w[k]][w[m]] == 1
  }

  lemma AcyclicCells(g: Graph)
    requires g.Valid()
    ensures Acyclic(g) <==> forall w :: !CellCycle(g, w)
  {
    forall w: seq<nat>
      ensures ClosedWalk(g, w) <==> CellCycle(g, w)
    {
      if ClosedWalk(g, w) {
        forall k | 0 <= k < |w|
          ensures w[k] < g.n
        {
          if k < |w| - 1 {
            assert g.Arc(w[k], w[k + 1]);
          } else {
            assert g.Arc(w[k - 1], w[k - 1 + 1]);
          }
        }
        forall k, m | 0 <= k && m == k + 1 && m < |w|
          ensures w[k] != w[m] && g.rows[w[k]][w[m]] == 1
        {
          assert g.Arc(w[k], w[k + 1]);
        }
      }
      if CellCycle(g, w) {
        forall k | 0 <= k < |w| - 1
          ensures g.Arc(w[k], w[k + 1])
        {
          var m := k + 1;
          assert w[k] != w[m];
        }
      }
    }
  }

  lemma OrderedCells(g: Graph, t: seq<int>)
    requires g.Valid() && Permutation(t, g.n)
    ensures Ordered(g, t) <==>
            forall p, q :: 0 <= p < g.n && 0 <= q < g.n && p != q && g.rows[t[p]][t[q]] == 1 ==> p < q
  {
    if Ordered(g, t) {
      forall p, q | 0 <= p < g.n && 0 <= q < g.n && p != q && g.rows[t[p]][t[q]] == 1
        ensures p < q
      {
        assert g.Arc(t[p], t[q]);
      }
    }
  }
}
