/** gengraph.c: a random matrix whose edges go forward in a random order of the vertices. */
module GraphGenerator {
  import opened Counting
  import opened Graphs
  import opened Shuffle

  ghost function RowOf(a: array2<int>, i: nat): seq<int>
    requires i < a.Length0
    reads a
  {
    seq(a.Length1, j requires 0 <= j < a.Length1 reads a => a[i, j])
  }

  ghost function GraphOf(a: array2<int>): (g: Graph)
    requires a.Length0 == a.Length1
    reads a
    ensures g.Valid() && g.n == a.Length0
    ensures forall i, j :: 0 <= i < g.n && 0 <= j < g.n ==> g.rows[i][j] == a[i, j]
  {
    Graph(a.Length0, seq(a.Length0, i requires 0 <= i < a.Length0 reads a => RowOf(a, i)))
  }

  /** Cell (perm[p], perm[q]) is written: by the coin when p < q, 0 when p > q. */
  ghost predicate Cell(a: array2<int>, perm: seq<int>, coin: (nat, nat) -> bool, p: nat, q: nat)
    requires Permutation(perm, a.Length0) && a.Length0 == a.Length1 && p < a.Length0 && q < a.Length0
    reads a
  {
    a[perm[p], perm[q]] == if p < q && coin(p, q) then 1 else 0
  }

  /** Rows and columns of the first i vertices in PERM order are written, and so are their diagonal cells. */
  ghost predicate RowsDone(a: array2<int>, perm: seq<int>, coin: (nat, nat) -> bool, i: nat)
    requires Permutation(perm, a.Length0) && a.Length0 == a.Length1 && i <= a.Length0
    reads a
  {
    && (forall v :: 0 <= v < i ==> a[v, v] == 0)
    && forall p, q :: 0 <= p < |perm| && 0 <= q < |perm| && p != q && (p < i || q < i) ==> Cell(a, perm, coin, p, q)
  }

  /** The outer loop's body (gengraph.c:23-27). */
  method FillRow(a: array2<int>, perm: array<int>, i: nat, coin: (nat, nat) -> bool)
    requires a.Length0 == a.Length1 == perm.Length && Permutation(perm[..], perm.Length) && i < perm.Length
    requires RowsDone(a, perm[..], coin, i)
    modifies a
    ensures RowsDone(a, perm[..], coin, i + 1)
  {
    ghost var order, n := perm[..], perm.Length;
    assert forall p, q :: 0 <= p < n && 0 <= q < n && p != q ==> order[p] != order[q];
    a[i, i] := 0;
    forall p, q | 0 <= p < n && 0 <= q < n && p != q && (p < i || q < i)
      ensures Cell(a, order, coin, p, q)
    {
      assert old(Cell(a, order, coin, p, q));
      assert a[order[p], order[q]] == old(a[order[p], order[q]]);
    }
    for j := i + 1 to perm.Length
      invariant forall v :: 0 <= v <= i ==> a[v, v] == 0
      invariant forall p, q :: 0 <= p < n && 0 <= q < n && p != q && (p < i || q < i) ==> Cell(a, order, coin, p, q)
      invariant forall q :: i < q < j ==> Cell(a, order, coin, i, q) && Cell(a, order, coin, q, i)
    {
      assert perm[i] == order[i] && perm[j] == order[j];
      label before:
      a[perm[i], perm[j]] := if coin(i, j) then 1 else 0;
      a[perm[j], perm[i]] := 0;
      forall p, q | 0 <= p < n && 0 <= q < n && p != q && (p < i || q < i || (p == i && q < j) || (q == i && p < j))
        ensures Cell(a, order, coin, p, q)
      {
        assert old@before(Cell(a, order, coin, p, q));
        assert a[order[p], order[q]] == old@before(a[order[p], order[q]]);
      }
    }
  }

  /** For every outcome of rand(): all cells are written, the diagonal is 0, every edge goes forward
      in PERM, so the graph meets what the worker protocol asks for. */
  method Generate(n: nat, draws: seq<nat>, coin: (nat, nat) -> bool) returns (a: array2<int>, perm: array<int>)
    requires |draws| == n
    ensures a.Length0 == a.Length1 == n
    ensures forall i, j :: 0 <= i < n && 0 <= j < n ==> a[i, j] == 0 || a[i, j] == 1
    ensures forall i :: 0 <= i < n ==> a[i, i] == 0
    ensures perm[..] == Shuffled(n, draws, n)
    ensures forall p: nat, q: nat :: p < q < n ==> a[perm[p], perm[q]] == if coin(p, q) then 1 else 0
    ensures Ordered(GraphOf(a), perm[..]) && Acyclic(GraphOf(a))
  {
    a := new int[n, n];
    perm := Permute(n, draws);
    ghost var order := perm[..];
    assert forall p, q :: 0 <= p < n && 0 <= q < n && p != q ==> order[p] != order[q];
    for i := 0 to n
      invariant perm[..] == order && RowsDone(a, order, coin, i)
    {
      FillRow(a, perm, i, coin);
    }
    assert forall p, q :: 0 <= p < n && 0 <= q < n && p != q ==> Cell(a, order, coin, p, q);
    forall i, j | 0 <= i < n && 0 <= j < n
      ensures a[i, j] == 0 || a[i, j] == 1
    {
      if i != j {
        var p := PermutationHits(order, n, i);
        var q := PermutationHits(order, n, j);
        assert Cell(a, order, coin, p, q);
      }
    }
    forall p, q | 0 <= p < n && 0 <= q < n && GraphOf(a).Arc(order[p], order[q])
      ensures p < q
    {
      assert Cell(a, order, coin, p, q);
    }
    forall p: nat, q: nat | p < q < n
      ensures a[perm[p], perm[q]] == if coin(p, q) then 1 else 0
    {
      assert Cell(a, order, coin, p, q) && perm[p] == order[p] && perm[q] == order[q];
    }
    OrderedIsAcyclic(GraphOf(a), order);
  }
}
