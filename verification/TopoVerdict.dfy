/** What boss.c's in-degree check counts, and the verdict it comes to. */
module TopoVerdict {
  import opened Graphs

  /** Edges into v from any vertex, and from the first i entries of t: what the array inDegree counts. */
  function InDegree(g: Graph, v: nat, m: nat): nat
    requires g.Valid() && v < g.n && m <= g.n
  {
    if m == 0 then 0 else InDegree(g, v, m - 1) + if g.Edge(m - 1, v) then 1 else 0
  }

  function Scanned(g: Graph, t: seq<int>, v: nat, i: nat): nat
    requires g.Valid() && v < g.n && i <= |t| && InRange(g, t)
  {
    if i == 0 then 0 else Scanned(g, t, v, i - 1) + if g.Edge(t[i - 1], v) then 1 else 0
  }

  predicate InRange(g: Graph, t: seq<int>) {
    forall k :: 0 <= k < |t| ==> 0 <= t[k] < g.n
  }

  /** The checker's verdict on any in-range T: each vertex is scanned when its counter stands at zero. */
  predicate Accepts(g: Graph, t: seq<int>)
    requires g.Valid()
  {
    && |t| == g.n && InRange(g, t)
    && forall i :: 0 <= i < g.n ==> InDegree(g, t[i], g.n) == Scanned(g, t, t[i], i)
  }
}
