/** When the protocol finishes, and what it has then produced. */
module TopoCompletion {
  import opened Counting
  import opened Graphs
  import opened TopoProtocol
  import opened TopoSafety
  import opened TopoChecker
  import opened TopoVerdict

  // ---------------------------------------------------------------- every run is bounded

  /** Steps a worker still has to take; the whole protocol is 2n + 6 steps long. */
  function Remaining(n: nat, w: Worker): int {
    match w
    case Wait(i) => n - i + n + 6
    case Write => n + 5
    case Load => n + 4
    case Store(_) => n + 3
    case Leave => n + 2
    case Signal(i) => n - i + 1
    case Done => 0
  }

  function AllRemaining(n: nat, pc: seq<Worker>): seq<int> {
    seq(|pc|, i requires 0 <= i < |pc| => Remaining(n, pc[i]))
  }

  function Measure(g: Graph, s: State): int {
    Sum(AllRemaining(g.n, s.pc)) + if s.boss.Collect? then g.n - s.boss.k + 1 else 0
  }

  /** Every step is progress: the measure falls by exactly one and never below zero. */
  lemma StepMeasure(g: Graph, s: State, a: nat)
    requires Shape(g, s) && Enabled(g, s, a)
    ensures Measure(g, Step(g, s, a)) == Measure(g, s) - 1
  {
    if a < g.n {
      var s' := Step(g, s, a);
      SumUpdate(AllRemaining(g.n, s.pc), a, Remaining(g.n, s'.pc[a]));
      assert AllRemaining(g.n, s'.pc) == AllRemaining(g.n, s.pc)[a := Remaining(g.n, s'.pc[a])];
    }
  }

  lemma MeasureNonNegative(g: Graph, s: State)
    requires Shape(g, s)
    ensures Measure(g, s) >= 0
  {
    SumBounds(AllRemaining(g.n, s.pc), 0);
  }

  lemma {:induction false} RunMeasure(g: Graph, r: seq<State>)
    requires Run(g, r)
    ensures Measure(g, r[|r| - 1]) == g.n * (2 * g.n + 6) + g.n + 1 - (|r| - 1)
  {
    if |r| == 1 {
      SumBounds(AllRemaining(g.n, r[0].pc), 2 * g.n + 6);
    } else {
      RunMeasure(g, r[..|r| - 1]);
      assert Follows(g, r[|r| - 2], r[|r| - 2 + 1]);
      var a: nat :| Enabled(g, r[|r| - 2], a) && r[|r| - 1] == Step(g, r[|r| - 2], a);
      StepMeasure(g, r[|r| - 2], a);
    }
  }

  // ---------------------------------------------------------------- no deadlock

  ghost predicate Stuck(g: Graph, s: State)
    requires Shape(g, s)
  {
    forall a: nat :: a <= g.n ==> !Enabled(g, s, a)
  }

  /** A worker that cannot step waits for an in-neighbour that cannot step either. */
  lemma BlockedByBlocked(g: Graph, s: State, j: nat) returns (u: nat)
    requires Inv(g, s) && Stuck(g, s) && j < g.n && !s.pc[j].Done?
    ensures g.Arc(u, j) && !s.pc[u].Done?
  {
    assert !Enabled(g, s, j);
    assert s.pc[j].i < g.n by {
      if s.mtx == 0 {
        var c :| 0 <= c < g.n && InSection(s.pc[c]);
        assert Enabled(g, s, c);
      }
    }
    var k := s.pc[j].i;
    assert k in g.Ins(j) && k !in ConsumedFrom(g, s, j);
    SubsetCount(ConsumedFrom(g, s, j), g.Ins(j));
    assert s.sync[j] >= 0 && s.sync[j] + |ConsumedFrom(g, s, j)| == |SentTo(g, s, j)|;
    assert SentTo(g, s, j) != g.Ins(j);
    u :| u in g.Ins(j) && u !in SentTo(g, s, j);
  }

  lemma {:induction false} BlockedWalk(g: Graph, s: State, j: nat, m: nat) returns (w: seq<nat>)
    requires Inv(g, s) && Stuck(g, s) && j < g.n && !s.pc[j].Done?
    ensures |w| == m + 1 && Walk(g, w) && w[m] == j && w[0] < g.n && !s.pc[w[0]].Done?
  {
    if m == 0 {
      w := [j];
    } else {
      var tail := BlockedWalk(g, s, j, m - 1);
      var u := BlockedByBlocked(g, s, tail[0]);
      w := [u] + tail;
      forall k | 0 <= k < |w| - 1
        ensures g.Arc(w[k], w[k + 1])
      {
        if k > 0 {
          assert g.Arc(tail[k - 1], tail[k - 1 + 1]);
        }
      }
    }
  }

  /** With an acyclic graph some actor can step until the boss has judged. */
  lemma NoDeadlock(g: Graph, s: State)
    requires Inv(g, s) && Acyclic(g) && Stuck(g, s)
    ensures s.boss.Judged?
  {
    if exists j :: 0 <= j < g.n && !s.pc[j].Done? {
      var j :| 0 <= j < g.n && !s.pc[j].Done?;
      var w := BlockedWalk(g, s, j, g.n);
      LongWalkCloses(g, w);
    }
    assert !Enabled(g, s, g.n);
    assert DoneSet(g, s) == Below(g.n);
    BelowCount(g.n);
  }

  // ---------------------------------------------------------------- what the boss finds

  /** After n notifications: no worker will step again, the mutex is free, T is a topological order. */
  lemma Complete(g: Graph, s: State)
    requires Inv(g, s) && Collected(g, s.boss) == g.n
    ensures forall j :: 0 <= j < g.n ==> s.pc[j].Done? && !Enabled(g, s, j)
    ensures s.mtx == 1 && s.idx == g.n
    ensures Permutation(s.t, g.n) && Ordered(g, s.t)
  {
    AllDone(g, s);
    assert PublishedSet(g, s) == Below(g.n);
    BelowCount(g.n);
    DistinctCount(s.t[..s.idx]);
    assert s.t[..s.idx] == s.t;
    forall k | 0 <= k < g.n
      ensures 0 <= s.t[k] < g.n
    {
      assert s.t[k] in Members(s.t);
    }
    forall p, q | 0 <= p < g.n && 0 <= q < g.n && g.Arc(s.t[p], s.t[q])
      ensures p < q
    {
      assert s.t[p] in s.t[..q];
      var k :| 0 <= k < q && s.t[k] == s.t[p];
    }
  }

  /** The verdict on a finished run depends on the diagonal alone, which the workers skip. */
  lemma VerdictOnCompletion(g: Graph, s: State)
    requires Inv(g, s) && Collected(g, s.boss) == g.n
    ensures Accepts(g, s.t) <==> forall v :: 0 <= v < g.n ==> g.rows[v][v] != 1
  {
    Complete(g, s);
    CheckerDecidesOrder(g, s.t);
    if Accepts(g, s.t) {
      forall v: nat | v < g.n
        ensures g.rows[v][v] != 1
      {
        var p := PermutationHits(s.t, g.n, v);
      }
    }
  }

  /** In terms of the matrix: a finished run has found a permutation in which every 1 off the diagonal goes
      forward, the matrix has no cycle, and the verdict is that the diagonal has no 1. */
  lemma FinishedCells(g: Graph, r: seq<State>)
    requires Run(g, r) && g.Valid() && r[|r| - 1].boss.Judged?
    ensures var t := r[|r| - 1].t;
            && Permutation(t, g.n)
            && (forall p, q :: 0 <= p < g.n && 0 <= q < g.n && p != q && g.rows[t[p]][t[q]] == 1 ==> p < q)
    ensures forall w :: !CellCycle(g, w)
    ensures r[|r| - 1].boss.ok <==> forall v :: 0 <= v < g.n ==> g.rows[v][v] != 1
  {
    FinishesIffAcyclic(g, r);
    OrderedCells(g, r[|r| - 1].t);
    AcyclicCells(g);
    hide Run, Ordered, Acyclic;
  }

  /** The boss finishes exactly on acyclic graphs, after the same number of steps under every schedule,
      and then judges the order valid exactly when the diagonal is clear. */
  lemma FinishesIffAcyclic(g: Graph, r: seq<State>)
    requires Run(g, r)
    ensures Shape(g, r[|r| - 1]) && |r| - 1 <= g.n * (2 * g.n + 6) + g.n + 1
    ensures Stuck(g, r[|r| - 1]) ==> (r[|r| - 1].boss.Judged? <==> Acyclic(g))
    ensures r[|r| - 1].boss.Judged? ==>
              && Acyclic(g) && Permutation(r[|r| - 1].t, g.n) && Ordered(g, r[|r| - 1].t)
              && |r| - 1 == g.n * (2 * g.n + 6) + g.n + 1
              && (r[|r| - 1].boss.ok <==> forall v :: 0 <= v < g.n ==> g.rows[v][v] != 1)
  {
    var s := r[|r| - 1];
    RunInv(g, r);
    RunMeasure(g, r);
    MeasureNonNegative(g, s);
    if s.boss.Judged? {
      Complete(g, s);
      VerdictOnCompletion(g, s);
      OrderedIsAcyclic(g, s.t);
      SumBounds(AllRemaining(g.n, s.pc), 0);
    } else if Stuck(g, s) && Acyclic(g) {
      NoDeadlock(g, s);
    }
  }
}
