/** The protocol's invariant holds in every reachable state of every interleaving. */
module TopoSafety {
  import opened Counting
  import opened Graphs
  import opened TopoProtocol

  lemma InitInv(g: Graph, s: State)
    requires Init(g, s)
    ensures Inv(g, s)
  {
    forall j | 0 <= j < g.n
      ensures ConsumedFrom(g, s, j) == {} && SentTo(g, s, j) == {}
    {
    }
    assert PublishedSet(g, s) == {};
    assert DoneSet(g, s) == {};
  }

  lemma RoomLeft(g: Graph, s: State, a: nat)
    requires Inv(g, s) && a < g.n && !Published(s.pc[a])
    ensures s.idx < g.n
  {
    BelowCount(g.n);
    DistinctCount(s.t[..s.idx]);
    SubsetCount(PublishedSet(g, s), Below(g.n) - {a});
  }

  lemma StepShape(g: Graph, s: State, a: nat)
    requires Inv(g, s) && Enabled(g, s, a)
    ensures Shape(g, Step(g, s, a))
  {
    if a < g.n && s.pc[a].Wait? {
      RoomLeft(g, s, a);
    }
    if a < g.n && s.pc[a].Store? {
      assert InSection(s.pc[a]);
    }
  }

  /** One step takes at most one signal, and only the actor's own. */
  lemma StepConsumed(g: Graph, s: State, a: nat, j: nat)
    requires Shape(g, s) && Enabled(g, s, a) && Shape(g, Step(g, s, a)) && j < g.n
    ensures ConsumedFrom(g, Step(g, s, a), j)
         == ConsumedFrom(g, s, j) + if j == a && s.pc[a].Wait? && g.Arc(s.pc[a].i, a) then {s.pc[a].i} else {}
  {
    var s' := Step(g, s, a);
    if j != a {
      assert s'.pc[j] == s.pc[j];
    }
  }

  /** One step sends at most one signal, down one of the actor's arcs. */
  lemma StepSent(g: Graph, s: State, a: nat, j: nat)
    requires Shape(g, s) && Enabled(g, s, a) && Shape(g, Step(g, s, a)) && j < g.n
    ensures SentTo(g, Step(g, s, a), j)
         == SentTo(g, s, j) + if a < g.n && s.pc[a] == Signal(j) && g.Arc(a, j) then {a} else {}
  {
    var s' := Step(g, s, a);
    forall u: nat | u in g.Ins(j)
      ensures Sent(s'.pc[u], j) <==> Sent(s.pc[u], j) || (u == a && s.pc[a] == Signal(j))
    {
      if u != a {
        assert s'.pc[u] == s.pc[u];
      }
    }
  }

  lemma StepSync(g: Graph, s: State, a: nat, j: nat)
    requires Shape(g, s) && Enabled(g, s, a) && Shape(g, Step(g, s, a)) && j < g.n
    ensures Step(g, s, a).sync[j] == s.sync[j]
              - (if j == a && s.pc[a].Wait? && g.Arc(s.pc[a].i, a) then 1 else 0)
              + (if a < g.n && s.pc[a] == Signal(j) && g.Arc(a, j) then 1 else 0)
    ensures j == a && s.pc[a].Wait? && g.Arc(s.pc[a].i, a) ==> s.sync[j] > 0
  {
  }

  lemma StepBalanced(g: Graph, s: State, a: nat, j: nat)
    requires Shape(g, s) && Balanced(g, s) && Enabled(g, s, a) && Shape(g, Step(g, s, a)) && j < g.n
    ensures Step(g, s, a).sync[j] >= 0
    ensures Step(g, s, a).sync[j] + |ConsumedFrom(g, Step(g, s, a), j)| == |SentTo(g, Step(g, s, a), j)|
  {
    StepConsumed(g, s, a, j);
    StepSent(g, s, a, j);
    StepSync(g, s, a, j);
    assert s.sync[j] >= 0 && s.sync[j] + |ConsumedFrom(g, s, j)| == |SentTo(g, s, j)|;
  }

  lemma StepExclusive(g: Graph, s: State, a: nat)
    requires Shape(g, s) && Exclusive(g, s) && Enabled(g, s, a) && Shape(g, Step(g, s, a))
    ensures Exclusive(g, Step(g, s, a))
  {
    var s' := Step(g, s, a);
    forall j | 0 <= j < g.n
      ensures j != a ==> InSection(s'.pc[j]) == InSection(s.pc[j])
    {
      if j != a {
        assert s'.pc[j] == s.pc[j];
      }
    }
    if a < g.n && s.pc[a] == Wait(g.n) {
      assert InSection(s'.pc[a]) && s'.mtx == 0;
    } else if a < g.n && s.pc[a].Leave? {
      assert InSection(s.pc[a]) && !InSection(s'.pc[a]) && s'.mtx == 1;
    } else {
      assert a < g.n ==> InSection(s'.pc[a]) == InSection(s.pc[a]);
      assert s'.mtx == s.mtx;
      if s.mtx == 0 {
        var j :| 0 <= j < g.n && InSection(s.pc[j]);
        assert InSection(s'.pc[j]);
      }
    }
  }

  lemma StepPublished(g: Graph, s: State, a: nat)
    requires Shape(g, s) && Enabled(g, s, a) && Shape(g, Step(g, s, a))
    ensures PublishedSet(g, Step(g, s, a))
         == PublishedSet(g, s) + if a < g.n && s.pc[a].Store? then {a} else {}
  {
    var s' := Step(g, s, a);
    forall u: nat | u in Below(g.n)
      ensures Published(s'.pc[u]) <==> Published(s.pc[u]) || (u == a && s.pc[a].Store?)
    {
      if u != a {
        assert s'.pc[u] == s.pc[u];
      }
    }
  }

  /** The store makes the new entry of T count. */
  lemma StoreListed(g: Graph, s: State, a: nat)
    requires Shape(g, s) && Listed(g, s) && Pending(g, s) && a < g.n && s.pc[a].Store? && Shape(g, Step(g, s, a))
    ensures Listed(g, Step(g, s, a))
  {
    var s' := Step(g, s, a);
    var front := s.t[..s.idx];
    StepPublished(g, s, a);
    assert a !in Members(front);
    assert s'.t[..s'.idx] == front + [a];
    assert Members(front + [a]) == Members(front) + {a};
  }

  lemma OtherListed(g: Graph, s: State, a: nat)
    requires Shape(g, s) && Listed(g, s) && Enabled(g, s, a) && Shape(g, Step(g, s, a))
    requires a < g.n ==> !s.pc[a].Store?
    ensures Listed(g, Step(g, s, a)) && Step(g, s, a).idx == s.idx && Step(g, s, a).t[..s.idx] == s.t[..s.idx]
  {
    StepPublished(g, s, a);
  }

  lemma StepPending(g: Graph, s: State, a: nat)
    requires Shape(g, s) && Pending(g, s) && Exclusive(g, s) && Enabled(g, s, a) && Shape(g, Step(g, s, a))
    ensures Pending(g, Step(g, s, a))
  {
    var s' := Step(g, s, a);
    forall j | 0 <= j < g.n && (s'.pc[j].Load? || s'.pc[j].Store?)
      ensures 0 <= s'.idx < g.n && s'.t[s'.idx] == j && (s'.pc[j].Store? ==> s'.pc[j].r == s'.idx)
    {
      assert InSection(s.pc[j]);
      if j != a {
        assert s'.pc[j] == s.pc[j];
        assert a < g.n ==> !InSection(s.pc[a]);
      }
    }
  }

  /** A worker past its P's has been signalled by every in-neighbour. */
  lemma AllPredecessorsListed(g: Graph, s: State, a: nat)
    requires Inv(g, s) && a < g.n && InSection(s.pc[a])
    ensures forall u: nat :: g.Arc(u, a) ==> u in s.t[..s.idx]
  {
    assert ConsumedFrom(g, s, a) == g.Ins(a);
    SubsetCount(SentTo(g, s, a), g.Ins(a));
    assert s.sync[a] >= 0 && s.sync[a] + |ConsumedFrom(g, s, a)| == |SentTo(g, s, a)|;
    forall u: nat | g.Arc(u, a)
      ensures u in s.t[..s.idx]
    {
      assert u in g.Ins(a);
      assert Sent(s.pc[u], a);
      assert u in PublishedSet(g, s) && u in Members(s.t[..s.idx]);
    }
  }

  lemma StepListed(g: Graph, s: State, a: nat)
    requires Inv(g, s) && Enabled(g, s, a)
    ensures Shape(g, Step(g, s, a)) && Listed(g, Step(g, s, a))
    ensures s.idx <= g.n && Step(g, s, a).t[..s.idx] == s.t[..s.idx]
    ensures Step(g, s, a).idx == s.idx
         || (a < g.n && InSection(s.pc[a]) && Step(g, s, a).idx == s.idx + 1 && Step(g, s, a).t[s.idx] == a)
  {
    StepShape(g, s, a);
    if a < g.n && s.pc[a].Store? {
      StoreListed(g, s, a);
    } else {
      OtherListed(g, s, a);
    }
  }

  lemma StepSafe(g: Graph, s: State, a: nat)
    requires Inv(g, s) && Enabled(g, s, a)
    ensures Shape(g, Step(g, s, a)) && 0 <= Step(g, s, a).idx <= g.n && Safe(g, Step(g, s, a))
  {
    StepListed(g, s, a);
    var s' := Step(g, s, a);
    if a < g.n && InSection(s.pc[a]) {
      AllPredecessorsListed(g, s, a);
    }
    ExtendSafe(g, s, s', a);
  }

  /** T grows only at its end, by a vertex whose in-neighbours are listed. */
  lemma ExtendSafe(g: Graph, s: State, s': State, a: nat)
    requires Shape(g, s) && Shape(g, s') && 0 <= s.idx <= s'.idx <= g.n && s'.t[..s.idx] == s.t[..s.idx]
    requires Safe(g, s)
    requires s'.idx == s.idx
          || (s'.idx == s.idx + 1 && s'.t[s.idx] == a && forall u: nat :: g.Arc(u, a) ==> u in s.t[..s.idx])
    ensures Safe(g, s')
  {
    forall p: nat, u: nat | p < s'.idx && 0 <= s'.t[p] && g.Arc(u, s'.t[p])
      ensures u in s'.t[..p]
    {
      assert s'.t[..p] == s'.t[..s.idx][..p] == s.t[..s.idx][..p] == s.t[..p];
      if p < s.idx {
        assert s'.t[p] == s'.t[..s.idx][p] == s.t[..s.idx][p] == s.t[p];
      }
    }
  }

  lemma StepDone(g: Graph, s: State, a: nat)
    requires Shape(g, s) && Enabled(g, s, a) && Shape(g, Step(g, s, a))
    ensures DoneSet(g, Step(g, s, a)) == DoneSet(g, s) + if a < g.n && s.pc[a] == Signal(g.n) then {a} else {}
  {
    var s' := Step(g, s, a);
    forall u: nat | u in Below(g.n)
      ensures s'.pc[u].Done? <==> s.pc[u].Done? || (u == a && s.pc[a] == Signal(g.n))
    {
      if u != a {
        assert s'.pc[u] == s.pc[u];
      }
    }
  }

  lemma StepNotified(g: Graph, s: State, a: nat)
    requires Inv(g, s) && Enabled(g, s, a)
    ensures Shape(g, Step(g, s, a)) && Notified(g, Step(g, s, a))
  {
    StepShape(g, s, a);
    StepDone(g, s, a);
    if a < g.n {
      if s.boss.Judged? {
        AllDone(g, s);
      }
      assert a in DoneSet(g, s) <==> s.pc[a].Done?;
    }
  }

  /** Once the boss has n notifications every worker has finished. */
  lemma AllDone(g: Graph, s: State)
    requires Inv(g, s) && Collected(g, s.boss) == g.n
    ensures forall j :: 0 <= j < g.n ==> s.pc[j].Done?
  {
    BelowCount(g.n);
    SubsetCount(DoneSet(g, s), Below(g.n));
    forall j | 0 <= j < g.n
      ensures s.pc[j].Done?
    {
      assert j in Below(g.n);
    }
  }

  lemma StepInv(g: Graph, s: State, a: nat)
    requires Inv(g, s) && Enabled(g, s, a)
    ensures Inv(g, Step(g, s, a))
  {
    StepShape(g, s, a);
    forall j | 0 <= j < g.n
      ensures Step(g, s, a).sync[j] >= 0
      ensures Step(g, s, a).sync[j] + |ConsumedFrom(g, Step(g, s, a), j)| == |SentTo(g, Step(g, s, a), j)|
    {
      StepBalanced(g, s, a, j);
    }
    StepExclusive(g, s, a);
    StepListed(g, s, a);
    StepPending(g, s, a);
    StepSafe(g, s, a);
    StepNotified(g, s, a);
  }

  // ---------------------------------------------------------------- whole runs

  /** A run: the states passed through under some schedule of the n + 1 actors. */
  ghost predicate Run(g: Graph, r: seq<State>) {
    && |r| > 0 && Init(g, r[0])
    && forall k :: 0 <= k < |r| - 1 ==> Follows(g, r[k], r[k + 1])
  }

  ghost predicate Follows(g: Graph, s: State, s': State) {
    Shape(g, s) && exists a: nat :: Enabled(g, s, a) && s' == Step(g, s, a)
  }

  lemma {:induction false} RunInv(g: Graph, r: seq<State>)
    requires Run(g, r)
    ensures Inv(g, r[|r| - 1])
  {
    if |r| == 1 {
      InitInv(g, r[0]);
    } else {
      var front := r[..|r| - 1];
      RunInv(g, front);
      assert Follows(g, r[|r| - 2], r[|r| - 2 + 1]);
      var a: nat :| Enabled(g, r[|r| - 2], a) && r[|r| - 1] == Step(g, r[|r| - 2], a);
      StepInv(g, r[|r| - 2], a);
    }
  }

  /** Over every interleaving: a vertex is in T only if all its in-neighbours are at smaller indices. */
  lemma TopologicalSafety(g: Graph, r: seq<State>, k: nat, p: nat, u: nat)
    requires Run(g, r) && k < |r|
    requires p < r[k].idx && g.Valid()
    ensures r[k].idx <= |r[k].t| == g.n && 0 <= r[k].t[p] < g.n
    ensures u < g.n && u != r[k].t[p] && g.rows[u][r[k].t[p]] == 1 ==> exists q :: 0 <= q < p && r[k].t[q] == u
  {
    RunInv(g, r[..k + 1]);
    assert r[k].t[p] in Members(r[k].t[..r[k].idx]);
    assert u < g.n && u != r[k].t[p] && g.rows[u][r[k].t[p]] == 1 ==> g.Arc(u, r[k].t[p]);
  }
}
