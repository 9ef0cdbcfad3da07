/** The tree sum never deadlocks and every run is bounded: it ends with the total or with an abort. */
module TreeSumProgress {
  import opened Counting
  import opened ThreadMutex
  import opened Trees
  import opened TreeSum

  // ---------------------------------------------------------------- the two mutexes

  predicate HoldsBarrierMutex(w: Thread) { w.Count? || w.Leave? }

  predicate HoldsMutex(w: Thread) { w.Clear? || w.Add? || (AtMutex(w) && Inside(w.c)) }

  predicate MainHolds(m: Main) { m.Read? || ((m.Lock? || m.Unlock?) && Inside(m.c)) }

  ghost function BarrierHolders(t: Tree, s: State): set<nat>
    requires Shape(t, s)
  {
    set x: nat | x in Below(t.n) && HoldsBarrierMutex(s.pc[x])
  }

  /** Threads, and main as number n, between their P and V on the mutex. */
  ghost function Holders(t: Tree, s: State): set<nat>
    requires Shape(t, s)
  {
    (set x: nat | x in Below(t.n) && HoldsMutex(s.pc[x])) + if MainHolds(s.main) then {t.n} else {}
  }

  ghost predicate Exclusive(t: Tree, s: State)
    requires Shape(t, s)
  {
    && s.bmtx >= 0 && s.bmtx + |BarrierHolders(t, s)| == 1
    && s.mutex.sem >= 0 && s.mutex.sem + |Holders(t, s)| == 1
  }

  lemma InitExclusive(t: Tree, s: State)
    requires Init(t, s)
    ensures Exclusive(t, s)
  {
    assert BarrierHolders(t, s) == {};
    assert Holders(t, s) == {};
  }

  /** How a step moves the two mutexes and its own thread's holding of them. */
  lemma MutexMoves(t: Tree, s: State, a: nat)
    requires Shape(t, s) && Enabled(t, s, a)
    ensures |Step(t, s, a).pc| == t.n
    ensures a < t.n ==>
              && Step(t, s, a).main == s.main
              && Step(t, s, a).bmtx - s.bmtx
                 == Holding(HoldsBarrierMutex(s.pc[a])) - Holding(HoldsBarrierMutex(Step(t, s, a).pc[a]))
              && Step(t, s, a).mutex.sem - s.mutex.sem
                 == Holding(HoldsMutex(s.pc[a])) - Holding(HoldsMutex(Step(t, s, a).pc[a]))
    ensures a == t.n ==>
              && Step(t, s, a).bmtx == s.bmtx
              && Step(t, s, a).mutex.sem - s.mutex.sem
                 == Holding(MainHolds(s.main)) - Holding(MainHolds(Step(t, s, a).main))
    ensures Step(t, s, a).bmtx >= s.bmtx || s.bmtx > 0
    ensures Step(t, s, a).mutex.sem >= s.mutex.sem || s.mutex.sem > 0
  {
  }

  function Holding(holds: bool): int { if holds then 1 else 0 }

  lemma OthersHold(t: Tree, s: State, a: nat, x: nat)
    requires Shape(t, s) && Enabled(t, s, a) && Joined(t, s) && x < t.n && x != a
    ensures |Step(t, s, a).pc| == t.n
    ensures HoldsBarrierMutex(Step(t, s, a).pc[x]) == HoldsBarrierMutex(s.pc[x])
    ensures HoldsMutex(Step(t, s, a).pc[x]) == HoldsMutex(s.pc[x])
  {
    hide Step, Enabled, Shape;
    OthersStill(t, s, a, x);
  }

  /** One actor at most enters or leaves a section, and the semaphore counts it. */
  lemma SectionCount(h: set<nat>, h': set<nat>, a: nat, v: int, v': int)
    requires h - {a} == h' - {a} && v + |h| == 1
    requires v' - v == Holding(a in h) - Holding(a in h')
    ensures v' + |h'| == 1
  {
    assert h == (h - {a}) + if a in h then {a} else {};
    assert h' == (h' - {a}) + if a in h' then {a} else {};
  }

  lemma StepBarrierMutex(t: Tree, s: State, a: nat)
    requires Shape(t, s) && Joined(t, s) && Enabled(t, s, a) && Shape(t, Step(t, s, a))
    requires s.bmtx >= 0 && s.bmtx + |BarrierHolders(t, s)| == 1
    ensures Step(t, s, a).bmtx >= 0 && Step(t, s, a).bmtx + |BarrierHolders(t, Step(t, s, a))| == 1
  {
    hide Joined, PcOk, HoldsBarrierMutex, HoldsMutex, MainHolds, Step;
    MutexMoves(t, s, a);
    var s' := Step(t, s, a);
    forall x: nat | x < t.n && x != a
      ensures HoldsBarrierMutex(s'.pc[x]) == HoldsBarrierMutex(s.pc[x])
    {
      OthersHold(t, s, a, x);
    }
    assert a <= t.n;
    hide Enabled;
    SectionCount(BarrierHolders(t, s), BarrierHolders(t, s'), a, s.bmtx, s'.bmtx);
  }

  lemma HoldersFrame(t: Tree, s: State, s': State, a: nat)
    requires Shape(t, s) && Shape(t, s') && a <= t.n && (a < t.n ==> s'.main == s.main)
    requires forall x: nat :: x < t.n && x != a ==> HoldsMutex(s'.pc[x]) == HoldsMutex(s.pc[x])
    ensures Holders(t, s) - {a} == Holders(t, s') - {a}
    ensures a in Holders(t, s) <==> if a < t.n then HoldsMutex(s.pc[a]) else MainHolds(s.main)
    ensures a in Holders(t, s') <==> if a < t.n then HoldsMutex(s'.pc[a]) else MainHolds(s'.main)
  {
    hide PcOk, HoldsMutex, MainHolds;
  }

  lemma StepMutex(t: Tree, s: State, a: nat)
    requires Shape(t, s) && Joined(t, s) && Enabled(t, s, a) && Shape(t, Step(t, s, a))
    requires s.mutex.sem >= 0 && s.mutex.sem + |Holders(t, s)| == 1
    ensures Step(t, s, a).mutex.sem >= 0 && Step(t, s, a).mutex.sem + |Holders(t, Step(t, s, a))| == 1
  {
    hide Joined, PcOk, HoldsBarrierMutex, HoldsMutex, MainHolds, Step, Holders;
    MutexMoves(t, s, a);
    assert a <= t.n;
    hide Enabled;
    var s' := Step(t, s, a);
    forall x: nat | x < t.n && x != a
      ensures HoldsMutex(s'.pc[x]) == HoldsMutex(s.pc[x])
    {
      OthersHold(t, s, a, x);
    }
    HoldersFrame(t, s, s', a);
    SectionCount(Holders(t, s), Holders(t, s'), a, s.mutex.sem, s'.mutex.sem);
  }

  ghost predicate Inv(t: Tree, s: State) {
    Safe(t, s) && Exclusive(t, s)
  }

  lemma StepInv(t: Tree, s: State, a: nat)
    requires Inv(t, s) && Enabled(t, s, a)
    ensures Inv(t, Step(t, s, a))
  {
    hide Step, Enabled, Sums, Barriers, BarrierHolders, Holders;
    StepSafe(t, s, a);
    StepBarrierMutex(t, s, a);
    StepMutex(t, s, a);
  }

  lemma {:induction false} RunInv(t: Tree, r: seq<State>)
    requires Run(t, r)
    ensures Inv(t, r[|r| - 1])
  {
    hide Safe, Exclusive, Init, Step, Enabled;
    if |r| == 1 {
      InitSafe(t, r[0]);
      InitExclusive(t, r[0]);
    } else {
      RunInv(t, r[..|r| - 1]);
      assert Follows(t, r[|r| - 2], r[|r| - 2 + 1]);
      var a: nat :| Enabled(t, r[|r| - 2], a) && r[|r| - 1] == Step(t, r[|r| - 2], a);
      StepInv(t, r[|r| - 2], a);
    }
  }

  /** At most one thread at a time is in a section of either mutex. */
  lemma MutualExclusion(t: Tree, r: seq<State>, x: nat, y: nat)
    requires Run(t, r) && x < t.n && y < t.n
    ensures var s := r[|r| - 1];
            && |s.pc| == t.n
            && (HoldsBarrierMutex(s.pc[x]) && HoldsBarrierMutex(s.pc[y]) ==> x == y)
            && (HoldsMutex(s.pc[x]) && HoldsMutex(s.pc[y]) ==> x == y && !MainHolds(s.main))
  {
    RunInv(t, r);
    hide Barriers, Sums, Joined, PcOk, Run, BarrierHolders, Holders;
    SectionsExclude(t, r[|r| - 1], x, y);
  }

  lemma SectionsExclude(t: Tree, s: State, x: nat, y: nat)
    requires Shape(t, s) && x < t.n && y < t.n && |BarrierHolders(t, s)| <= 1 && |Holders(t, s)| <= 1
    ensures HoldsBarrierMutex(s.pc[x]) && HoldsBarrierMutex(s.pc[y]) ==> x == y
    ensures HoldsMutex(s.pc[x]) && HoldsMutex(s.pc[y]) ==> x == y && !MainHolds(s.main)
  {
    hide PcOk;
    assert MainHolds(s.main) ==> t.n in Holders(t, s);
    if HoldsBarrierMutex(s.pc[x]) {
      OneHolder(BarrierHolders(t, s), x);
      assert HoldsBarrierMutex(s.pc[y]) ==> y in BarrierHolders(t, s);
    }
    if HoldsMutex(s.pc[x]) {
      OneHolder(Holders(t, s), x);
      assert HoldsMutex(s.pc[y]) ==> y in Holders(t, s);
    }
  }

  lemma OneHolder(h: set<nat>, x: nat)
    requires |h| <= 1 && x in h
    ensures forall y :: y in h ==> y == x
  {
    SubsetCount({x}, h);
  }

  // ---------------------------------------------------------------- no deadlock

  /** Waits for the mutex before printing its partial sum: all its barriers are behind it. */
  predicate AtPrint(w: Thread) { w == Print(Take) }

  /** Nobody can step but threads of `hold`, which wait to print. */
  ghost predicate StuckBut(t: Tree, s: State, hold: set<nat>)
    requires Shape(t, s)
  {
    forall a: nat :: a <= t.n && Enabled(t, s, a) ==> a < t.n && a in hold && AtPrint(s.pc[a])
  }

  ghost predicate Stuck(t: Tree, s: State)
    requires Shape(t, s)
  {
    forall a: nat :: a <= t.n ==> !Enabled(t, s, a)
  }

  /** Then a thread that has not exited sits at a barrier nobody has opened, or is held. */
  lemma OnlyBlocked(t: Tree, s: State, hold: set<nat>, x: nat)
    requires Inv(t, s) && !s.dead && StuckBut(t, s, hold) && x < t.n
    ensures || s.pc[x].Gone? || (x in hold && AtPrint(s.pc[x]))
            || (s.pc[x].Block? && s.sem[Barrier(t, x, s.pc[x].own)] <= 0)
    ensures s.mutex.sem > 0
  {
    hide Barriers, Sums, PcOk, Step;
    HoldersMove(t, s);
    assert !Enabled(t, s, t.n);
    assert BarrierHolders(t, s) == {} && Holders(t, s) == {};
    assert Enabled(t, s, x) ==> x in hold && AtPrint(s.pc[x]);
  }

  /** Whoever holds a mutex can go on, and is not waiting to print. */
  lemma HoldersMove(t: Tree, s: State)
    requires Shape(t, s) && !s.dead
    ensures forall h :: h in BarrierHolders(t, s) || h in Holders(t, s) ==>
              h <= t.n && Enabled(t, s, h) && (h < t.n ==> !AtPrint(s.pc[h]))
  {
  }

  /** The thread that has to open a barrier can go on. */
  lemma OpenerMoves(t: Tree, s: State, b: nat)
    requires Shape(t, s) && !s.dead && b < t.n
    ensures forall y :: y in Party(t, b) && Opening(b, y, s.pc[y]) ==> Enabled(t, s, y) && !AtPrint(s.pc[y])
  {
  }

  /** A blocked thread waits for a child of its barrier's node, blocked at a deeper barrier. */
  lemma BlockedByDeeper(t: Tree, s: State, hold: set<nat>, x: nat) returns (y: nat)
    requires Inv(t, s) && !s.dead && StuckBut(t, s, hold) && x < t.n && s.pc[x].Block?
    ensures y < t.n && s.pc[y] == Block(true)
    ensures 0 <= Barrier(t, x, s.pc[x].own) < t.n && t.depth[Barrier(t, x, s.pc[x].own)] < t.depth[y]
  {
    var b: nat := Barrier(t, x, s.pc[x].own);
    assert Inner(t, b) by { InnerBarrier(t, s, x); }
    OnlyBlocked(t, s, hold, x);
    assert x in Party(t, b) && !PassedBy(b, x, s.pc[x]);
    PartyCount(t, b);
    assert BarrierClosed(t, s, b) by { NotOpen(t, s, b, x); }
    y := MissingMember(t, s, hold, b);
    OnlyBlocked(t, s, hold, y);
  }

  lemma InnerBarrier(t: Tree, s: State, x: nat)
    requires Shape(t, s) && x < t.n && s.pc[x].Block?
    ensures 0 <= Barrier(t, x, s.pc[x].own) < t.n && Inner(t, Barrier(t, x, s.pc[x].own))
  {
    if !s.pc[x].own {
      assert t.IsKid(x, t.parent[x]) && x in t.Kids(t.parent[x]);
    }
  }

  lemma NotOpen(t: Tree, s: State, b: nat, x: nat)
    requires Shape(t, s) && Barriers(t, s) && b < t.n && Inner(t, b)
    requires x in Party(t, b) && !PassedBy(b, x, s.pc[x]) && s.sem[b] <= 0
    ensures BarrierClosed(t, s, b)
  {
    hide PcOk;
    if BarrierOpen(t, s, b) {
      PartyCount(t, b);
      SubsetCount(Passed(t, s, b), Party(t, b));
    }
  }

  lemma NotAllArrived(t: Tree, s: State, hold: set<nat>, b: nat) returns (y: nat)
    requires Shape(t, s) && !s.dead && StuckBut(t, s, hold) && b < t.n && BarrierClosed(t, s, b)
    ensures y in Party(t, b) && !ArrivedAt(b, y, s.pc[y])
  {
    OpenerMoves(t, s, b);
    hide PcOk, Enabled, Opening, ArrivedAt, Party, PassedBy, Resetting, AtPrint;
    assert forall x :: x in Party(t, b) && Opening(b, x, s.pc[x]) ==> x <= t.n && Enabled(t, s, x);
    assert Arrived(t, s, b) != Party(t, b);
    y :| y in Party(t, b) && y !in Arrived(t, s, b);
  }

  lemma MissingMember(t: Tree, s: State, hold: set<nat>, b: nat) returns (y: nat)
    requires Inv(t, s) && !s.dead && StuckBut(t, s, hold) && b < t.n && BarrierClosed(t, s, b)
    ensures y < t.n && s.pc[y] == Block(true) && t.parent[y] == b && y != t.root
  {
    hide Barriers, Sums, PcOk, Exclusive, BarrierClosed, StuckBut, Joined;
    y := NotAllArrived(t, s, hold, b);
    OnlyBlocked(t, s, hold, y);
  }

  lemma {:induction false} NobodyBlocked(t: Tree, s: State, hold: set<nat>, x: nat, deepest: nat)
    requires Inv(t, s) && !s.dead && StuckBut(t, s, hold) && x < t.n
    requires forall y :: 0 <= y < t.n ==> t.depth[y] <= deepest
    ensures !s.pc[x].Block?
    decreases deepest - t.depth[if s.pc[x].Block? && !s.pc[x].own && x != t.root then t.parent[x] else x]
  {
    if s.pc[x].Block? {
      var y := BlockedByDeeper(t, s, hold, x);
      NobodyBlocked(t, s, hold, y, deepest);
    }
  }

  /** With nobody else able to step, every thread has exited or is held. */
  lemma OnlyHeld(t: Tree, s: State, hold: set<nat>)
    requires Inv(t, s) && !s.dead && StuckBut(t, s, hold)
    ensures s.mutex.sem > 0
    ensures forall x: nat :: x < t.n ==> s.pc[x].Gone? || (x in hold && AtPrint(s.pc[x]))
  {
    var deepest := Deepest(t.depth);
    hide Barriers, Sums, PcOk, Exclusive, Joined, StuckBut;
    OnlyBlocked(t, s, hold, t.root);
    forall x: nat | x < t.n
      ensures s.pc[x].Gone? || (x in hold && AtPrint(s.pc[x]))
    {
      NobodyBlocked(t, s, hold, x, deepest);
      OnlyBlocked(t, s, hold, x);
    }
  }

  /** In every reachable state some thread can step until main has printed or the process has aborted. */
  lemma NoDeadlock(t: Tree, s: State)
    requires Inv(t, s) && Stuck(t, s)
    ensures s.dead || s.main.Finished?
  {
    hide Barriers, Sums, PcOk, Exclusive;
    if !s.dead {
      OnlyHeld(t, s, {});
      assert !Enabled(t, s, t.n);
      assert s.pc[t.root].Gone?;
      BelowCount(t.n);
      assert GoneSet(t, s) == Below(t.n);
    }
  }

  ghost function Deepest(d: seq<nat>): (m: nat)
    ensures forall x :: 0 <= x < |d| ==> d[x] <= m
  {
    if d == [] then 0 else
      var m := Deepest(d[..|d| - 1]);
      if m < d[|d| - 1] then d[|d| - 1] else m
  }

  // ---------------------------------------------------------------- every run is bounded

  function Remaining(n: nat, w: Thread): int {
    match w
    case Fresh => n + 32
    case Enter(own) => if own then n + 31 else 15
    case Count(own) => if own then n + 30 else 14
    case Leave(own, _) => if own then n + 29 else 13
    case Release(own) => if own then n + 28 else 12
    case Reset(own) => if own then n + 27 else 11
    case Block(own) => if own then n + 26 else 10
    case Sum(c) => if Unlocking(c) then Left(c) + 15 else n + Left(c) + 17
    case Clear => n + 22
    case Add(i) => n - i + 21
    case Leaf => 16
    case Print(c) => Left(c) + 1
    case Exit => 1
    case Gone => 0
  }

  function MainRemaining(n: nat, m: Main): int {
    match m
    case Create(k) => n - k + 11
    case Join => 10
    case Lock(c) => Left(c) + 1
    case Read => 6
    case Unlock(c, _) => Left(c)
    case Finished(_) => 0
  }

  function AllRemaining(n: nat, pc: seq<Thread>): seq<int> {
    seq(|pc|, x requires 0 <= x < |pc| => Remaining(n, pc[x]))
  }

  ghost function Measure(t: Tree, s: State): int {
    if s.dead then 0 else Counting.Sum(AllRemaining(t.n, s.pc)) + MainRemaining(t.n, s.main) + 1
  }

  lemma ThreadProgress(t: Tree, s: State, a: nat)
    requires Shape(t, s) && Enabled(t, s, a) && a < t.n
    ensures var s' := Step(t, s, a);
            && |s'.pc| == t.n && s'.pc == s.pc[a := s'.pc[a]] && s'.main == s.main
            && (s'.dead || Remaining(t.n, s'.pc[a]) < Remaining(t.n, s.pc[a]))
  {
  }

  lemma MainProgress(t: Tree, s: State)
    requires Shape(t, s) && Enabled(t, s, t.n) && Joined(t, s)
    ensures var s' := Step(t, s, t.n);
            if s.main.Create? && s.main.k < t.n then
              && s'.pc == s.pc[s.main.k := s'.pc[s.main.k]] && s'.main == Create(s.main.k + 1)
              && s.pc[s.main.k].Fresh? && Remaining(t.n, s'.pc[s.main.k]) <= t.n + 31
            else s'.dead || (s'.pc == s.pc && MainRemaining(t.n, s'.main) < MainRemaining(t.n, s.main))
  {
    hide PcOk;
  }

  /** One entry of the list of operations left goes down. */
  lemma OneLess(n: nat, pc: seq<Thread>, k: nat, w: Thread)
    requires k < |pc|
    ensures Counting.Sum(AllRemaining(n, pc[k := w]))
         == Counting.Sum(AllRemaining(n, pc)) - Remaining(n, pc[k]) + Remaining(n, w)
  {
    SumUpdate(AllRemaining(n, pc), k, Remaining(n, w));
    assert AllRemaining(n, pc[k := w]) == AllRemaining(n, pc)[k := Remaining(n, w)];
  }

  lemma StepMeasure(t: Tree, s: State, a: nat)
    requires Shape(t, s) && Joined(t, s) && Enabled(t, s, a)
    ensures Measure(t, Step(t, s, a)) < Measure(t, s)
  {
    hide Step, Enabled, PcOk, Joined;
    MeasureNonNegative(t, s);
    var s' := Step(t, s, a);
    assert !s.dead && a <= t.n by { ActorLives(t, s, a); }
    if a < t.n {
      ThreadProgress(t, s, a);
      OneLess(t.n, s.pc, a, s'.pc[a]);
    } else {
      MainProgress(t, s);
      if s.main.Create? && s.main.k < t.n {
        OneLess(t.n, s.pc, s.main.k, s'.pc[s.main.k]);
      }
    }
  }

  lemma ActorLives(t: Tree, s: State, a: nat)
    requires Shape(t, s) && Enabled(t, s, a)
    ensures !s.dead && a <= t.n
  {
    hide PcOk;
  }

  /** The steps that a run of n nodes can have. */
  function Bound(n: nat): nat {
    n * (n + 32) + n + 12
  }

  lemma InitMeasure(t: Tree, s: State)
    requires Init(t, s)
    ensures Measure(t, s) == Bound(t.n)
  {
    hide PcOk;
    SumBounds(AllRemaining(t.n, s.pc), t.n + 32);
  }

  lemma FollowsMeasure(t: Tree, s: State, s': State)
    requires Safe(t, s) && Follows(t, s, s')
    ensures Measure(t, s') < Measure(t, s)
  {
    hide Step, Enabled, Barriers, Sums, PcOk, Joined, Measure;
    var a: nat :| Enabled(t, s, a) && s' == Step(t, s, a);
    StepMeasure(t, s, a);
  }

  lemma {:induction false} RunMeasure(t: Tree, r: seq<State>)
    requires Run(t, r)
    ensures |r| - 1 + Measure(t, r[|r| - 1]) <= Bound(t.n)
  {
    hide Safe, Init, Measure, Bound, Follows;
    if |r| == 1 {
      InitMeasure(t, r[0]);
    } else {
      RunMeasure(t, r[..|r| - 1]);
      RunSafe(t, r[..|r| - 1]);
      assert Follows(t, r[|r| - 2], r[|r| - 2 + 1]);
      FollowsMeasure(t, r[|r| - 2], r[|r| - 1]);
    }
  }

  lemma MeasureNonNegative(t: Tree, s: State)
    requires Shape(t, s)
    ensures Measure(t, s) >= 0 && (Measure(t, s) > 0 <==> !s.dead)
  {
    forall x | 0 <= x < t.n
      ensures Remaining(t.n, s.pc[x]) >= 0
    {
      assert PcOk(t, x, s.pc[x]);
    }
    SumBounds(AllRemaining(t.n, s.pc), 0);
  }

  /** Every schedule ends, after a bounded number of steps: with main having printed the total of the
      numbers typed at the nodes that are nobody's parent, or with the process aborted by
      foothread_mutex_unlock. */
  lemma EveryRunEnds(t: Tree, r: seq<State>, v: seq<int>)
    requires Run(t, r) && t.Valid() && |v| == t.n
    requires forall x :: 0 <= x < t.n ==>
               v[x] == if forall c :: 0 <= c < t.n ==> t.parent[c] != x then t.input[x] else 0
    ensures |r| - 1 <= Bound(t.n)
    ensures Shape(t, r[|r| - 1])
    ensures Stuck(t, r[|r| - 1]) <==> r[|r| - 1].dead || r[|r| - 1].main == Finished(Counting.Sum(v))
  {
    var s := r[|r| - 1];
    hide Run, Measure, Stuck, Inv, Bound, PcOk;
    RunInv(t, r);
    RunMeasure(t, r);
    InvShape(t, s);
    MeasureNonNegative(t, s);
    StuckIffOver(t, s);
    if s.main.Finished? {
      MainPrintsLeafTotal(t, r, v);
    }
  }

  lemma InvShape(t: Tree, s: State)
    requires Inv(t, s)
    ensures Shape(t, s)
  {
    hide Shape, Barriers, Sums, Joined, Exclusive;
  }

  lemma StuckIffOver(t: Tree, s: State)
    requires Inv(t, s)
    ensures Stuck(t, s) <==> s.dead || s.main.Finished?
  {
    hide Barriers, Sums, PcOk, Exclusive;
    if Stuck(t, s) {
      NoDeadlock(t, s);
    }
    if s.main.Finished? {
      AllGone(t, s);
    }
  }
}
