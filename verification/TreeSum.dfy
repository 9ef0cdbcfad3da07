/** computesum.c over foothread.c: one thread per tree node, one barrier per inner node, a join.
    A step is one semaphore operation or one access to a shared word. Each P and V has its own sembuf;
    the two sections under the thread-table mutex (create, exit) are single steps, and all barriers
    share one mutex semaphore, as they do when one thread initialises them all. */
module TreeSum {
  import opened Counting
  import opened ThreadMutex
  import opened Trees

  /** `own` tells whether the barrier is the node's own or its parent's. */
  datatype Thread =
    | Fresh
    | Enter(own: bool)              // P(mutex_semaphore)
    | Count(own: bool)              // ++reached and the test against count
    | Leave(own: bool, last: bool)  // V(mutex_semaphore)
    | Release(own: bool)            // V(semaphore) by count
    | Reset(own: bool)              // reached = 0
    | Block(own: bool)              // P(semaphore)
    | Sum(c: Access)                // lock and unlock around the summing loop
    | Clear                         // sum = value
    | Add(i: nat)                   // the loop over all nodes
    | Leaf                          // sum = value
    | Print(c: Access)              // lock and unlock around the printing of the partial sum
    | Exit                          // V on main's semaphore
    | Gone

  datatype Main = Create(k: nat) | Join | Lock(c: Access) | Read | Unlock(c: Access, v: int) | Finished(v: int)

  /** dead: a thread has called exit(EXIT_FAILURE), which ends the process. */
  datatype State = State(
    sum: seq<int>, reached: seq<int>, sem: seq<int>,
    bmtx: int, mutex: Mutex, join: int, dead: bool, pc: seq<Thread>, main: Main)

  predicate Inner(t: Tree, x: nat)
    requires |t.children| == t.n && x < t.n
  {
    t.children[x] > 0
  }

  /** The barrier a thread is at. */
  function Barrier(t: Tree, x: nat, own: bool): int
    requires |t.parent| == t.n && x < t.n
  {
    if own then x else t.parent[x]
  }

  function AfterSum(t: Tree, x: nat): Thread
    requires |t.parent| == |t.children| == t.n && x < t.n
  {
    if t.parent[x] != -1 then Enter(false) else if Inner(t, x) then Print(Take) else Exit
  }

  function AfterBlock(t: Tree, x: nat, own: bool): Thread
    requires |t.children| == t.n && x < t.n
  {
    if own then Sum(Take) else if Inner(t, x) then Print(Take) else Exit
  }

  /** Where an access of the mutex leads a thread that survives it. */
  function AfterAccess(t: Tree, x: nat, w: Thread): Thread
    requires |t.parent| == |t.children| == t.n && x < t.n && AtMutex(w)
  {
    match w
    case Sum(c) => if c.SetStatus? then Clear else if c.ClearStatus? then AfterSum(t, x) else Sum(Next(c))
    case Print(c) => if c.ClearStatus? then Exit else Print(Next(c))
  }

  function MainAfterAccess(m: Main): Main
    requires m.Lock? || m.Unlock?
  {
    match m
    case Lock(c) => if c.SetStatus? then Read else Lock(Next(c))
    case Unlock(c, v) => if c.ClearStatus? then Finished(v) else Unlock(Next(c), v)
  }

  predicate AtBarrier(w: Thread) {
    w.Enter? || w.Count? || w.Leave? || w.Release? || w.Reset? || w.Block?
  }

  predicate AtMutex(w: Thread) { w.Sum? || w.Print? }

  ghost predicate PcOk(t: Tree, x: nat, w: Thread)
    requires t.Valid() && x < t.n
  {
    && (AtBarrier(w) ==> if w.own then Inner(t, x) else x != t.root)
    && (AtMutex(w) || w.Clear? || w.Add? ==> Inner(t, x))
    && (w.Add? ==> w.i <= t.n)
    && (w.Leaf? ==> !Inner(t, x))
  }

  predicate MainOk(n: nat, m: Main) {
    && (m.Create? ==> m.k <= n)
    && (m.Lock? ==> !Unlocking(m.c))
    && (m.Unlock? ==> Unlocking(m.c))
  }

  ghost predicate Shape(t: Tree, s: State) {
    && t.Valid()
    && |s.sum| == |s.reached| == |s.sem| == |s.pc| == t.n
    && (forall x :: 0 <= x < t.n ==> PcOk(t, x, s.pc[x]))
    && MainOk(t.n, s.main)
  }

  ghost predicate Enabled(t: Tree, s: State, a: nat)
    requires Shape(t, s)
  {
    && !s.dead
    && if a < t.n then
      match s.pc[a]
      case Fresh => false
      case Gone => false
      case Enter(_) => s.bmtx > 0
      case Block(own) => s.sem[Barrier(t, a, own)] > 0
      case Sum(c) => CanAccess(s.mutex, c)
      case Print(c) => CanAccess(s.mutex, c)
      case _ => true
    else
      a == t.n &&
      match s.main
      case Create(_) => true
      case Join => s.join >= t.n
      case Lock(c) => CanAccess(s.mutex, c)
      case Finished(_) => false
      case _ => true
  }

  ghost function Step(t: Tree, s: State, a: nat): State
    requires Shape(t, s) && Enabled(t, s, a)
  {
    if a < t.n then
      match s.pc[a]
      case Enter(own) => s.(bmtx := s.bmtx - 1, pc := s.pc[a := Count(own)])
      case Count(own) =>
        var b := Barrier(t, a, own);
        s.(reached := s.reached[b := s.reached[b] + 1],
           pc := s.pc[a := Leave(own, s.reached[b] + 1 == 1 + t.children[b])])
      case Leave(own, last) => s.(bmtx := s.bmtx + 1, pc := s.pc[a := if last then Release(own) else Block(own)])
      case Release(own) =>
        var b := Barrier(t, a, own);
        s.(sem := s.sem[b := s.sem[b] + 1 + t.children[b]], pc := s.pc[a := Reset(own)])
      case Reset(own) => s.(reached := s.reached[Barrier(t, a, own) := 0], pc := s.pc[a := Block(own)])
      case Block(own) =>
        var b := Barrier(t, a, own);
        s.(sem := s.sem[b := s.sem[b] - 1], pc := s.pc[a := AfterBlock(t, a, own)])
      case Sum(c) => MutexStep(t, s, a, c)
      case Print(c) => MutexStep(t, s, a, c)
      case Clear => s.(sum := s.sum[a := t.Value(a)], pc := s.pc[a := Add(0)])
      case Add(i) =>
        if i == t.n then s.(pc := s.pc[a := Sum(TestOwner)])
        else s.(sum := if t.IsKid(i, a) then s.sum[a := s.sum[a] + s.sum[i]] else s.sum, pc := s.pc[a := Add(i + 1)])
      case Leaf => s.(sum := s.sum[a := t.Value(a)], pc := s.pc[a := AfterSum(t, a)])
      case Exit => s.(join := s.join + 1, pc := s.pc[a := Gone])
    else
      match s.main
      case Create(k) =>
        if k == t.n then s.(main := Join)
        else s.(pc := s.pc[k := if Inner(t, k) then Enter(true) else Leaf], main := Create(k + 1))
      case Join => s.(join := s.join - t.n, main := Lock(Take))
      case Lock(c) => MainMutexStep(t, s, c)
      case Read => s.(main := Unlock(TestOwner, s.sum[t.root]))
      case Unlock(c, _) => MainMutexStep(t, s, c)
  }

  /** A node thread's access of the mutex, which may end the process. */
  ghost function MutexStep(t: Tree, s: State, a: nat, c: Access): State
    requires Shape(t, s) && a < t.n && AtMutex(s.pc[a])
  {
    if Fails(s.mutex, a, c) then s.(dead := true)
    else s.(mutex := Accessed(s.mutex, a, c), pc := s.pc[a := AfterAccess(t, a, s.pc[a])])
  }

  /** The same by main, whose thread id is n here. */
  ghost function MainMutexStep(t: Tree, s: State, c: Access): State
    requires s.main.Lock? || s.main.Unlock?
  {
    if Fails(s.mutex, t.n, c) then s.(dead := true)
    else s.(mutex := Accessed(s.mutex, t.n, c), main := MainAfterAccess(s.main))
  }

  ghost predicate Init(t: Tree, s: State) {
    && Shape(t, s)
    && s.bmtx == 1 && s.mutex == Mutex(1, -1, 0) && s.join == 0 && !s.dead && s.main == Create(0)
    && forall x :: 0 <= x < t.n ==> s.reached[x] == 0 && s.sem[x] == 0 && s.pc[x].Fresh?
  }

  // ---------------------------------------------------------------- how far a thread has come

  /** The part of the run: 0 before the own barrier is counted, 1 from there to its end, 2 computing
      the sum, 3 before the parent's barrier is counted, 4 from there to its end, 5 afterwards. */
  function Stage(w: Thread): nat {
    match w
    case Fresh => 0
    case Enter(own) => if own then 0 else 3
    case Count(own) => if own then 0 else 3
    case Leave(own, _) => if own then 1 else 4
    case Release(own) => if own then 1 else 4
    case Reset(own) => if own then 1 else 4
    case Block(own) => if own then 1 else 4
    case Sum(_) => 2
    case Clear => 2
    case Add(_) => 2
    case Leaf => 2
    case _ => 5
  }

  /** Its sum is complete. */
  predicate Summed(w: Thread) { Stage(w) >= 3 || (w.Sum? && Unlocking(w.c)) }

  /** The threads that pass barrier b: the node itself and its children. */
  ghost function Party(t: Tree, b: nat): (r: set<nat>)
    requires t.Valid() && b < t.n
    ensures forall x: nat :: x in r <==> x < t.n && (x == b || t.parent[x] == b)
  {
    t.Kids(b) + {b}
  }

  /** x has been counted at barrier b, or has got through it. */
  predicate ArrivedAt(b: nat, x: nat, w: Thread) { Stage(w) >= if x == b then 1 else 4 }

  predicate PassedBy(b: nat, x: nat, w: Thread) { Stage(w) >= if x == b then 2 else 5 }

  ghost function Arrived(t: Tree, s: State, b: nat): set<nat>
    requires Shape(t, s) && b < t.n
  {
    set x: nat | x in Party(t, b) && ArrivedAt(b, x, s.pc[x])
  }

  ghost function Passed(t: Tree, s: State, b: nat): set<nat>
    requires Shape(t, s) && b < t.n
  {
    set x: nat | x in Party(t, b) && PassedBy(b, x, s.pc[x])
  }

  /** The one that counted last and has not opened the barrier yet. */
  predicate Opening(b: nat, x: nat, w: Thread) {
    ((w.Leave? && w.last) || w.Release?) && (w.own <==> x == b)
  }

  predicate Resetting(b: nat, x: nat, w: Thread) { w.Reset? && (w.own <==> x == b) }

  // ---------------------------------------------------------------- the invariant

  ghost predicate BarrierClosed(t: Tree, s: State, b: nat)
    requires Shape(t, s) && b < t.n
  {
    && s.sem[b] == 0 && Passed(t, s, b) == {}
    && s.reached[b] == |Arrived(t, s, b)|
    && (forall x :: x in Party(t, b) ==> !Resetting(b, x, s.pc[x]))
    && (forall x :: x in Party(t, b) && Opening(b, x, s.pc[x]) ==> Arrived(t, s, b) == Party(t, b))
    && (forall x, y | x in Party(t, b) && y in Party(t, b) ::
          Opening(b, x, s.pc[x]) && Opening(b, y, s.pc[y]) ==> x == y)
    && (Arrived(t, s, b) == Party(t, b) ==> exists x :: x in Party(t, b) && Opening(b, x, s.pc[x]))
  }

  ghost predicate BarrierOpen(t: Tree, s: State, b: nat)
    requires Shape(t, s) && b < t.n
  {
    && s.sem[b] >= 0 && s.sem[b] + |Passed(t, s, b)| == 1 + t.children[b]
    && Arrived(t, s, b) == Party(t, b)
    && (forall x :: x in Party(t, b) ==> !Opening(b, x, s.pc[x]))
  }

  ghost predicate Barriers(t: Tree, s: State)
    requires Shape(t, s)
  {
    forall b :: 0 <= b < t.n && Inner(t, b) ==> BarrierClosed(t, s, b) || BarrierOpen(t, s, b)
  }

  /** A node past its sum holds its total; one in the loop holds the part already added. */
  ghost predicate SumOk(t: Tree, s: State, x: nat)
    requires Shape(t, s) && x < t.n
  {
    && (Summed(s.pc[x]) ==> s.sum[x] == t.Total(x))
    && (s.pc[x].Add? ==> s.sum[x] == t.Value(x) + t.KidTotals(x, s.pc[x].i))
  }

  ghost predicate Sums(t: Tree, s: State)
    requires Shape(t, s)
  {
    forall x: nat :: x < t.n ==> SumOk(t, s, x)
  }

  /** main is past its join. */
  predicate Reading(m: Main) { m.Lock? || m.Read? || m.Unlock? || m.Finished? }

  ghost function GoneSet(t: Tree, s: State): set<nat>
    requires Shape(t, s)
  {
    set x: nat | x in Below(t.n) && s.pc[x].Gone?
  }

  ghost predicate Joined(t: Tree, s: State)
    requires Shape(t, s)
  {
    && (forall x :: 0 <= x < t.n ==> (s.pc[x].Fresh? <==> s.main.Create? && s.main.k <= x))
    && s.join >= 0
    && s.join + (if Reading(s.main) then t.n else 0) == |GoneSet(t, s)|
    && (s.main.Unlock? ==> s.main.v == t.Total(t.root))
    && (s.main.Finished? ==> s.main.v == t.Total(t.root))
  }

  ghost predicate Safe(t: Tree, s: State) {
    Shape(t, s) && Barriers(t, s) && Sums(t, s) && Joined(t, s)
  }

  lemma InitSafe(t: Tree, s: State)
    requires Init(t, s)
    ensures Safe(t, s)
  {
    forall b | 0 <= b < t.n && Inner(t, b)
      ensures BarrierClosed(t, s, b)
    {
      assert b in Party(t, b) && b !in Arrived(t, s, b);
      assert Arrived(t, s, b) == {};
    }
    assert GoneSet(t, s) == {};
  }

  lemma PartyCount(t: Tree, b: nat)
    requires t.Valid() && b < t.n
    ensures |Party(t, b)| == 1 + t.children[b]
  {
    assert t.parent[b] != b;
    assert b !in t.Kids(b);
  }

  // ---------------------------------------------------------------- barriers

  /** What a barrier's state is made of. */
  ghost predicate SameAtBarrier(t: Tree, s: State, s': State, b: nat)
    requires Shape(t, s) && Shape(t, s') && b < t.n
  {
    && s'.sem[b] == s.sem[b] && s'.reached[b] == s.reached[b]
    && forall x :: x in Party(t, b) ==> SameMember(b, x, s.pc[x], s'.pc[x])
  }

  predicate SameMember(b: nat, x: nat, w: Thread, w': Thread) {
    && ArrivedAt(b, x, w) == ArrivedAt(b, x, w')
    && PassedBy(b, x, w) == PassedBy(b, x, w')
    && Opening(b, x, w) == Opening(b, x, w')
    && Resetting(b, x, w) == Resetting(b, x, w')
  }

  lemma BarrierFrame(t: Tree, s: State, s': State, b: nat)
    requires Shape(t, s) && Shape(t, s') && b < t.n && SameAtBarrier(t, s, s', b)
    requires BarrierClosed(t, s, b) || BarrierOpen(t, s, b)
    ensures BarrierClosed(t, s', b) || BarrierOpen(t, s', b)
  {
    hide PcOk, Party, ArrivedAt, PassedBy, Opening, Resetting;
    assert forall x :: x in Party(t, b) ==> SameMember(b, x, s.pc[x], s'.pc[x]);
    assert Arrived(t, s', b) == Arrived(t, s, b);
    assert Passed(t, s', b) == Passed(t, s, b);
  }

  /** The barrier whose words a thread is about to change. */
  predicate Touches(t: Tree, x: nat, w: Thread, b: nat)
    requires |t.parent| == t.n && x < t.n
  {
    (w.Count? || w.Release? || w.Reset? || w.Block?) && Barrier(t, x, w.own) == b
  }

  lemma MoverPc(t: Tree, s: State, a: nat)
    requires Shape(t, s) && Enabled(t, s, a) && a < t.n
    ensures var s' := Step(t, s, a);
            && |s'.pc| == t.n && s'.pc == s.pc[a := s'.pc[a]] && s'.main == s.main && PcOk(t, a, s'.pc[a])
            && |s'.sum| == |s'.reached| == |s'.sem| == t.n
  {
    assert PcOk(t, a, s.pc[a]);
  }

  lemma StepShape(t: Tree, s: State, a: nat)
    requires Shape(t, s) && Enabled(t, s, a)
    ensures Shape(t, Step(t, s, a))
  {
    if a < t.n {
      MoverPc(t, s, a);
      hide PcOk;
    }
  }

  lemma MoveAtBarrier(t: Tree, s: State, a: nat, b: nat)
    requires Shape(t, s) && a < t.n && Enabled(t, s, a) && |Step(t, s, a).pc| == t.n && AtBarrier(s.pc[a])
    requires b < t.n && Inner(t, b) && a in Party(t, b) && !Touches(t, a, s.pc[a], b)
    ensures SameMember(b, a, s.pc[a], Step(t, s, a).pc[a])
  {
    hide PcOk;
  }

  lemma MoveOffBarrier(t: Tree, s: State, a: nat, b: nat)
    requires Shape(t, s) && a < t.n && Enabled(t, s, a) && |Step(t, s, a).pc| == t.n && !AtBarrier(s.pc[a])
    requires b < t.n && Inner(t, b) && a in Party(t, b) && !Touches(t, a, s.pc[a], b)
    ensures SameMember(b, a, s.pc[a], Step(t, s, a).pc[a])
  {
    hide PcOk;
  }

  /** A thread's step off barrier b is no step at barrier b. */
  lemma MoveElsewhere(t: Tree, s: State, a: nat, b: nat)
    requires Shape(t, s) && a < t.n && Enabled(t, s, a) && |Step(t, s, a).pc| == t.n
    requires b < t.n && Inner(t, b) && a in Party(t, b) && !Touches(t, a, s.pc[a], b)
    ensures SameMember(b, a, s.pc[a], Step(t, s, a).pc[a])
  {
    hide Step, Enabled, SameMember, PcOk;
    if AtBarrier(s.pc[a]) {
      MoveAtBarrier(t, s, a, b);
    } else {
      MoveOffBarrier(t, s, a, b);
    }
  }

  lemma WordsElsewhere(t: Tree, s: State, a: nat, b: nat)
    requires Shape(t, s) && Enabled(t, s, a)
    requires b < t.n && (a < t.n ==> !Touches(t, a, s.pc[a], b))
    ensures Step(t, s, a).sem[b] == s.sem[b] && Step(t, s, a).reached[b] == s.reached[b]
  {
  }

  /** Others stand still, but for one that main starts. */
  lemma OthersStill(t: Tree, s: State, a: nat, x: nat)
    requires Shape(t, s) && Enabled(t, s, a) && Joined(t, s) && x < t.n && x != a
    ensures |Step(t, s, a).pc| == t.n
    ensures Step(t, s, a).pc[x] == s.pc[x]
         || (s.pc[x].Fresh? && Step(t, s, a).pc[x] == if Inner(t, x) then Enter(true) else Leaf)
  {
  }

  /** A step that does not touch barrier b leaves b's state alone. */
  lemma StepElsewhere(t: Tree, s: State, a: nat, b: nat)
    requires Shape(t, s) && Enabled(t, s, a) && Shape(t, Step(t, s, a)) && Joined(t, s)
    requires b < t.n && Inner(t, b) && (a < t.n ==> !Touches(t, a, s.pc[a], b))
    ensures SameAtBarrier(t, s, Step(t, s, a), b)
  {
    hide Step, Enabled, PcOk, Touches, Joined;
    WordsElsewhere(t, s, a, b);
    forall x | x in Party(t, b)
      ensures SameMember(b, x, s.pc[x], Step(t, s, a).pc[x])
    {
      if x == a {
        MoveElsewhere(t, s, a, b);
      } else {
        OthersStill(t, s, a, x);
      }
    }
  }

  /** Only thread a of barrier b's members has moved. */
  ghost predicate OnlyMover(t: Tree, s: State, s': State, a: nat, b: nat)
    requires Shape(t, s) && Shape(t, s') && b < t.n
  {
    a in Party(t, b) && forall x :: x in Party(t, b) && x != a ==> SameMember(b, x, s.pc[x], s'.pc[x])
  }

  lemma Mover(t: Tree, s: State, a: nat, b: nat)
    requires Shape(t, s) && Enabled(t, s, a) && Shape(t, Step(t, s, a)) && a < t.n && b < t.n
    requires Touches(t, a, s.pc[a], b)
    ensures OnlyMover(t, s, Step(t, s, a), a, b) && a in Party(t, b)
    ensures s.pc[a].own <==> a == b
  {
    assert PcOk(t, a, s.pc[a]);
    MoverPc(t, s, a);
    hide Step, Enabled, PcOk;
    var s' := Step(t, s, a);
    assert forall x :: x in Party(t, b) && x != a ==> s'.pc[x] == s.pc[x];
  }

  lemma NotCountedMeansClosed(t: Tree, s: State, a: nat, b: nat)
    requires Shape(t, s) && b < t.n && a in Party(t, b) && !ArrivedAt(b, a, s.pc[a])
    requires BarrierClosed(t, s, b) || BarrierOpen(t, s, b)
    ensures BarrierClosed(t, s, b) && a !in Arrived(t, s, b)
  {
    hide PcOk, Party, BarrierClosed, ArrivedAt, PassedBy, Opening, Resetting;
  }

  lemma CountKeeps(t: Tree, s: State, s': State, a: nat, b: nat)
    requires Shape(t, s) && Shape(t, s') && a < t.n && b < t.n && OnlyMover(t, s, s', a, b)
    requires BarrierClosed(t, s, b) && a !in Arrived(t, s, b)
    requires s'.reached[b] == s.reached[b] + 1 && s'.sem[b] == s.sem[b]
    requires ArrivedAt(b, a, s'.pc[a]) && !PassedBy(b, a, s'.pc[a])
    requires !Resetting(b, a, s'.pc[a]) && (Opening(b, a, s'.pc[a]) <==> s'.reached[b] == 1 + t.children[b])
    ensures BarrierClosed(t, s', b)
  {
    hide PcOk, Party, ArrivedAt, PassedBy, Opening, Resetting;
    assert a in Party(t, b);
    assert forall x :: x in Party(t, b) && x != a ==> SameMember(b, x, s.pc[x], s'.pc[x]);
    assert Arrived(t, s', b) == Arrived(t, s, b) + {a};
    assert forall x :: x in Party(t, b) ==> x !in Passed(t, s, b);
    assert Passed(t, s', b) == {};
    PartyCount(t, b);
    SubsetCount(Arrived(t, s', b), Party(t, b));
  }

  lemma ReleaseKeeps(t: Tree, s: State, s': State, a: nat, b: nat)
    requires Shape(t, s) && Shape(t, s') && a < t.n && b < t.n && OnlyMover(t, s, s', a, b)
    requires BarrierClosed(t, s, b) || BarrierOpen(t, s, b)
    requires s'.sem[b] == s.sem[b] + 1 + t.children[b]
    requires ArrivedAt(b, a, s'.pc[a]) && !PassedBy(b, a, s'.pc[a])
    requires Opening(b, a, s.pc[a]) && !Opening(b, a, s'.pc[a])
    ensures BarrierOpen(t, s', b)
  {
    hide PcOk, ArrivedAt, PassedBy, Opening, Resetting;
    assert BarrierClosed(t, s, b);
    assert forall x :: x in Party(t, b) && x != a ==> SameMember(b, x, s.pc[x], s'.pc[x]);
    assert forall x :: x in Party(t, b) ==> x !in Passed(t, s, b) && x in Arrived(t, s, b);
    assert Passed(t, s', b) == {};
    assert Arrived(t, s', b) == Party(t, b);
  }

  lemma ResetKeeps(t: Tree, s: State, s': State, a: nat, b: nat)
    requires Shape(t, s) && Shape(t, s') && a < t.n && b < t.n && OnlyMover(t, s, s', a, b)
    requires BarrierClosed(t, s, b) || BarrierOpen(t, s, b)
    requires s'.sem[b] == s.sem[b] && Resetting(b, a, s.pc[a]) && !Opening(b, a, s'.pc[a])
    requires ArrivedAt(b, a, s'.pc[a]) && PassedBy(b, a, s'.pc[a]) == PassedBy(b, a, s.pc[a])
    ensures BarrierOpen(t, s', b)
  {
    hide PcOk, ArrivedAt, PassedBy, Opening, Resetting;
    assert BarrierOpen(t, s, b);
    assert forall x :: x in Party(t, b) && x != a ==> SameMember(b, x, s.pc[x], s'.pc[x]);
    assert Passed(t, s', b) == Passed(t, s, b);
    assert forall x :: x in Party(t, b) ==> x in Arrived(t, s, b);
    assert Arrived(t, s', b) == Party(t, b);
  }

  lemma TokensMeanOpen(t: Tree, s: State, b: nat)
    requires Shape(t, s) && b < t.n && s.sem[b] > 0 && (BarrierClosed(t, s, b) || BarrierOpen(t, s, b))
    ensures BarrierOpen(t, s, b)
  {
    hide PcOk, Party, Arrived, Passed;
  }

  lemma BlockKeeps(t: Tree, s: State, s': State, a: nat, b: nat)
    requires Shape(t, s) && Shape(t, s') && a < t.n && b < t.n && OnlyMover(t, s, s', a, b)
    requires BarrierOpen(t, s, b)
    requires s.sem[b] > 0 && s'.sem[b] == s.sem[b] - 1 && !Opening(b, a, s'.pc[a])
    requires ArrivedAt(b, a, s'.pc[a]) && !PassedBy(b, a, s.pc[a]) && PassedBy(b, a, s'.pc[a])
    ensures BarrierOpen(t, s', b)
  {
    hide PcOk, ArrivedAt, PassedBy, Opening, Resetting, Party;
    assert forall x :: x in Party(t, b) && x != a ==> SameMember(b, x, s.pc[x], s'.pc[x]);
    assert a !in Passed(t, s, b);
    assert Passed(t, s', b) == Passed(t, s, b) + {a};
    assert forall x :: x in Party(t, b) ==> x in Arrived(t, s, b);
    assert Arrived(t, s', b) == Party(t, b);
  }

  /** A step at barrier b. */
  lemma StepAtBarrier(t: Tree, s: State, a: nat, b: nat)
    requires Shape(t, s) && Enabled(t, s, a) && Shape(t, Step(t, s, a)) && a < t.n && b < t.n
    requires Touches(t, a, s.pc[a], b) && (BarrierClosed(t, s, b) || BarrierOpen(t, s, b))
    ensures BarrierClosed(t, Step(t, s, a), b) || BarrierOpen(t, Step(t, s, a), b)
  {
    hide BarrierClosed, BarrierOpen, OnlyMover, Arrived, Passed, Party, PcOk, MainOk;
    var s' := Step(t, s, a);
    Mover(t, s, a, b);
    match s.pc[a] {
      case Count(_) =>
        NotCountedMeansClosed(t, s, a, b);
        CountKeeps(t, s, s', a, b);
      case Release(_) =>
        ReleaseKeeps(t, s, s', a, b);
      case Reset(_) =>
        ResetKeeps(t, s, s', a, b);
      case Block(_) =>
        TokensMeanOpen(t, s, b);
        BlockKeeps(t, s, s', a, b);
    }
  }

  lemma StepBarriers(t: Tree, s: State, a: nat, b: nat)
    requires Shape(t, s) && Enabled(t, s, a) && Shape(t, Step(t, s, a)) && Joined(t, s) && b < t.n && Inner(t, b)
    requires BarrierClosed(t, s, b) || BarrierOpen(t, s, b)
    ensures BarrierClosed(t, Step(t, s, a), b) || BarrierOpen(t, Step(t, s, a), b)
  {
    hide BarrierClosed, BarrierOpen, Step, Enabled, PcOk, Joined, SameAtBarrier, Touches;
    if a < t.n && Touches(t, a, s.pc[a], b) {
      StepAtBarrier(t, s, a, b);
    } else {
      StepElsewhere(t, s, a, b);
      BarrierFrame(t, s, Step(t, s, a), b);
    }
  }

  // ---------------------------------------------------------------- sums

  /** In its loop a node finds the totals of its children settled. */
  lemma KidsSettled(t: Tree, s: State, x: nat, c: nat)
    requires Shape(t, s) && Barriers(t, s) && Sums(t, s)
    requires x < t.n && Inner(t, x) && Stage(s.pc[x]) >= 2 && c < t.n && t.IsKid(c, x)
    ensures s.sum[c] == t.Total(c) && Stage(s.pc[c]) >= 4
  {
    assert x in Passed(t, s, x);
    assert BarrierOpen(t, s, x);
    assert c in t.Kids(x) && c in Party(t, x) && c in Arrived(t, s, x);
    assert t.IsKid(x, x) <==> t.parent[x] == x;
    assert SumOk(t, s, c);
  }

  /** Nobody else writes a node's sum. */
  lemma SumElsewhere(t: Tree, s: State, a: nat, x: nat)
    requires Shape(t, s) && Enabled(t, s, a) && x < t.n && x != a
    ensures Step(t, s, a).sum[x] == s.sum[x]
  {
  }

  lemma OwnSum(t: Tree, s: State, a: nat)
    requires Shape(t, s) && Barriers(t, s) && Sums(t, s) && a < t.n && Enabled(t, s, a) && Shape(t, Step(t, s, a))
    ensures SumOk(t, Step(t, s, a), a)
  {
    hide Barriers, PcOk, Tree.Total, Tree.Value;
    assert SumOk(t, s, a) && PcOk(t, a, s.pc[a]);
    match s.pc[a] {
      case Add(i) => AddSum(t, s, a);
      case Leaf => LeafSum(t, s, a);
      case _ =>
    }
  }

  lemma AddSum(t: Tree, s: State, a: nat)
    requires Shape(t, s) && Barriers(t, s) && Sums(t, s) && a < t.n && s.pc[a].Add? && Enabled(t, s, a)
    requires Shape(t, Step(t, s, a))
    ensures SumOk(t, Step(t, s, a), a)
  {
    hide Barriers;
    assert PcOk(t, a, s.pc[a]) && SumOk(t, s, a);
    var i := s.pc[a].i;
    if i < t.n && t.IsKid(i, a) {
      KidsSettled(t, s, a, i);
    }
    TotalFromKids(t, a);
  }

  lemma LeafSum(t: Tree, s: State, a: nat)
    requires Shape(t, s) && a < t.n && s.pc[a].Leaf? && Enabled(t, s, a) && Shape(t, Step(t, s, a))
    ensures SumOk(t, Step(t, s, a), a)
  {
    assert PcOk(t, a, s.pc[a]);
    LeafAlone(t, a);
  }

  lemma StepSums(t: Tree, s: State, a: nat)
    requires Shape(t, s) && Barriers(t, s) && Sums(t, s) && Enabled(t, s, a) && Shape(t, Step(t, s, a)) && Joined(t, s)
    ensures Sums(t, Step(t, s, a))
  {
    hide Step, Enabled, Barriers, Joined, PcOk;
    forall x: nat | x < t.n
      ensures SumOk(t, Step(t, s, a), x)
    {
      if x == a {
        OwnSum(t, s, a);
      } else {
        assert SumOk(t, s, x);
        SumElsewhere(t, s, a, x);
        OthersStill(t, s, a, x);
      }
    }
  }

  lemma StepGone(t: Tree, s: State, a: nat)
    requires Shape(t, s) && Joined(t, s) && Enabled(t, s, a) && Shape(t, Step(t, s, a))
    ensures GoneSet(t, Step(t, s, a)) == GoneSet(t, s) + if a < t.n && s.pc[a].Exit? then {a} else {}
  {
    forall x: nat | x < t.n
      ensures Step(t, s, a).pc[x].Gone? <==> s.pc[x].Gone? || (x == a && s.pc[a].Exit?)
    {
      if x != a {
        hide Step;
        OthersStill(t, s, a, x);
      }
    }
  }

  /** When main is past its join, every node thread has exited. */
  lemma AllGone(t: Tree, s: State)
    requires Shape(t, s) && Joined(t, s) && Reading(s.main)
    ensures forall x: nat :: x < t.n ==> s.pc[x].Gone?
  {
    hide PcOk;
    BelowCount(t.n);
    SubsetCount(GoneSet(t, s), Below(t.n));
    forall x: nat | x < t.n
      ensures s.pc[x].Gone?
    {
      assert x in GoneSet(t, s);
    }
  }

  lemma StepFresh(t: Tree, s: State, a: nat)
    requires Shape(t, s) && Joined(t, s) && Enabled(t, s, a) && Shape(t, Step(t, s, a))
    ensures var s' := Step(t, s, a);
            forall x :: 0 <= x < t.n ==> (s'.pc[x].Fresh? <==> s'.main.Create? && s'.main.k <= x)
  {
    var s' := Step(t, s, a);
    if a < t.n {
      hide PcOk;
      assert s'.main == s.main;
      forall x | 0 <= x < t.n && x != a
        ensures s'.pc[x] == s.pc[x]
      {
      }
    } else {
      hide PcOk;
    }
  }

  /** main's semaphore gains a V for each exit, and loses n P's as main passes its join. */
  lemma JoinWords(t: Tree, s: State, a: nat)
    requires Shape(t, s) && Enabled(t, s, a)
    ensures var s' := Step(t, s, a);
            && s'.join + (if Reading(s'.main) then t.n else 0)
               == s.join + (if Reading(s.main) then t.n else 0) + (if a < t.n && s.pc[a].Exit? then 1 else 0)
            && (s'.join >= s.join || s'.join >= 0)
  {
    hide PcOk;
  }

  lemma StepJoin(t: Tree, s: State, a: nat)
    requires Shape(t, s) && Joined(t, s) && Enabled(t, s, a) && Shape(t, Step(t, s, a))
    ensures var s' := Step(t, s, a);
            s'.join >= 0 && s'.join + (if Reading(s'.main) then t.n else 0) == |GoneSet(t, s')|
  {
    hide PcOk, Tree.Total, Step, Enabled, Reading;
    JoinWords(t, s, a);
    StepGone(t, s, a);
    assert a < t.n && s.pc[a].Exit? ==> a !in GoneSet(t, s);
  }

  lemma StepRead(t: Tree, s: State, a: nat)
    requires Shape(t, s) && Joined(t, s) && Sums(t, s) && Enabled(t, s, a)
    ensures var m := Step(t, s, a).main;
            (m.Unlock? ==> m.v == t.Total(t.root)) && (m.Finished? ==> m.v == t.Total(t.root))
  {
    if a == t.n && s.main.Read? {
      RootReady(t, s);
    }
    hide PcOk, Sums, Tree.Total;
  }

  lemma RootReady(t: Tree, s: State)
    requires Shape(t, s) && Joined(t, s) && Sums(t, s) && s.main.Read?
    ensures s.sum[t.root] == t.Total(t.root)
  {
    AllGone(t, s);
    assert s.pc[t.root].Gone? && SumOk(t, s, t.root);
  }

  lemma StepJoined(t: Tree, s: State, a: nat)
    requires Shape(t, s) && Joined(t, s) && Sums(t, s) && Enabled(t, s, a) && Shape(t, Step(t, s, a))
    ensures Joined(t, Step(t, s, a))
  {
    hide Step, Enabled, Sums;
    StepFresh(t, s, a);
    StepJoin(t, s, a);
    StepRead(t, s, a);
  }

  lemma StepSafe(t: Tree, s: State, a: nat)
    requires Safe(t, s) && Enabled(t, s, a)
    ensures Safe(t, Step(t, s, a))
  {
    StepShape(t, s, a);
    hide Step, Enabled, PcOk, BarrierClosed, BarrierOpen;
    forall b | 0 <= b < t.n && Inner(t, b)
      ensures BarrierClosed(t, Step(t, s, a), b) || BarrierOpen(t, Step(t, s, a), b)
    {
      StepBarriers(t, s, a, b);
    }
    StepSums(t, s, a);
    StepJoined(t, s, a);
  }

  // ---------------------------------------------------------------- every run

  ghost predicate Run(t: Tree, r: seq<State>) {
    && |r| > 0 && Init(t, r[0])
    && forall i :: 0 <= i < |r| - 1 ==> Follows(t, r[i], r[i + 1])
  }

  ghost predicate Follows(t: Tree, s: State, s': State) {
    Shape(t, s) && exists a: nat :: Enabled(t, s, a) && s' == Step(t, s, a)
  }

  lemma {:induction false} RunSafe(t: Tree, r: seq<State>)
    requires Run(t, r)
    ensures Safe(t, r[|r| - 1])
  {
    hide Safe, Init, Step, Enabled;
    if |r| == 1 {
      InitSafe(t, r[0]);
    } else {
      RunSafe(t, r[..|r| - 1]);
      assert Follows(t, r[|r| - 2], r[|r| - 2 + 1]);
      var a: nat :| Enabled(t, r[|r| - 2], a) && r[|r| - 1] == Step(t, r[|r| - 2], a);
      StepSafe(t, r[|r| - 2], a);
    }
  }

  /** A leaf past its store holds the number typed for it. */
  lemma LeafHoldsInput(t: Tree, r: seq<State>, x: nat)
    requires Run(t, r) && x < t.n && |t.parent| == t.n && forall c :: 0 <= c < t.n ==> t.parent[c] != x
    ensures var s := r[|r| - 1];
            |s.pc| == |s.sum| == |t.input| == t.n && (Summed(s.pc[x]) ==> s.sum[x] == t.input[x])
  {
    RunSafe(t, r);
    NobodysParent(t, x);
    LeafAlone(t, x);
    hide Barriers, Joined, PcOk;
    assert SumOk(t, r[|r| - 1], x);
  }

  /** Under every schedule: a node that has summed holds the total of the leaf values below it: of the
      numbers typed at those nodes that are nobody's parent and from which following parents leads to it. */
  lemma NodeHoldsTotal(t: Tree, r: seq<State>, x: nat, v: seq<int>)
    requires Run(t, r) && x < t.n && t.Valid() && |v| == t.n
    requires forall y: nat :: y < t.n ==>
               v[y] == if (forall c :: 0 <= c < t.n ==> t.parent[c] != y) && (exists w :: Climbs(t, w, y, x))
                       then t.input[y] else 0
    ensures var s := r[|r| - 1];
            |s.pc| == |s.sum| == t.n && (Summed(s.pc[x]) ==> s.sum[x] == t.Total(x) == Counting.Sum(v))
  {
    RunSafe(t, r);
    TotalOfLeaves(t, x, v);
    hide Barriers, Joined, PcOk;
    assert SumOk(t, r[|r| - 1], x);
  }

  /** What main prints is the total of all leaf values, that is of the numbers typed at those nodes that are
      nobody's parent, read after every node thread has exited. */
  lemma MainPrintsLeafTotal(t: Tree, r: seq<State>, v: seq<int>)
    requires Run(t, r) && Reading(r[|r| - 1].main) && t.Valid() && |v| == t.n
    requires forall x :: 0 <= x < t.n ==>
               v[x] == if forall c :: 0 <= c < t.n ==> t.parent[c] != x then t.input[x] else 0
    ensures var s := r[|r| - 1];
            && |s.pc| == t.n
            && (forall x: nat :: x < t.n ==> s.pc[x].Gone?)
            && (s.main.Unlock? || s.main.Finished? ==> s.main.v == Counting.Sum(v))
  {
    RunSafe(t, r);
    AllGone(t, r[|r| - 1]);
    RootSumsAll(t, t.n);
    TotalOfAllLeaves(t, v);
    hide Barriers, Sums;
  }
}
