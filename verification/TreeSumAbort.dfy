/** When foothread_mutex_unlock can end the process: its late resets of tid and status hit the next owner.
    Some run aborts if and only if the tree has two inner nodes. */
module TreeSumAbort {
  import opened Counting
  import opened Shuffle
  import opened ThreadMutex
  import opened TreeGenerator
  import opened Trees
  import opened TreeSum
  import opened TreeSumProgress

  ghost predicate TwoInner(t: Tree)
    requires |t.children| == t.n
  {
    exists x: nat, y: nat :: x < y < t.n && Inner(t, x) && Inner(t, y)
  }

  // ---------------------------------------------------------------- at most one inner node: no abort

  /** The access a thread is at, counting the summing loop as the time before unlock. */
  function ThreadAccess(w: Thread): Access {
    if AtMutex(w) then w.c else if w.Clear? || w.Add? then TestOwner else Take
  }

  function MainAccess(m: Main): Access {
    if m.Lock? || m.Unlock? then m.c else if m.Read? then TestOwner else Take
  }

  /** Whoever is between lock and unlock still finds its own marks. */
  ghost predicate Owners(t: Tree, s: State)
    requires Shape(t, s)
  {
    && !s.dead
    && (forall x: nat :: x < t.n ==> OwnerOk(s.mutex, x, ThreadAccess(s.pc[x])))
    && OwnerOk(s.mutex, t.n, MainAccess(s.main))
  }

  lemma InitOwners(t: Tree, s: State)
    requires Init(t, s)
    ensures Owners(t, s)
  {
  }

  /** A thread's own step keeps its own marks. */
  lemma OwnStepOwner(t: Tree, s: State, a: nat)
    requires Shape(t, s) && Enabled(t, s, a) && a < t.n && Shape(t, Step(t, s, a))
    requires OwnerOk(s.mutex, a, ThreadAccess(s.pc[a]))
    ensures !Step(t, s, a).dead && Step(t, s, a).main == s.main
    ensures OwnerOk(Step(t, s, a).mutex, a, ThreadAccess(Step(t, s, a).pc[a]))
  {
    hide PcOk;
    if AtMutex(s.pc[a]) {
      OwnAccess(s.mutex, a, s.pc[a].c);
    }
  }

  /** A leaf never comes near the mutex. */
  lemma LeafOffMutex(t: Tree, s: State, a: nat)
    requires Shape(t, s) && Enabled(t, s, a) && a < t.n && !Inner(t, a)
    ensures Step(t, s, a).mutex == s.mutex
    ensures ThreadAccess(s.pc[a]).Take?
  {
    assert PcOk(t, a, s.pc[a]);
    hide PcOk;
  }

  lemma MainStepOwner(t: Tree, s: State)
    requires Shape(t, s) && Enabled(t, s, t.n) && Shape(t, Step(t, s, t.n))
    requires OwnerOk(s.mutex, t.n, MainAccess(s.main))
    ensures !Step(t, s, t.n).dead && OwnerOk(Step(t, s, t.n).mutex, t.n, MainAccess(Step(t, s, t.n).main))
    ensures Reading(s.main) || Step(t, s, t.n).mutex == s.mutex
    ensures Reading(s.main) ==> Step(t, s, t.n).pc == s.pc
  {
    hide PcOk;
    if s.main.Lock? || s.main.Unlock? {
      OwnAccess(s.mutex, t.n, s.main.c);
    }
  }

  lemma ThreadOwners(t: Tree, s: State, a: nat)
    requires Safe(t, s) && Owners(t, s) && !TwoInner(t) && Enabled(t, s, a) && a < t.n && Shape(t, Step(t, s, a))
    ensures Owners(t, Step(t, s, a))
  {
    hide Step, Enabled, Barriers, Sums, PcOk, OwnerOk, Joined;
    OwnStepOwner(t, s, a);
    var s' := Step(t, s, a);
    assert !Reading(s.main) by { ThreadsBeforeMain(t, s, a); }
    forall x: nat | x < t.n && x != a
      ensures OwnerOk(s'.mutex, x, ThreadAccess(s'.pc[x]))
    {
      OthersStill(t, s, a, x);
      if Inner(t, a) {
        OnlyOneUser(t, s, a, x);
        NoMarks(s'.mutex, x);
      } else {
        LeafOffMutex(t, s, a);
      }
    }
    assert MainAccess(s.main).Take?;
    NoMarks(s'.mutex, t.n);
  }

  lemma NoMarks(m: Mutex, who: int)
    ensures OwnerOk(m, who, Take)
  {
  }

  /** Once main is past its join no thread steps. */
  lemma ThreadsBeforeMain(t: Tree, s: State, a: nat)
    requires Shape(t, s) && Joined(t, s) && Enabled(t, s, a) && a < t.n
    ensures !Reading(s.main)
  {
    if Reading(s.main) {
      AllGone(t, s);
    }
  }

  lemma OnlyOneUser(t: Tree, s: State, a: nat, x: nat)
    requires Shape(t, s) && !TwoInner(t) && a < t.n && x < t.n && x != a && Inner(t, a)
    ensures ThreadAccess(s.pc[x]).Take? && !Inner(t, x)
  {
    assert PcOk(t, x, s.pc[x]);
    assert !Inner(t, x);
  }

  lemma MainOwners(t: Tree, s: State)
    requires Safe(t, s) && Owners(t, s) && Enabled(t, s, t.n) && Shape(t, Step(t, s, t.n))
    ensures Owners(t, Step(t, s, t.n))
  {
    hide Step, Enabled, Barriers, Sums, PcOk, OwnerOk;
    MainStepOwner(t, s);
    var s' := Step(t, s, t.n);
    forall x: nat | x < t.n
      ensures OwnerOk(s'.mutex, x, ThreadAccess(s'.pc[x]))
    {
      if Reading(s.main) {
        AllGone(t, s);
        NoMarks(s'.mutex, x);
      } else {
        OthersStill(t, s, t.n, x);
        assert s'.pc[x] != s.pc[x] ==> ThreadAccess(s.pc[x]).Take? && ThreadAccess(s'.pc[x]).Take?;
      }
    }
  }

  lemma {:induction false} RunOwners(t: Tree, r: seq<State>)
    requires Run(t, r) && !TwoInner(t)
    ensures Safe(t, r[|r| - 1]) && Owners(t, r[|r| - 1])
  {
    hide Init, Step, Enabled, Barriers, Sums, PcOk, Joined, Owners, TwoInner;
    RunSafe(t, r);
    if |r| == 1 {
      InitOwners(t, r[0]);
    } else {
      RunOwners(t, r[..|r| - 1]);
      assert Follows(t, r[|r| - 2], r[|r| - 2 + 1]);
      var a: nat :| Enabled(t, r[|r| - 2], a) && r[|r| - 1] == Step(t, r[|r| - 2], a);
      ActorLives(t, r[|r| - 2], a);
      if a < t.n {
        ThreadOwners(t, r[|r| - 2], a);
      } else {
        MainOwners(t, r[|r| - 2]);
      }
    }
  }

  /** With at most one inner node every schedule ends with the total of the leaves. */
  lemma OneInnerEndsWithTheTotal(t: Tree, r: seq<State>, v: seq<int>)
    requires Run(t, r) && !TwoInner(t) && t.Valid() && |v| == t.n
    requires forall x :: 0 <= x < t.n ==>
               v[x] == if forall c :: 0 <= c < t.n ==> t.parent[c] != x then t.input[x] else 0
    ensures Shape(t, r[|r| - 1]) && !r[|r| - 1].dead
    ensures Stuck(t, r[|r| - 1]) <==> r[|r| - 1].main == Finished(Counting.Sum(v))
  {
    hide Barriers, Sums, PcOk, Joined, Stuck;
    RunOwners(t, r);
    EveryRunEnds(t, r, v);
  }

  // ---------------------------------------------------------------- two inner nodes: some run aborts

  lemma Then(t: Tree, r: seq<State>, a: nat) returns (r': seq<State>)
    requires Run(t, r) && Shape(t, r[|r| - 1]) && Enabled(t, r[|r| - 1], a)
    ensures Run(t, r') && r'[|r'| - 1] == Step(t, r[|r| - 1], a)
  {
    hide Step, Enabled, Init, Shape;
    r' := r + [Step(t, r[|r| - 1], a)];
    forall i | 0 <= i < |r'| - 1
      ensures Follows(t, r'[i], r'[i + 1])
    {
      if i < |r| - 1 {
        assert Follows(t, r[i], r[i + 1]);
      }
    }
  }

  /** The thread has not got past the lock before its printing. */
  predicate NotPast(w: Thread) { !w.Exit? && !w.Gone? && (w.Print? ==> w.c.Take?) }

  /** An inner node's own steps lead it to that lock, not around it. */
  lemma StaysBefore(t: Tree, s: State, a: nat, x: nat)
    requires Shape(t, s) && Joined(t, s) && Enabled(t, s, a) && x < t.n && Inner(t, x) && NotPast(s.pc[x])
    requires a == x ==> !AtPrint(s.pc[x])
    ensures |Step(t, s, a).pc| == t.n && NotPast(Step(t, s, a).pc[x])
  {
    if a == x {
      assert PcOk(t, a, s.pc[a]);
      hide PcOk, Joined;
    } else {
      OthersStill(t, s, a, x);
      hide Step, Enabled, PcOk, Joined;
    }
  }

  /** A step of somebody who is not held at that lock. */
  lemma OthersFirst(t: Tree, r: seq<State>, x: nat, y: nat) returns (q: seq<State>)
    requires Run(t, r) && Inv(t, r[|r| - 1]) && x < t.n && y < t.n && Inner(t, x) && Inner(t, y)
    requires NotPast(r[|r| - 1].pc[x]) && NotPast(r[|r| - 1].pc[y]) && !StuckBut(t, r[|r| - 1], {x, y})
    ensures Run(t, q) && Shape(t, q[|q| - 1]) && Measure(t, q[|q| - 1]) < Measure(t, r[|r| - 1])
    ensures NotPast(q[|q| - 1].pc[x]) && NotPast(q[|q| - 1].pc[y])
  {
    var s := r[|r| - 1];
    hide Step, Enabled, Barriers, Sums, PcOk, Joined, Measure, Exclusive, Run, NotPast;
    var a: nat :| a <= t.n && Enabled(t, s, a) && !(a < t.n && a in {x, y} && AtPrint(s.pc[a]));
    q := Then(t, r, a);
    StepShape(t, s, a);
    StepMeasure(t, s, a);
    StaysBefore(t, s, a, x);
    StaysBefore(t, s, a, y);
  }

  lemma BothHeld(t: Tree, s: State, x: nat, y: nat)
    requires Inv(t, s) && !s.dead && x < t.n && y < t.n && StuckBut(t, s, {x, y})
    requires NotPast(s.pc[x]) && NotPast(s.pc[y])
    ensures AtPrint(s.pc[x]) && AtPrint(s.pc[y]) && s.mutex.sem > 0
  {
    hide Barriers, Sums, PcOk, Joined, Exclusive, StuckBut;
    OnlyHeld(t, s, {x, y});
  }

  /** Letting everybody else go first, two inner nodes end up at that lock together, unless the process
      has aborted on the way. */
  lemma BothAtPrint(t: Tree, r: seq<State>, x: nat, y: nat) returns (r': seq<State>)
    requires Run(t, r) && x < t.n && y < t.n && Shape(t, r[|r| - 1]) && Inner(t, x) && Inner(t, y)
    requires NotPast(r[|r| - 1].pc[x]) && NotPast(r[|r| - 1].pc[y])
    ensures Run(t, r') && Shape(t, r'[|r'| - 1])
    ensures var s := r'[|r'| - 1]; s.dead || (AtPrint(s.pc[x]) && AtPrint(s.pc[y]) && s.mutex.sem > 0)
    decreases Measure(t, r[|r| - 1])
  {
    hide Inv, Measure, PcOk, StuckBut, NotPast, AtPrint, MainOk;
    var s := r[|r| - 1];
    hide Run;
    MeasureNonNegative(t, s);
    RunInv(t, r);
    if s.dead {
      r' := r;
    } else if StuckBut(t, s, {x, y}) {
      BothHeld(t, s, x, y);
      r' := r;
    } else {
      var q := OthersFirst(t, r, x, y);
      r' := BothAtPrint(t, q, x, y);
    }
  }

  /** A surviving access of a thread about to print. */
  lemma ThenAccess(t: Tree, r: seq<State>, a: nat) returns (r': seq<State>)
    requires Run(t, r) && Shape(t, r[|r| - 1]) && !r[|r| - 1].dead && a < t.n
    requires var s := r[|r| - 1]; s.pc[a].Print? && CanAccess(s.mutex, s.pc[a].c) && !s.pc[a].c.ClearStatus?
    ensures Run(t, r') && Shape(t, r'[|r'| - 1])
    ensures var s, c := r[|r| - 1], r[|r| - 1].pc[a].c;
            r'[|r'| - 1] == if Fails(s.mutex, a, c) then s.(dead := true)
                            else s.(mutex := Accessed(s.mutex, a, c), pc := s.pc[a := Print(Next(c))])
  {
    var s := r[|r| - 1];
    hide Run, PcOk;
    r' := Then(t, r, a);
    StepShape(t, s, a);
  }

  /** x locks, prints and gives the mutex back. */
  lemma LockAndGive(t: Tree, r: seq<State>, x: nat) returns (r': seq<State>)
    requires Run(t, r) && Shape(t, r[|r| - 1]) && !r[|r| - 1].dead && x < t.n
    requires AtPrint(r[|r| - 1].pc[x]) && r[|r| - 1].mutex.sem > 0
    ensures Run(t, r') && Shape(t, r'[|r'| - 1])
    ensures var s := r[|r| - 1];
            r'[|r'| - 1] == s.(mutex := Mutex(s.mutex.sem, x, 1), pc := s.pc[x := Print(ClearOwner)])
  {
    hide Run, PcOk;
    r' := ThenAccess(t, r, x);
    r' := ThenAccess(t, r', x);
    r' := ThenAccess(t, r', x);
    r' := ThenAccess(t, r', x);
    r' := ThenAccess(t, r', x);
    r' := ThenAccess(t, r', x);
  }

  /** The run that aborts: x gives the mutex back; y locks it; x clears the owner's id, which is now y's;
      y finds itself not the owner. */
  lemma OwnerErased(t: Tree, r: seq<State>, x: nat, y: nat) returns (r': seq<State>)
    requires Run(t, r) && Shape(t, r[|r| - 1]) && !r[|r| - 1].dead && x < t.n && y < t.n && x != y
    requires AtPrint(r[|r| - 1].pc[x]) && AtPrint(r[|r| - 1].pc[y]) && r[|r| - 1].mutex.sem > 0
    ensures Run(t, r') && r'[|r'| - 1].dead
  {
    hide Run, PcOk;
    r' := LockAndGive(t, r, x);
    r' := ThenAccess(t, r', y);
    r' := ThenAccess(t, r', y);
    r' := ThenAccess(t, r', y);
    r' := ThenAccess(t, r', x);
    r' := ThenAccess(t, r', y);
  }

  lemma StartOf(t: Tree) returns (s: State)
    requires t.Valid()
    ensures Init(t, s)
  {
    var zeros := seq(t.n, _ => 0);
    s := State(zeros, zeros, zeros, 1, Mutex(1, -1, 0), 0, false, seq(t.n, _ => Fresh), Create(0));
  }

  lemma CanAbort(t: Tree, x: nat, y: nat) returns (r: seq<State>)
    requires t.Valid() && x < y < t.n && Inner(t, x) && Inner(t, y)
    ensures Run(t, r) && r[|r| - 1].dead
  {
    var s := StartOf(t);
    r := BothAtPrint(t, [s], x, y);
    if !r[|r| - 1].dead {
      r := OwnerErased(t, r, x, y);
    }
  }

  /** Some run of the program ends in exit(EXIT_FAILURE). */
  ghost predicate MayAbort(t: Tree) {
    exists r: seq<State> :: Run(t, r) && r[|r| - 1].dead
  }

  /** In terms of the parent array: two nodes have different parents. */
  lemma TwoParents(t: Tree)
    requires t.Valid()
    ensures TwoInner(t) <==>
              exists c, d :: 0 <= c < t.n && 0 <= d < t.n && c != t.root && d != t.root && t.parent[c] != t.parent[d]
  {
    if TwoInner(t) {
      var x: nat, y: nat :| x < y < t.n && Inner(t, x) && Inner(t, y);
      NobodysParent(t, x);
      NobodysParent(t, y);
      var c :| 0 <= c < t.n && t.parent[c] == x;
      var d :| 0 <= d < t.n && t.parent[d] == y;
      assert c != t.root && d != t.root && t.parent[c] != t.parent[d];
    }
    if c, d :| 0 <= c < t.n && 0 <= d < t.n && c != t.root && d != t.root && t.parent[c] != t.parent[d] {
      var x: nat, y: nat := t.parent[c], t.parent[d];
      NobodysParent(t, x);
      NobodysParent(t, y);
      assert Inner(t, x) && Inner(t, y) && (x < y || y < x);
    }
  }

  lemma AbortsIffTwoInnerNodes(t: Tree)
    requires t.Valid()
    ensures (exists r: seq<State> :: Run(t, r) && r[|r| - 1].dead)
       <==> exists c, d :: 0 <= c < t.n && 0 <= d < t.n && c != t.root && d != t.root && t.parent[c] != t.parent[d]
    ensures MayAbort(t) <==> TwoInner(t)
  {
    TwoParents(t);
    if TwoInner(t) {
      var x: nat, y: nat :| x < y < t.n && Inner(t, x) && Inner(t, y);
      var r := CanAbort(t, x, y);
    }
    if MayAbort(t) && !TwoInner(t) {
      var r: seq<State> :| Run(t, r) && r[|r| - 1].dead;
      RunOwners(t, r);
    }
  }

  /** Every generated tree of seven nodes or more has two inner nodes: at most five children each. */
  lemma GeneratedTreesMayAbort(P: seq<int>, perm: seq<int>, up: seq<nat>, t: Tree)
    requires t.Valid() && t.n >= 7 && |P| == t.n && Permutation(perm, t.n) && t.root == perm[0]
    requires Hangs(P, perm, up, t.n) && BreadthFirst(up)
    requires forall v :: 0 <= v < t.n && v != t.root ==> t.parent[v] == P[v]
    ensures MayAbort(t)
  {
    var p := HasChild(P, perm, up, t, 1);
    var q := HasChild(P, perm, up, t, 6);
    assert up[1] < up[6];
    assert TwoInner(t) by {
      assert p < q || q < p;
    }
    AbortsIffTwoInnerNodes(t);
  }

  lemma HasChild(P: seq<int>, perm: seq<int>, up: seq<nat>, t: Tree, c: nat) returns (p: nat)
    requires t.Valid() && 1 <= c < t.n && |P| == t.n && Permutation(perm, t.n) && t.root == perm[0]
    requires Hangs(P, perm, up, t.n)
    requires forall v :: 0 <= v < t.n && v != t.root ==> t.parent[v] == P[v]
    ensures p < t.n && p == perm[up[c]] && Inner(t, p)
  {
    p := perm[up[c]];
    var v: nat := perm[c];
    assert v in t.Kids(p);
  }
}
