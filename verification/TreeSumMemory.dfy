/** The shared words that the node threads and main update in place. */
module TreeSumMemory {
  import opened ThreadMutex
  import opened Trees
  import opened TreeSum
  import opened TreeSumProgress

  class Memory {
    ghost const t: Tree
    const n: nat
    const root: nat
    const parent: array<int>
    const children: array<nat>
    const value: array<int>
    const sum: array<int>
    const reached: array<int>
    const sem: array<int>
    const pc: array<Thread>
    var bmtx: int
    var mutexSem: int
    var mutexTid: int
    var mutexStatus: int
    var join: int
    var dead: bool
    var main: Main

    ghost predicate Layout()
      reads parent, children, value
    {
      && t.Valid() && t.n == n && t.root == root
      && parent.Length == children.Length == value.Length == n
      && sum.Length == reached.Length == sem.Length == pc.Length == n
      && parent[..] == t.parent && children[..] == t.children
      && (forall x :: 0 <= x < n ==> value[x] == t.Value(x))
      && sum !in {parent, value, reached, sem} && reached !in {parent, value, sem} && sem !in {parent, value}
    }

    ghost function View(): State
      reads this, sum, reached, sem, pc
    {
      State(sum[..], reached[..], sem[..], bmtx, TheMutex(), join, dead, pc[..], main)
    }

    function TheMutex(): Mutex
      reads this
    {
      Mutex(mutexSem, mutexTid, mutexStatus)
    }

    ghost predicate Valid()
      reads this, parent, children, value, sum, reached, sem, pc
    {
      Layout() && Inv(t, View())
    }

    /** main up to the loop that creates the threads: leaves hold the numbers typed, inner nodes 0. */
    constructor (ghost t: Tree, root: nat, parent: array<int>, children: array<nat>, input: seq<int>)
      requires t.Valid() && t.root == root && parent[..] == t.parent && children[..] == t.children && t.input == input
      ensures Valid() && Init(this.t, View()) && this.t == t
      ensures value.Length == children.Length == |input|
      ensures forall x :: 0 <= x < children.Length ==> value[x] == if children[x] == 0 then input[x] else 0
    {
      hide Safe, Exclusive;
      assert t.n == |t.children|;
      this.t, this.n, this.root, this.parent, this.children := t, children.Length, root, parent, children;
      value := new int[children.Length](
        x requires 0 <= x < children.Length && |input| == children.Length reads children =>
          if children[x] == 0 then input[x] else 0);
      sum := new int[children.Length](_ => 0);
      reached := new int[children.Length](_ => 0);
      sem := new int[children.Length](_ => 0);
      pc := new Thread[children.Length](_ => Fresh);
      bmtx, join, dead, main := 1, 0, false, Create(0);
      mutexSem, mutexTid, mutexStatus := 1, -1, 0;
      new;
      InitSafe(t, View());
      InitExclusive(t, View());
    }

    /** foothread_barrier_wait, one step (foothread.c:342-367). */
    method BarrierStep(x: nat)
      requires Layout() && Shape(t, View()) && x < n && AtBarrier(pc[x]) && Enabled(t, View(), x)
      modifies this, reached, sem, pc
      ensures View() == Step(t, old(View()), x)
    {
      hide PcOk;
      assert PcOk(t, x, pc[..][x]) && 0 <= Barrier(t, x, pc[x].own) < n by { OwnBarrier(x); }
      var own := pc[x].own;
      var b := if own then x else parent[x];
      assert b == Barrier(t, x, own);
      match pc[x] {
        case Enter(_) =>
          bmtx := bmtx - 1;
          pc[x] := Count(own);
        case Count(_) =>
          reached[b] := reached[b] + 1;
          pc[x] := Leave(own, reached[b] == 1 + children[b]);
        case Leave(_, last) =>
          bmtx := bmtx + 1;
          pc[x] := if last then Release(own) else Block(own);
        case Release(_) =>
          sem[b] := sem[b] + 1 + children[b];
          pc[x] := Reset(own);
        case Reset(_) =>
          reached[b] := 0;
          pc[x] := Block(own);
        case Block(_) =>
          sem[b] := sem[b] - 1;
          pc[x] := if own then Sum(Take) else if children[x] > 0 then Print(Take) else Exit;
      }
    }

    lemma OwnBarrier(x: nat)
      requires Layout() && Shape(t, View()) && x < n && AtBarrier(pc[x])
      ensures PcOk(t, x, pc[..][x]) && 0 <= Barrier(t, x, pc[x].own) < n
    {
      assert PcOk(t, x, View().pc[x]);
    }

    /** One access of foothread_mutex_lock or _unlock (foothread.c:265-293); ok is false when it is a
        test that fails and ends the process. */
    method MutexAccess(who: int, c: Access) returns (ok: bool)
      modifies this`mutexSem, this`mutexTid, this`mutexStatus, this`dead
      ensures ok == !Fails(old(TheMutex()), who, c)
      ensures TheMutex() == if ok then Accessed(old(TheMutex()), who, c) else old(TheMutex())
      ensures dead == if ok then old(dead) else true
    {
      ok := true;
      match c {
        case Take => mutexSem := mutexSem - 1;
        case SetOwner => mutexTid := who;
        case SetStatus => mutexStatus := 1;
        case TestOwner =>
          if mutexTid != who {
            dead, ok := true, false;
          }
        case TestStatus =>
          if mutexStatus == 0 {
            dead, ok := true, false;
          }
        case Give => mutexSem := mutexSem + 1;
        case ClearOwner => mutexTid := -1;
        case ClearStatus => mutexStatus := 0;
      }
    }

    /** An access of the mutex by a node thread. */
    method LockStep(x: nat)
      requires Layout() && Shape(t, View()) && x < n && AtMutex(pc[x]) && Enabled(t, View(), x)
      modifies this, pc
      ensures View() == Step(t, old(View()), x)
    {
      hide PcOk;
      var w := pc[x];
      var ok := MutexAccess(x, w.c);
      if ok {
        pc[x] := AfterAccessOf(x, w);
      }
    }

    function AfterAccessOf(x: nat, w: Thread): (w': Thread)
      requires Layout() && x < n && AtMutex(w)
      reads parent, children, value
      ensures w' == AfterAccess(t, x, w)
    {
      if w.Sum? && w.c.SetStatus? then Clear
      else if w.Sum? && w.c.ClearStatus? then AfterSumOf(x)
      else if w.Sum? then Sum(Next(w.c))
      else if w.c.ClearStatus? then Exit
      else Print(Next(w.c))
    }

    function AfterSumOf(x: nat): (w: Thread)
      requires Layout() && x < n
      reads parent, children, value
      ensures w == AfterSum(t, x)
    {
      assert parent[x] == parent[..][x] && children[x] == children[..][x];
      if parent[x] != -1 then Enter(false) else if children[x] > 0 then Print(Take) else Exit
    }

    /** The sum, once the mutex is locked, or the leaf's own value (computesum.c:110-127). */
    method SumStep(x: nat)
      requires Layout() && Shape(t, View()) && x < n && Stage(pc[x]) == 2 && !AtMutex(pc[x]) && Enabled(t, View(), x)
      modifies sum, pc
      ensures View() == Step(t, old(View()), x)
    {
      assert PcOk(t, x, View().pc[x]);
      match pc[x] {
        case Clear =>
          sum[x] := value[x];
          pc[x] := Add(0);
        case Add(i) =>
          if i >= n {
            pc[x] := Sum(TestOwner);
          } else {
            if parent[i] == x {
              sum[x] := sum[x] + sum[i];
            }
            pc[x] := Add(i + 1);
          }
        case Leaf =>
          var after := AfterSumOf(x);
          sum[x] := value[x];
          pc[x] := after;
      }
    }

    /** A node thread's next action. */
    method ThreadStep(x: nat)
      requires Valid() && x < n && Enabled(t, View(), x)
      modifies this, sum, reached, sem, pc
      ensures Valid() && View() == Step(t, old(View()), x)
    {
      hide Inv;
      StepInv(t, View(), x);
      assert Shape(t, View()) by { InvShape(); }
      hide PcOk;
      if AtBarrier(pc[x]) {
        BarrierStep(x);
      } else if AtMutex(pc[x]) {
        LockStep(x);
      } else if pc[x].Exit? {
        join := join + 1;
        pc[x] := Gone;
      } else {
        SumStep(x);
      }
    }

    lemma InvShape()
      requires Valid()
      ensures Shape(t, View())
    {
    }

    /** main: create, join, then read the root's sum under the mutex (computesum.c:54-78). */
    method MainStep()
      requires Valid() && Enabled(t, View(), n)
      modifies this, pc
      ensures Valid() && View() == Step(t, old(View()), n)
    {
      hide Inv;
      StepInv(t, View(), n);
      assert Shape(t, View()) by { InvShape(); }
      hide PcOk;
      match main {
        case Create(k) =>
          if k >= n {
            main := Join;
          } else {
            pc[k] := if children[k] > 0 then Enter(true) else Leaf;
            main := Create(k + 1);
          }
        case Join =>
          join := join - n;
          main := Lock(Take);
        case Lock(c) =>
          var ok := MutexAccess(n, c);
          if ok {
            main := MainAfterAccess(main);
          }
        case Read =>
          main := Unlock(TestOwner, sum[root]);
        case Unlock(c, _) =>
          var ok := MutexAccess(n, c);
          if ok {
            main := MainAfterAccess(main);
          }
      }
    }
  }
}
