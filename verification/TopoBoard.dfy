/** The shared memory and semaphores that boss and workers update in place. */
module TopoBoard {
  import opened Counting
  import opened Graphs
  import opened TopoProtocol
  import opened TopoSafety
  import opened TopoChecker
  import opened TopoCompletion
  import opened TopoVerdict

  class Board {
    const n: nat
    ghost const g: Graph
    const A: array<int>
    const T: array<int>
    const sync: array<int>
    const pc: array<Worker>
    var idx: int
    var mtx: int
    var ntfy: int
    var boss: Boss

    ghost predicate Valid()
      reads this, A, T, sync, pc
    {
      && g.Valid() && g.n == n <= 100
      && HoldsMatrix(A[..], g)
      && T.Length == sync.Length == pc.Length == n
      && A != T && A != sync && T != sync
      && Inv(g, View())
    }

    /** The protocol state that the memory holds. */
    ghost function View(): State
      reads this, T, sync, pc
    {
      State(T[..], idx, mtx, ntfy, sync[..], pc[..], boss)
    }

    /** boss.c up to the notify loop: semaphores set, *idx cleared, T left as it is. */
    constructor (n: nat, A: array<int>, T: array<int>, ghost g: Graph)
      requires g.Valid() && g.n == n <= 100 && A != T
      requires HoldsMatrix(A[..], g) && T.Length == n
      ensures Valid() && Init(this.g, View())
      ensures this.n == n && this.g == g && this.A == A && this.T == T && fresh(sync) && fresh(pc)
    {
      this.n, this.g, this.A, this.T := n, g, A, T;
      sync := new int[n](_ => 0);
      pc := new Worker[n](_ => Wait(0));
      idx, mtx, ntfy, boss := 0, 1, 0, Collect(0);
      new;
      InitInv(g, View());
    }

    /** The two tests `A[u * n + v] == 1 && u != v` of worker.c. */
    method HasArc(u: nat, v: nat) returns (arc: bool)
      requires Valid() && u < n && v < n
      ensures arc == g.Arc(u, v)
    {
      CellHolds(A[..], g, u, v);
      arc := A[u * n + v] == 1 && u != v;
    }

    /** One turn of the loop of P's, or the P on the mutex after it (worker.c:65-72). */
    method WaitStep(id: nat)
      requires Valid() && id < n && pc[id].Wait? && Enabled(g, View(), id)
      modifies this, sync, pc
      ensures View() == Step(g, old(View()), id)
    {
      hide Balanced, Exclusive, Listed, Pending, Safe, Notified;
      var i := pc[id].i;
      if i < n {
        var arc := HasArc(i, id);
        if arc {
          sync[id] := sync[id] - 1;
        }
        pc[id] := Wait(i + 1);
      } else {
        mtx := mtx - 1;
        pc[id] := Write;
      }
    }

    /** One access of the critical section, or the V that ends it (worker.c:73-75). */
    method SectionStep(id: nat)
      requires Valid() && id < n && InSection(pc[id])
      modifies this, T, pc
      ensures View() == Step(g, old(View()), id)
    {
      match pc[id] {
        case Write =>
          T[idx] := id;
          pc[id] := Load;
        case Load =>
          pc[id] := Store(idx);
        case Store(r) =>
          idx := r + 1;
          pc[id] := Leave;
        case Leave =>
          mtx := mtx + 1;
          pc[id] := Signal(0);
      }
    }

    /** One turn of the loop of V's, or the V on the notify semaphore (worker.c:78-85). */
    method SignalStep(id: nat)
      requires Valid() && id < n && pc[id].Signal?
      modifies this, sync, pc
      ensures View() == Step(g, old(View()), id)
    {
      hide Balanced, Exclusive, Listed, Pending, Safe, Notified;
      var i := pc[id].i;
      if i < n {
        var arc := HasArc(id, i);
        if arc {
          sync[i] := sync[i] + 1;
        }
        pc[id] := Signal(i + 1);
      } else {
        ntfy := ntfy + 1;
        pc[id] := Done;
      }
    }

    /** The next action of worker id. */
    method WorkerStep(id: nat)
      requires Valid() && id < n && Enabled(g, View(), id)
      modifies this, T, sync, pc
      ensures Valid() && View() == Step(g, old(View()), id)
    {
      StepInv(g, View(), id);
      if pc[id].Wait? {
        WaitStep(id);
      } else if pc[id].Signal? {
        SignalStep(id);
      } else {
        SectionStep(id);
      }
    }

    /** The boss's P on the notify semaphore, or after n of them the check of T. */
    method BossStep()
      requires Valid() && Enabled(g, View(), n)
      modifies this
      ensures Valid() && View() == Step(g, old(View()), n)
    {
      ghost var s := View();
      StepInv(g, s, n);
      if boss.k < n {
        ntfy := ntfy - 1;
        boss := Collect(boss.k + 1);
      } else {
        Complete(g, s);
        var r := IsTopologicalSortValid(A, T, n, g);
        boss := Judged(r == 1);
      }
    }

    /** Whether actor a can step, from the words it reads. */
    method CanStep(a: nat) returns (yes: bool)
      requires Valid() && a <= n
      ensures yes == Enabled(g, View(), a)
    {
      if a == n {
        return boss.Collect? && (boss.k < n ==> ntfy > 0);
      }
      match pc[a] {
        case Wait(i) =>
          if i < n {
            var arc := HasArc(i, a);
            yes := !arc || sync[a] > 0;
          } else {
            yes := mtx > 0;
          }
        case Done => yes := false;
        case _ => yes := true;
      }
    }
  }
}
