/** Boss and workers as a state machine: one step is one semaphore operation, one access to a shared
    word, or one local loop test. Actors 0..n-1 are the workers, actor n is the boss. */
module TopoProtocol {
  import opened Counting
  import opened Graphs
  import opened TopoVerdict

  /** Where a worker stands. Wait(n) is the P on the mutex, Signal(n) the V on the notify semaphore. */
  datatype Worker =
    | Wait(i: nat)     // loop of P's on its own semaphore
    | Write            // holds the mutex, T[*idx] = id comes next
    | Load             // (*idx)++ reads *idx next
    | Store(r: int)    // ... and writes r + 1 back next
    | Leave            // V on the mutex next
    | Signal(i: nat)   // loop of V's on its successors' semaphores
    | Done

  datatype Boss = Collect(k: nat) | Judged(ok: bool)

  datatype State = State(t: seq<int>, idx: int, mtx: int, ntfy: int, sync: seq<int>, pc: seq<Worker>, boss: Boss)

  predicate InSection(w: Worker) { w.Write? || w.Load? || w.Store? || w.Leave? }

  predicate Published(w: Worker) { w.Leave? || w.Signal? || w.Done? }

  /** The worker's loop of P's has gone past index u. */
  predicate Consumed(w: Worker, u: nat) { w.Wait? ==> u < w.i }

  /** The worker's loop of V's has gone past index v. */
  predicate Sent(w: Worker, v: nat) { w.Done? || (w.Signal? && v < w.i) }

  predicate Shape(g: Graph, s: State) {
    && g.Valid()
    && |s.t| == |s.sync| == |s.pc| == g.n
    && (forall j :: 0 <= j < g.n ==>
          && (s.pc[j].Wait? ==> s.pc[j].i <= g.n)
          && (s.pc[j].Signal? ==> s.pc[j].i <= g.n)
          && (s.pc[j].Write? ==> 0 <= s.idx < g.n))
    && (s.boss.Collect? ==> s.boss.k <= g.n)
  }

  predicate Enabled(g: Graph, s: State, a: nat)
    requires Shape(g, s)
  {
    if a < g.n then
      match s.pc[a]
      case Wait(i) => if i < g.n then g.Arc(i, a) ==> s.sync[a] > 0 else s.mtx > 0
      case Done => false
      case _ => true
    else
      a == g.n && s.boss.Collect? && (s.boss.k < g.n ==> s.ntfy > 0)
  }

  function Step(g: Graph, s: State, a: nat): State
    requires Shape(g, s) && Enabled(g, s, a)
  {
    if a < g.n then
      match s.pc[a]
      case Wait(i) =>
        if i == g.n then s.(mtx := s.mtx - 1, pc := s.pc[a := Write])
        else s.(sync := if g.Arc(i, a) then s.sync[a := s.sync[a] - 1] else s.sync, pc := s.pc[a := Wait(i + 1)])
      case Write => s.(t := s.t[s.idx := a], pc := s.pc[a := Load])
      case Load => s.(pc := s.pc[a := Store(s.idx)])
      case Store(r) => s.(idx := r + 1, pc := s.pc[a := Leave])
      case Leave => s.(mtx := s.mtx + 1, pc := s.pc[a := Signal(0)])
      case Signal(i) =>
        if i == g.n then s.(ntfy := s.ntfy + 1, pc := s.pc[a := Done])
        else s.(sync := if g.Arc(a, i) then s.sync[i := s.sync[i] + 1] else s.sync, pc := s.pc[a := Signal(i + 1)])
    else if s.boss.k < g.n then s.(ntfy := s.ntfy - 1, boss := Collect(s.boss.k + 1))
    else s.(boss := Judged(Accepts(g, s.t)))
  }

  /** What boss.c leaves behind before the first worker starts; T holds anything. */
  predicate Init(g: Graph, s: State) {
    && Shape(g, s)
    && s.idx == 0 && s.mtx == 1 && s.ntfy == 0 && s.boss == Collect(0)
    && forall j :: 0 <= j < g.n ==> s.sync[j] == 0 && s.pc[j] == Wait(0)
  }

  // ---------------------------------------------------------------- the invariant

  ghost function ConsumedFrom(g: Graph, s: State, j: nat): set<nat>
    requires Shape(g, s) && j < g.n
  {
    set u: nat | u in g.Ins(j) && Consumed(s.pc[j], u)
  }

  ghost function SentTo(g: Graph, s: State, j: nat): set<nat>
    requires Shape(g, s) && j < g.n
  {
    set u: nat | u in g.Ins(j) && Sent(s.pc[u], j)
  }

  ghost function PublishedSet(g: Graph, s: State): set<nat>
    requires Shape(g, s)
  {
    set u: nat | u in Below(g.n) && Published(s.pc[u])
  }

  ghost function DoneSet(g: Graph, s: State): set<nat>
    requires Shape(g, s)
  {
    set u: nat | u in Below(g.n) && s.pc[u].Done?
  }

  function Collected(g: Graph, b: Boss): nat {
    if b.Collect? then b.k else g.n
  }

  /** Each sync semaphore holds the signals sent and not yet taken. */
  ghost predicate Balanced(g: Graph, s: State)
    requires Shape(g, s)
  {
    forall j :: 0 <= j < g.n ==>
      s.sync[j] >= 0 && s.sync[j] + |ConsumedFrom(g, s, j)| == |SentTo(g, s, j)|
  }

  ghost predicate Exclusive(g: Graph, s: State)
    requires Shape(g, s)
  {
    && (s.mtx == 0 || s.mtx == 1)
    && (s.mtx == 0 ==> exists j :: 0 <= j < g.n && InSection(s.pc[j]))
    && (forall j :: 0 <= j < g.n && InSection(s.pc[j]) ==> s.mtx == 0)
    && (forall i, j :: 0 <= i < g.n && 0 <= j < g.n && InSection(s.pc[i]) && InSection(s.pc[j]) ==> i == j)
  }

  /** The filled part of T lists the published workers, each once. */
  ghost predicate Listed(g: Graph, s: State)
    requires Shape(g, s)
  {
    && 0 <= s.idx <= g.n
    && Distinct(s.t[..s.idx])
    && Members(s.t[..s.idx]) == PublishedSet(g, s)
  }

  /** A worker between its write to T and its store to *idx still sees its own entry at *idx. */
  ghost predicate Pending(g: Graph, s: State)
    requires Shape(g, s)
  {
    && (forall j :: 0 <= j < g.n && (s.pc[j].Load? || s.pc[j].Store?) ==> 0 <= s.idx < g.n && s.t[s.idx] == j)
    && (forall j :: 0 <= j < g.n && s.pc[j].Store? ==> s.pc[j].r == s.idx)
  }

  /** Topological safety: a listed vertex has all its in-neighbours listed before it. */
  ghost predicate Safe(g: Graph, s: State)
    requires Shape(g, s) && 0 <= s.idx <= g.n
  {
    forall p: nat, u: nat :: p < s.idx && 0 <= s.t[p] && g.Arc(u, s.t[p]) ==> u in s.t[..p]
  }

  ghost predicate Notified(g: Graph, s: State)
    requires Shape(g, s)
  {
    && s.ntfy >= 0
    && s.ntfy + Collected(g, s.boss) == |DoneSet(g, s)|
    && (s.boss.Judged? ==> s.boss.ok == Accepts(g, s.t))
  }

  ghost predicate Inv(g: Graph, s: State) {
    Shape(g, s) && Balanced(g, s) && Exclusive(g, s) && Listed(g, s) && Pending(g, s) && Safe(g, s) && Notified(g, s)
  }
}
