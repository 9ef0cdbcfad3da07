/** session.c: assistant, doctor and visitor threads around the flags doctor_free, doctor_enter,
    doctor_met and doctor_done. One step is one guarded wait, one flag update or one read of
    current_time; a condition wait is a guard on its flag. */
module Handshake {

  /** A visitor thread: class 0, 1 or 2 (reporter, patient, sales representative) and token. */
  datatype Who = Who(k: nat, token: int)

  datatype Visitor =
    | Waiting               // until its token is current
    | AtDoor                // until doctor_enter
    | Inside                // prints current_time next
    | Half(a: int)          // prints current_time + duration next
    | Told(a: int, b: int)  // sets doctor_met next
    | Out(a: int, b: int)

  datatype Assistant = Idle | Freed | AwaitDone(w: Who) | Over | Dismissing | Ended

  datatype Doctor = WaitFree | Look | Announce | AwaitMet | Report | Leave | Gone

  datatype State = State(
    now: int, free: bool, enter: bool, met: bool, done: bool, over: bool,
    cur: seq<int>, admitted: seq<int>,
    duration: map<Who, int>, start: map<Who, int>, vis: map<Who, Visitor>,
    asst: Assistant, doc: Doctor)

  datatype Action =
    | Tick(t: int)              // current_time = next.time
    | Admit(k: nat, d: int)     // a visitor thread is created
    | Free                      // doctor_free = true, somebody waits
    | Call(k: nat)              // current_x++
    | Ack                       // doctor_done seen and cleared
    | SessionOver               // session_done = true in the loop
    | Dismiss                   // doctor_free = true for the last time
    | Close                     // after the loop
    | DoctorStep
    | VisitorStep(w: Who)

  predicate SomebodyWaits(s: State) {
    |s.cur| == |s.admitted| == 3 && (s.cur[0] < s.admitted[0] || s.cur[1] < s.admitted[1] || s.cur[2] < s.admitted[2])
  }

  predicate Enabled(s: State, a: Action)
    requires |s.cur| == |s.admitted| == 3
  {
    match a
    case Tick(_) => s.asst.Idle?
    case Admit(k, d) => s.asst.Idle? && !s.over && k < 3
    case Free => s.asst.Idle? && SomebodyWaits(s)
    case Call(k) =>
      s.asst.Freed? && k < 3 && s.cur[k] < s.admitted[k] && forall h :: 0 <= h < k ==> s.cur[h] >= s.admitted[h]
    case Ack => (s.asst.AwaitDone? || s.asst.Dismissing?) && s.done
    case SessionOver => s.asst.Idle? && !s.over && !SomebodyWaits(s)
    case Dismiss => s.asst.Over?
    case Close => s.asst.Idle? && !SomebodyWaits(s)
    case DoctorStep =>
      (match s.doc
       case WaitFree => s.free
       case AwaitMet => s.met
       case Gone => false
       case _ => true)
    case VisitorStep(w) =>
      w in s.vis && w in s.duration && w.k < 3 &&
      (match s.vis[w]
       case Waiting => w.token == s.cur[w.k]
       case AtDoor => s.enter
       case Out(_, _) => false
       case _ => true)
  }

  function Admitting(s: State, k: nat, d: int): State
    requires |s.admitted| == 3 && k < 3
  {
    var w := Who(k, s.admitted[k] + 1);
    s.(admitted := s.admitted[k := s.admitted[k] + 1], vis := s.vis[w := Waiting], duration := s.duration[w := d])
  }

  function Calling(s: State, k: nat): State
    requires |s.cur| == 3 && k < 3
  {
    var w := Who(k, s.cur[k] + 1);
    s.(cur := s.cur[k := s.cur[k] + 1], start := s.start[w := s.now], asst := AwaitDone(w))
  }

  function Apply(s: State, a: Action): State
    requires |s.cur| == |s.admitted| == 3 && Enabled(s, a)
  {
    match a
    case Tick(t) => s.(now := t)
    case Admit(k, d) => Admitting(s, k, d)
    case Free => s.(free := true, asst := Freed)
    case Call(k) => Calling(s, k)
    case Ack => s.(done := false, asst := Idle)
    case SessionOver => s.(over := true, asst := Over)
    case Dismiss => s.(free := true, asst := Dismissing)
    case Close => if s.over then s.(asst := Ended) else s.(free := false, over := true, asst := Ended)
    case DoctorStep =>
      (match s.doc
       case WaitFree => s.(free := false, doc := Look)
       case Look => s.(doc := if s.over then Leave else Announce)
       case Announce => s.(enter := true, doc := AwaitMet)
       case AwaitMet => s.(met := false, doc := Report)
       case Report => s.(done := true, doc := WaitFree)
       case Leave => s.(done := true, doc := Gone)
       case Gone => s)
    case VisitorStep(w) =>
      (match s.vis[w]
       case Waiting => s.(vis := s.vis[w := AtDoor])
       case AtDoor => s.(enter := false, vis := s.vis[w := Inside])
       case Inside => s.(vis := s.vis[w := Half(s.now)])
       case Half(a) => s.(vis := s.vis[w := Told(a, s.now + s.duration[w])])
       case Told(a, b) => s.(met := true, vis := s.vis[w := Out(a, b)])
       case Out(_, _) => s)
  }

  predicate Init(s: State) {
    && s.cur == [0, 0, 0] && s.admitted == [0, 0, 0]
    && !s.free && !s.enter && !s.met && !s.done && !s.over
    && s.duration == map[] && s.start == map[] && s.vis == map[]
    && s.asst.Idle? && s.doc.WaitFree?
  }

  // ---------------------------------------------------------------- the invariant

  /** The visitor whose round is on. */
  predicate OnCall(s: State, w: Who) {
    s.asst == AwaitDone(w)
  }

  predicate InChamber(v: Visitor) { v.Inside? || v.Half? || v.Told? }

  ghost predicate Threads(s: State) {
    && |s.cur| == |s.admitted| == 3
    && (forall k :: 0 <= k < 3 ==> 0 <= s.cur[k] <= s.admitted[k])
    && (forall w :: w in s.vis <==> w.k < 3 && 1 <= w.token <= s.admitted[w.k])
    && s.duration.Keys == s.vis.Keys
    && (forall w :: w in s.start <==> w.k < 3 && 1 <= w.token <= s.cur[w.k])
  }

  /** A visitor not yet called waits; one whose round is over has printed its slot and left. */
  ghost predicate Served(s: State)
    requires Threads(s)
  {
    forall w :: w in s.vis && !OnCall(s, w) ==> ServedOk(s, w)
  }

  ghost predicate ServedOk(s: State, w: Who)
    requires Threads(s) && w in s.vis
  {
    if w.token <= s.cur[w.k] then s.vis[w] == Out(s.start[w], s.start[w] + s.duration[w]) else s.vis[w].Waiting?
  }

  /** The visitor on call is the last called of its class, and what it printed so far is its slot. */
  ghost predicate CallOk(s: State)
    requires Threads(s)
  {
    s.asst.AwaitDone? ==>
      var w := s.asst.w;
      && w in s.vis && w.token == s.cur[w.k] && s.start[w] == s.now
      && match s.vis[w]
         case Half(a) => a == s.now
         case Told(a, b) => a == s.now && b == s.now + s.duration[w]
         case Out(a, b) => a == s.now && b == s.now + s.duration[w]
         case _ => true
  }

  /** How far the round has come: the flags and the two program counters fit together. */
  ghost predicate Round(s: State)
    requires Threads(s) && CallOk(s)
  {
    var before := s.asst.AwaitDone? ==> s.vis[s.asst.w].Waiting? || s.vis[s.asst.w].AtDoor?;
    var inside := s.asst.AwaitDone? && InChamber(s.vis[s.asst.w]);
    var after := s.asst.AwaitDone? && s.vis[s.asst.w].Out?;
    match s.doc
    case WaitFree =>
      !s.enter && !s.met && !(s.free && s.done) && if s.done then after else before
    case Look => !s.free && !s.enter && !s.met && !s.done && before
    case Announce => !s.free && !s.enter && !s.met && !s.done && before
    case AwaitMet =>
      !s.free && !s.done && (if s.enter then before && !s.met else if s.met then after else inside)
    case Report => !s.free && !s.enter && !s.met && !s.done && after
    case Leave => !s.free && !s.enter && !s.met && !s.done
    case Gone => !s.free && !s.enter && !s.met && (s.done ==> s.asst.Dismissing?)
  }

  ghost predicate Phases(s: State) {
    && (s.over <==> s.asst.Over? || s.asst.Dismissing? || s.asst.Ended? || (s.asst.Idle? && s.doc.Gone?))
    && (s.asst.Idle? ==> !s.done && !s.free && (s.doc.WaitFree? || s.doc.Gone?))
    && (s.asst.Over? ==> s.doc.WaitFree? && !s.free && !s.done)
    && (s.asst.Ended? ==> !s.done && !s.free && (s.doc.WaitFree? || s.doc.Gone?))
    && (s.asst.Freed? ==> !s.done && SomebodyWaits(s) && (s.doc.WaitFree? ==> s.free)
                          && (s.doc.AwaitMet? ==> s.enter))
    && (s.asst.AwaitDone? && s.doc.WaitFree? ==> s.free || s.done)
    && (s.asst.Dismissing? ==>
          (s.doc.WaitFree? && s.free && !s.done) || s.doc.Look? || s.doc.Leave? || (s.doc.Gone? && s.done))
    && (s.asst.Freed? || s.asst.AwaitDone? ==> !s.doc.Leave? && !s.doc.Gone?)
    && (s.over ==> !SomebodyWaits(s))
  }

  ghost predicate Inv(s: State) {
    Threads(s) && Served(s) && CallOk(s) && Round(s) && Phases(s)
  }

  lemma InitInv(s: State)
    requires Init(s)
    ensures Inv(s)
  {
  }

  /** Only the visitor on call can move. */
  lemma OnlyOnCallMoves(s: State, w: Who)
    requires Inv(s) && Enabled(s, VisitorStep(w))
    ensures OnCall(s, w)
  {
    hide CallOk, Round, Phases;
  }

  lemma VisitorServed(s: State, s': State, w: Who)
    requires Threads(s) && Served(s) && OnCall(s, w) && w in s.vis && w in s'.vis
    requires s'.vis == s.vis[w := s'.vis[w]] && s'.cur == s.cur && s'.admitted == s.admitted
    requires s'.duration == s.duration && s'.start == s.start && s'.asst == s.asst
    ensures Threads(s') && Served(s')
  {
  }

  lemma VisitorRound(s: State, w: Who)
    requires Threads(s) && CallOk(s) && Round(s) && Phases(s) && OnCall(s, w) && Enabled(s, VisitorStep(w))
    requires Threads(Apply(s, VisitorStep(w)))
    ensures CallOk(Apply(s, VisitorStep(w))) && Round(Apply(s, VisitorStep(w))) && Phases(Apply(s, VisitorStep(w)))
  {
  }

  lemma SameVisitors(s: State, s': State)
    requires Threads(s) && Served(s) && Threads(s')
    requires s'.vis == s.vis && s'.cur == s.cur && s'.duration == s.duration && s'.start == s.start
    requires s'.asst == s.asst || (!s.asst.AwaitDone? && !s'.asst.AwaitDone?)
    ensures Served(s')
  {
  }

  lemma DoctorRound(s: State)
    requires Threads(s) && CallOk(s) && Round(s) && Phases(s) && Enabled(s, DoctorStep)
    ensures Threads(Apply(s, DoctorStep)) && CallOk(Apply(s, DoctorStep))
    ensures Round(Apply(s, DoctorStep)) && Phases(Apply(s, DoctorStep))
    ensures var s' := Apply(s, DoctorStep);
            s'.vis == s.vis && s'.cur == s.cur && s'.duration == s.duration && s'.start == s.start && s'.asst == s.asst
  {
  }

  lemma CallThreads(s: State, k: nat)
    requires Threads(s) && k < 3 && s.cur[k] < s.admitted[k]
    ensures Threads(Calling(s, k)) && Who(k, s.cur[k] + 1) in s.vis
  {
    var w, s' := Who(k, s.cur[k] + 1), Calling(s, k);
    forall v
      ensures v in s'.start <==> v.k < 3 && 1 <= v.token <= s'.cur[v.k]
    {
      assert v in s.start <==> v.k < 3 && 1 <= v.token <= s.cur[v.k];
      assert v == w <==> v.k == k && v.token == s.cur[k] + 1;
    }
  }

  lemma CallServed(s: State, k: nat)
    requires Threads(s) && Served(s) && k < 3 && s.cur[k] < s.admitted[k] && s.asst.Freed?
    requires Threads(Calling(s, k)) && Who(k, s.cur[k] + 1) in s.vis
    ensures Served(Calling(s, k)) && CallOk(Calling(s, k)) && s.vis[Who(k, s.cur[k] + 1)].Waiting?
  {
    var w, s' := Who(k, s.cur[k] + 1), Calling(s, k);
    assert ServedOk(s, w);
    forall v | v in s'.vis && v != w
      ensures ServedOk(s', v)
    {
      assert v in s.vis && !OnCall(s, v) && ServedOk(s, v);
      assert v.k == k && v.token == s.cur[k] + 1 ==> v == w;
    }
  }

  lemma AdmitThreads(s: State, k: nat, d: int)
    requires Threads(s) && k < 3
    ensures Threads(Admitting(s, k, d))
  {
    var w, s' := Who(k, s.admitted[k] + 1), Admitting(s, k, d);
    forall v
      ensures v in s'.vis <==> v.k < 3 && 1 <= v.token <= s'.admitted[v.k]
    {
      assert v in s.vis <==> v.k < 3 && 1 <= v.token <= s.admitted[v.k];
      assert v == w <==> v.k == k && v.token == s.admitted[k] + 1;
    }
    assert s'.duration.Keys == s.duration.Keys + {w} && s'.vis.Keys == s.vis.Keys + {w};
  }

  lemma AdmitServed(s: State, k: nat, d: int)
    requires Threads(s) && Served(s) && k < 3 && s.asst.Idle? && Threads(Admitting(s, k, d))
    ensures Served(Admitting(s, k, d))
  {
    var w, s' := Who(k, s.admitted[k] + 1), Admitting(s, k, d);
    forall v | v in s'.vis
      ensures ServedOk(s', v)
    {
      if v != w {
        assert v in s.vis && !OnCall(s, v) && ServedOk(s, v);
      }
    }
  }

  lemma AckServed(s: State)
    requires Threads(s) && Served(s) && CallOk(s) && Round(s) && Phases(s) && Enabled(s, Ack)
    ensures Threads(Apply(s, Ack)) && Served(Apply(s, Ack))
    ensures CallOk(Apply(s, Ack)) && Round(Apply(s, Ack)) && Phases(Apply(s, Ack))
  {
    if s.asst.AwaitDone? {
      assert ServedOk(Apply(s, Ack), s.asst.w);
    }
  }

  lemma VisitorInv(s: State, w: Who)
    requires Inv(s) && Enabled(s, VisitorStep(w))
    ensures Inv(Apply(s, VisitorStep(w)))
  {
    OnlyOnCallMoves(s, w);
    hide Round, Phases, CallOk;
    VisitorServed(s, Apply(s, VisitorStep(w)), w);
    VisitorRound(s, w);
  }

  lemma DoctorInv(s: State)
    requires Inv(s) && Enabled(s, DoctorStep)
    ensures Inv(Apply(s, DoctorStep))
  {
    hide Served, CallOk, Round, Phases, Apply, Enabled;
    DoctorRound(s);
    SameVisitors(s, Apply(s, DoctorStep));
  }

  lemma AdmitInv(s: State, k: nat, d: int)
    requires Inv(s) && Enabled(s, Admit(k, d))
    ensures Inv(Apply(s, Admit(k, d)))
  {
    AdmitThreads(s, k, d);
    AdmitServed(s, k, d);
    hide Threads, Served;
  }

  lemma CallRound(s: State, k: nat)
    requires Threads(s) && CallOk(s) && Round(s) && Phases(s) && Enabled(s, Call(k))
    requires Threads(Calling(s, k)) && CallOk(Calling(s, k))
    requires Who(k, s.cur[k] + 1) in s.vis && s.vis[Who(k, s.cur[k] + 1)].Waiting?
    ensures Round(Calling(s, k)) && Phases(Calling(s, k))
  {
    hide Threads;
  }

  lemma CallInv(s: State, k: nat)
    requires Inv(s) && Enabled(s, Call(k))
    ensures Inv(Apply(s, Call(k)))
  {
    hide Served, CallOk, Round, Phases;
    CallThreads(s, k);
    CallServed(s, k);
    CallRound(s, k);
  }

  lemma QuietRound(s: State, a: Action)
    requires Threads(s) && CallOk(s) && Round(s) && Phases(s)
    requires Enabled(s, a) && (a.Tick? || a.Free? || a.SessionOver? || a.Dismiss? || a.Close?)
    ensures var s' := Apply(s, a);
            && Threads(s') && CallOk(s') && Round(s') && Phases(s')
            && s'.vis == s.vis && s'.cur == s.cur && s'.duration == s.duration && s'.start == s.start
            && !s.asst.AwaitDone? && !s'.asst.AwaitDone?
  {
  }

  /** The assistant's other steps touch no visitor. */
  lemma QuietInv(s: State, a: Action)
    requires Inv(s) && Enabled(s, a) && (a.Tick? || a.Free? || a.SessionOver? || a.Dismiss? || a.Close?)
    ensures Inv(Apply(s, a))
  {
    hide Served, CallOk, Round, Phases, Apply, Enabled;
    QuietRound(s, a);
    SameVisitors(s, Apply(s, a));
  }

  lemma StepInv(s: State, a: Action)
    requires Inv(s) && Enabled(s, a)
    ensures Inv(Apply(s, a))
  {
    hide Threads, Served, CallOk, Round, Phases;
    match a {
      case VisitorStep(w) => VisitorInv(s, w);
      case DoctorStep => DoctorInv(s);
      case Call(k) => CallInv(s, k);
      case Admit(k, d) => AdmitInv(s, k, d);
      case Ack => AckServed(s);
      case _ => QuietInv(s, a);
    }
  }

  // ---------------------------------------------------------------- every run

  ghost predicate Run(r: seq<State>) {
    && |r| > 0 && Init(r[0])
    && forall i :: 0 <= i < |r| - 1 ==> Follows(r[i], r[i + 1])
  }

  ghost predicate Follows(s: State, s': State) {
    |s.cur| == |s.admitted| == 3 && exists a :: Enabled(s, a) && s' == Apply(s, a)
  }

  lemma {:induction false} RunInv(r: seq<State>)
    requires Run(r)
    ensures Inv(r[|r| - 1])
  {
    hide Inv;
    if |r| == 1 {
      InitInv(r[0]);
    } else {
      RunInv(r[..|r| - 1]);
      assert Follows(r[|r| - 2], r[|r| - 2 + 1]);
      var a :| Enabled(r[|r| - 2], a) && r[|r| - 1] == Apply(r[|r| - 2], a);
      StepInv(r[|r| - 2], a);
    }
  }

  /** Past doctor_enter and not yet seen by the assistant to be done. */
  predicate InRound(s: State, w: Who) {
    w in s.vis && (InChamber(s.vis[w]) || (s.vis[w].Out? && OnCall(s, w)))
  }

  /** In every reachable state at most one visitor is in its round, and it is the one just called. */
  lemma OneVisitorPerRound(r: seq<State>, v: Who, w: Who)
    requires Run(r)
    ensures var s := r[|r| - 1];
            InRound(s, v) && InRound(s, w) ==> v == w && OnCall(s, v) && v.k < 3 == |s.cur| && v.token == s.cur[v.k]
  {
    RunInv(r);
    var s := r[|r| - 1];
    hide Round, Phases;
    if InRound(s, v) {
      assert OnCall(s, v);
    }
  }

  // ---------------------------------------------------------------- what the actions were

  /** A run with the actions taken. */
  ghost predicate Trace(r: seq<State>, acts: seq<Action>) {
    && |r| == |acts| + 1 && Init(r[0])
    && forall i :: 0 <= i < |acts| ==> Takes(r[i], acts[i], r[i + 1])
  }

  ghost predicate Takes(s: State, a: Action, s': State) {
    |s.cur| == |s.admitted| == 3 && Enabled(s, a) && s' == Apply(s, a)
  }

  /** The durations of the visitors of class k created so far, in order. */
  function Durations(acts: seq<Action>, k: nat): seq<int> {
    if acts == [] then []
    else
      var a := acts[|acts| - 1];
      Durations(acts[..|acts| - 1], k) + if a.Admit? && a.k == k then [a.d] else []
  }

  /** How many of class k have been called so far. */
  function Called(acts: seq<Action>, k: nat): nat {
    if acts == [] then 0
    else
      var a := acts[|acts| - 1];
      Called(acts[..|acts| - 1], k) + if a.Call? && a.k == k then 1 else 0
  }

  /** The time of the last event taken, or the time at the start. */
  function LastTick(acts: seq<Action>, t0: int): int {
    if acts == [] then t0
    else
      var a := acts[|acts| - 1];
      if a.Tick? then a.t else LastTick(acts[..|acts| - 1], t0)
  }

  /** Call number i of class k. */
  predicate IsCall(acts: seq<Action>, c: nat, k: nat, i: int) {
    c < |acts| && acts[c] == Call(k) && Called(acts[..c], k) == i - 1
  }

  /** The counters, the clock and the two records say what the actions were. */
  ghost predicate Recorded(s: State, acts: seq<Action>, t0: int)
    requires Threads(s)
  {
    && s.now == LastTick(acts, t0)
    && (forall k :: 0 <= k < 3 ==> s.admitted[k] == |Durations(acts, k)| && s.cur[k] == Called(acts, k))
    && (forall w :: w in s.duration ==> DurationOk(s, acts, w))
    && (forall w :: w in s.start ==> StartOk(s, acts, t0, w))
  }

  ghost predicate DurationOk(s: State, acts: seq<Action>, w: Who)
    requires w in s.duration
  {
    1 <= w.token <= |Durations(acts, w.k)| && s.duration[w] == Durations(acts, w.k)[w.token - 1]
  }

  ghost predicate StartOk(s: State, acts: seq<Action>, t0: int, w: Who)
    requires w in s.start
  {
    exists c: nat :: IsCall(acts, c, w.k, w.token) && s.start[w] == LastTick(acts[..c], t0)
  }

  lemma TraceIsRun(r: seq<State>, acts: seq<Action>)
    requires Trace(r, acts)
    ensures Run(r)
  {
    hide Init, Enabled, Apply;
    forall i | 0 <= i < |r| - 1
      ensures Follows(r[i], r[i + 1])
    {
      assert Takes(r[i], acts[i], r[i + 1]);
    }
  }

  lemma OneMore(acts: seq<Action>, a: Action, k: nat, t0: int)
    ensures Durations(acts + [a], k) == Durations(acts, k) + if a.Admit? && a.k == k then [a.d] else []
    ensures Called(acts + [a], k) == Called(acts, k) + if a.Call? && a.k == k then 1 else 0
    ensures LastTick(acts + [a], t0) == if a.Tick? then a.t else LastTick(acts, t0)
  {
    assert (acts + [a])[..|acts|] == acts;
  }

  /** A visitor's or the doctor's step leaves the counters, the clock and the records alone. */
  lemma ThreadRecords(s: State, a: Action)
    requires |s.cur| == |s.admitted| == 3 && Enabled(s, a) && (a.VisitorStep? || a.DoctorStep?)
    ensures var s' := Apply(s, a);
            && s'.now == s.now && s'.admitted == s.admitted && s'.cur == s.cur
            && s'.duration == s.duration && s'.start == s.start
  {
    if a.DoctorStep? {
      DoctorRecords(s);
    }
  }

  lemma DoctorRecords(s: State)
    requires |s.cur| == |s.admitted| == 3 && Enabled(s, DoctorStep)
    ensures Apply(s, DoctorStep).now == s.now
    ensures Apply(s, DoctorStep).admitted == s.admitted
    ensures Apply(s, DoctorStep).cur == s.cur
    ensures Apply(s, DoctorStep).duration == s.duration
    ensures Apply(s, DoctorStep).start == s.start
  {
    var s' := Apply(s, DoctorStep);
    assert s' == s.(free := s'.free, enter := s'.enter, met := s'.met, done := s'.done, doc := s'.doc);
  }

  lemma AssistantRecords(s: State, a: Action)
    requires |s.cur| == |s.admitted| == 3 && Enabled(s, a) && !a.VisitorStep? && !a.DoctorStep?
    ensures a.Admit? || a.Call? ==> a.k < 3
    ensures var s' := Apply(s, a);
            && s'.now == (if a.Tick? then a.t else s.now)
            && s'.admitted == (if a.Admit? then s.admitted[a.k := s.admitted[a.k] + 1] else s.admitted)
            && s'.cur == (if a.Call? then s.cur[a.k := s.cur[a.k] + 1] else s.cur)
            && s'.duration == (if a.Admit? then s.duration[Who(a.k, s.admitted[a.k] + 1) := a.d] else s.duration)
            && s'.start == (if a.Call? then s.start[Who(a.k, s.cur[a.k] + 1) := s.now] else s.start)
  {
  }

  /** What a step changes of the counters, the clock and the records. */
  lemma StepRecords(s: State, a: Action)
    requires |s.cur| == |s.admitted| == 3 && Enabled(s, a)
    ensures a.Admit? || a.Call? ==> a.k < 3
    ensures var s' := Apply(s, a);
            && s'.now == (if a.Tick? then a.t else s.now)
            && s'.admitted == (if a.Admit? then s.admitted[a.k := s.admitted[a.k] + 1] else s.admitted)
            && s'.cur == (if a.Call? then s.cur[a.k := s.cur[a.k] + 1] else s.cur)
            && s'.duration == (if a.Admit? then s.duration[Who(a.k, s.admitted[a.k] + 1) := a.d] else s.duration)
            && s'.start == (if a.Call? then s.start[Who(a.k, s.cur[a.k] + 1) := s.now] else s.start)
  {
    hide Apply, Enabled;
    if a.VisitorStep? || a.DoctorStep? {
      ThreadRecords(s, a);
    } else {
      AssistantRecords(s, a);
    }
  }

  lemma StepDuration(s: State, a: Action, acts: seq<Action>, t0: int, w: Who)
    requires Threads(s) && Enabled(s, a) && Recorded(s, acts, t0) && w in Apply(s, a).duration
    ensures DurationOk(Apply(s, a), acts + [a], w)
  {
    StepRecords(s, a);
    hide Apply, Enabled, Durations, Called, LastTick, StartOk;
    OneMore(acts, a, w.k, t0);
    if w in s.duration && !(a.Admit? && w == Who(a.k, s.admitted[a.k] + 1)) {
      assert DurationOk(s, acts, w);
    }
  }

  lemma StepStart(s: State, a: Action, acts: seq<Action>, t0: int, w: Who)
    requires Threads(s) && Enabled(s, a) && Recorded(s, acts, t0) && w in Apply(s, a).start
    ensures StartOk(Apply(s, a), acts + [a], t0, w)
  {
    StepRecords(s, a);
    hide Apply, Enabled, Called, LastTick, Durations, DurationOk;
    if a.Call? && w == Who(a.k, s.cur[a.k] + 1) {
      assert (acts + [a])[..|acts|] == acts;
      assert IsCall(acts + [a], |acts|, w.k, w.token);
    } else {
      assert StartOk(s, acts, t0, w);
      var c: nat :| IsCall(acts, c, w.k, w.token) && s.start[w] == LastTick(acts[..c], t0);
      assert (acts + [a])[..c] == acts[..c];
      assert IsCall(acts + [a], c, w.k, w.token);
    }
  }

  lemma StepCounters(s: State, a: Action, acts: seq<Action>, t0: int, k: nat)
    requires Threads(s) && Enabled(s, a) && Recorded(s, acts, t0) && k < 3
    ensures var s' := Apply(s, a);
            && |s'.admitted| == |s'.cur| == 3
            && s'.admitted[k] == |Durations(acts + [a], k)| && s'.cur[k] == Called(acts + [a], k)
            && s'.now == LastTick(acts + [a], t0)
  {
    StepRecords(s, a);
    hide Apply, Enabled, Called, LastTick, Durations, DurationOk, StartOk;
    OneMore(acts, a, k, t0);
  }

  lemma StepRecorded(s: State, a: Action, acts: seq<Action>, t0: int)
    requires Inv(s) && Enabled(s, a) && Recorded(s, acts, t0)
    ensures Inv(Apply(s, a)) && Recorded(Apply(s, a), acts + [a], t0)
  {
    hide Apply, Enabled, Served, CallOk, Round, Phases, DurationOk, StartOk, Durations, Called, LastTick;
    StepInv(s, a);
    var s' := Apply(s, a);
    StepCounters(s, a, acts, t0, 0);
    forall k: nat | k < 3
      ensures s'.admitted[k] == |Durations(acts + [a], k)| && s'.cur[k] == Called(acts + [a], k)
    {
      StepCounters(s, a, acts, t0, k);
    }
    forall w | w in s'.duration
      ensures DurationOk(s', acts + [a], w)
    {
      StepDuration(s, a, acts, t0, w);
    }
    forall w | w in s'.start
      ensures StartOk(s', acts + [a], t0, w)
    {
      StepStart(s, a, acts, t0, w);
    }
  }

  lemma {:induction false} TraceRecorded(r: seq<State>, acts: seq<Action>)
    requires Trace(r, acts)
    ensures Inv(r[|acts|]) && Recorded(r[|acts|], acts, r[0].now)
  {
    if acts == [] {
      InitInv(r[0]);
    } else {
      hide Init, Inv, Recorded, Apply, Enabled;
      var m := |acts| - 1;
      TraceRecorded(r[..m + 1], acts[..m]);
      assert Takes(r[m], acts[m], r[m + 1]);
      StepRecorded(r[m], acts[m], acts[..m], r[0].now);
      assert acts == acts[..m] + [acts[m]];
    }
  }

  /** Creation number i of class k is one of the actions. */
  lemma {:induction false} CreatedAt(acts: seq<Action>, k: nat, i: int) returns (j: nat)
    requires 1 <= i <= |Durations(acts, k)|
    ensures j < |acts| && acts[j].Admit? && acts[j].k == k && |Durations(acts[..j], k)| == i - 1
    ensures acts[j].d == Durations(acts, k)[i - 1]
  {
    var m := |acts| - 1;
    if i <= |Durations(acts[..m], k)| {
      j := CreatedAt(acts[..m], k, i);
      assert acts[..m][..j] == acts[..j];
    } else {
      j := m;
    }
  }

  /** The last event before action c set the time to t, or none has and t is the time at the start. */
  ghost predicate TimeBefore(acts: seq<Action>, c: nat, t: int, t0: int)
    requires c <= |acts|
  {
    || (t == t0 && forall m :: 0 <= m < c ==> !acts[m].Tick?)
    || exists m :: 0 <= m < c && acts[m] == Tick(t) && forall x :: m < x < c ==> !acts[x].Tick?
  }

  lemma {:induction false} TickedBefore(acts: seq<Action>, c: nat, t0: int)
    requires c <= |acts|
    ensures TimeBefore(acts, c, LastTick(acts[..c], t0), t0)
  {
    if c > 0 {
      assert acts[..c][..c - 1] == acts[..c - 1] && acts[..c][c - 1] == acts[c - 1];
      if acts[c - 1].Tick? {
        assert acts[c - 1] == Tick(LastTick(acts[..c], t0));
      } else {
        TickedBefore(acts, c - 1, t0);
      }
    }
  }

  /** A visitor that has left, the i-th created of its class, was the i-th of its class to be called, and
      printed the time t of the last event before that call and t plus the duration it was created with,
      whatever the threads did meanwhile. */
  lemma PrintedSlot(r: seq<State>, acts: seq<Action>, k: nat, i: int) returns (j: nat, c: nat, t: int)
    requires Trace(r, acts) && Who(k, i) in r[|acts|].vis && r[|acts|].vis[Who(k, i)].Out?
    ensures j < |acts| && acts[j].Admit? && acts[j].k == k && |Durations(acts[..j], k)| == i - 1
    ensures c < |acts| && acts[c] == Call(k) && Called(acts[..c], k) == i - 1
    ensures TimeBefore(acts, c, t, r[0].now)
    ensures r[|acts|].vis[Who(k, i)] == Out(t, t + acts[j].d)
  {
    hide Served, CallOk, Round, Phases, Run, Durations, Called, LastTick, TimeBefore;
    var s, w := r[|acts|], Who(k, i);
    TraceIsRun(r, acts);
    TraceRecorded(r, acts);
    LeftWithSlot(r, w);
    c := SlotRecorded(s, acts, r[0].now, w);
    j := CreatedAt(acts, k, i);
    t := LastTick(acts[..c], r[0].now);
    TickedBefore(acts, c, r[0].now);
  }

  lemma SlotRecorded(s: State, acts: seq<Action>, t0: int, w: Who) returns (c: nat)
    requires Threads(s) && Recorded(s, acts, t0) && w in s.start && w in s.duration
    ensures 1 <= w.token <= |Durations(acts, w.k)| && s.duration[w] == Durations(acts, w.k)[w.token - 1]
    ensures IsCall(acts, c, w.k, w.token) && s.start[w] == LastTick(acts[..c], t0)
  {
    hide Durations, Called, LastTick;
    assert DurationOk(s, acts, w) && StartOk(s, acts, t0, w);
    c :| IsCall(acts, c, w.k, w.token) && s.start[w] == LastTick(acts[..c], t0);
  }

  /** A class is called only when nobody of a class before it is admitted and not called. */
  lemma CalledInClassOrder(r: seq<State>, acts: seq<Action>, c: nat, h: nat)
    requires Trace(r, acts) && c < |acts| && acts[c].Call? && h < acts[c].k
    ensures Called(acts[..c], h) == |Durations(acts[..c], h)| && acts[c].k < 3
    ensures Called(acts[..c], acts[c].k) < |Durations(acts[..c], acts[c].k)|
  {
    TraceRecorded(r[..c + 1], acts[..c]);
    assert Takes(r[c], acts[c], r[c + 1]);
    hide Trace, Durations, Called, LastTick, Apply;
  }

  /** A visitor that has left printed the slot it was called for, whatever the threads did meanwhile;
      between rounds every called visitor has left. */
  lemma LeftWithSlot(r: seq<State>, w: Who)
    requires Run(r) && w in r[|r| - 1].vis
    ensures var s := r[|r| - 1];
            && (s.vis[w].Out? ==>
                  w in s.start && w in s.duration && s.vis[w] == Out(s.start[w], s.start[w] + s.duration[w]))
            && (!s.asst.AwaitDone? && w in s.start ==> s.vis[w].Out?)
            && (w !in s.start ==> s.vis[w].Waiting?)
  {
    RunInv(r);
    hide Round, Phases;
  }

  /** From the call to the acknowledgement current_time is the visitor's start. */
  lemma TimeStandsStill(r: seq<State>)
    requires Run(r) && r[|r| - 1].asst.AwaitDone?
    ensures var s := r[|r| - 1]; s.asst.w in s.start && s.start[s.asst.w] == s.now
  {
    RunInv(r);
    hide Served, Round, Phases;
  }

  /** The assistant goes on to the next event only after the visitor it called has left. */
  lemma AckAfterLeaving(s: State)
    requires Inv(s) && Enabled(s, Ack) && s.asst.AwaitDone?
    ensures s.vis[s.asst.w] == Out(s.now, s.now + s.duration[s.asst.w])
  {
    hide Served;
  }
}
