/** session.c: the assistant's event loop, with the visitor threads left to the Handshake module. */
module Clinic {
  import opened EventHeap

  const NUM_PATIENTS := 25
  const NUM_SALES_REPS := 3
  const NUM_REPORTERS := 250

  datatype Slot = Slot(time: int, duration: int)

  /** The globals kept for one class: token_x, num_x, current_x and the array waiting_x. */
  datatype Line = Line(token: nat, num: int, current: int, waiting: seq<Slot>)

  datatype Call = Call(kind: char, token: int, start: int, duration: int)

  /** Whether the loop has set session_done: then after how many arrivals, and when. */
  datatype Closing = Open | Closed(taken: nat, time: int)

  /** The assistant's globals; calls, processed, clock and closing record the consultations begun, the
      arrivals taken, the values given to current_time and the end of the session. */
  datatype Desk = Desk(now: int, done: bool, first: bool, r: Line, p: Line, s: Line,
                       calls: seq<Call>, processed: seq<Event>, clock: seq<int>, closing: Closing)

  predicate IsArrival(e: Event) {
    (e.kind == 'R' || e.kind == 'P' || e.kind == 'S') && e.duration >= 1
  }

  function Quota(kind: char): nat {
    if kind == 'R' then NUM_REPORTERS else if kind == 'P' then NUM_PATIENTS else NUM_SALES_REPS
  }

  function Admitted(l: Line): int { l.num + l.current }

  // ---------------------------------------------------------------- one event, one round

  /** An arrival takes the next token; it leaves when the session is over or, reporters apart, when the
      quota is full. */
  function Join(l: Line, e: Event, done: bool): Line
    requires l.token + 1 < |l.waiting| || done || (e.kind != 'R' && l.token >= Quota(e.kind))
  {
    var t := l.token + 1;
    if done || (e.kind != 'R' && t > Quota(e.kind)) then l.(token := t)
    else l.(token := t, num := l.num + 1, waiting := l.waiting[t := Slot(e.time, e.duration)])
  }

  ghost predicate CanJoin(d: Desk, e: Event) {
    var l := LineFor(d, e.kind);
    l.token + 1 < |l.waiting| || d.done || (e.kind != 'R' && l.token >= Quota(e.kind))
  }

  function LineFor(d: Desk, kind: char): Line {
    if kind == 'R' then d.r else if kind == 'P' then d.p else d.s
  }

  ghost function Arrive(d: Desk, e: Event): Desk
    requires IsArrival(e) && CanJoin(d, e)
  {
    var d' := d.(now := e.time, processed := d.processed + [e], clock := d.clock + [e.time]);
    if e.kind == 'R' then d'.(r := Join(d.r, e, d.done))
    else if e.kind == 'P' then d'.(p := Join(d.p, e, d.done))
    else d'.(s := Join(d.s, e, d.done))
  }

  /** A D event comes up: the session is over once no reporter waits and both quotas have been called. */
  ghost function StartRound(d: Desk, t: int): Desk {
    var over := d.done || (d.r.num == 0 && Full(d));
    d.(now := t, clock := d.clock + [t], done := over, first := d.first || over,
       closing := if over && !d.done then Closed(|d.processed|, t) else d.closing)
  }

  predicate CanCall(l: Line) {
    l.num > 0 ==> 0 <= l.current + 1 < |l.waiting|
  }

  function Advance(l: Line): Line { l.(num := l.num - 1, current := l.current + 1) }

  function CallOf(l: Line, kind: char, now: int): Call
    requires CanCall(l) && l.num > 0
  {
    Call(kind, l.current + 1, now, l.waiting[l.current + 1].duration)
  }

  /** Reporters before patients before sales representatives. */
  ghost function CallNext(d: Desk): Desk
    requires CanCall(d.r) && CanCall(d.p) && CanCall(d.s)
  {
    if d.r.num > 0 then d.(r := Advance(d.r), calls := d.calls + [CallOf(d.r, 'R', d.now)])
    else if d.p.num > 0 then d.(p := Advance(d.p), calls := d.calls + [CallOf(d.p, 'P', d.now)])
    else if d.s.num > 0 then d.(s := Advance(d.s), calls := d.calls + [CallOf(d.s, 'S', d.now)])
    else d
  }

  /** Both quotas have been called. */
  predicate Full(d: Desk) { d.p.current >= NUM_PATIENTS && d.s.current >= NUM_SALES_REPS }

  predicate NobodyWaits(d: Desk) { d.r.num <= 0 && d.p.num <= 0 && d.s.num <= 0 }

  // ---------------------------------------------------------------- the invariant

  ghost function ArrivalsOf(s: seq<Event>, kind: char): (r: seq<Event>)
    ensures |r| <= |s| && forall e :: e in r ==> e in s && e.kind == kind
  {
    if s == [] then []
    else ArrivalsOf(s[..|s| - 1], kind) + if s[|s| - 1].kind == kind then [s[|s| - 1]] else []
  }

  ghost function CallsOf(s: seq<Call>, kind: char): (r: seq<Call>)
    ensures forall c :: c in r ==> c in s && c.kind == kind
  {
    if s == [] then []
    else CallsOf(s[..|s| - 1], kind) + if s[|s| - 1].kind == kind then [s[|s| - 1]] else []
  }

  /** The arrivals taken while the session was open. */
  ghost function Before(d: Desk): seq<Event> {
    if d.closing.Closed? && d.closing.taken <= |d.processed| then d.processed[..d.closing.taken] else d.processed
  }

  function Capped(kind: char, arrived: nat): nat {
    if kind != 'R' && arrived > Quota(kind) then Quota(kind) else arrived
  }

  /** How many of a class were let in: while the session was open, up to the quota, reporters without. */
  ghost function LetIn(d: Desk, kind: char): nat {
    Capped(kind, |ArrivalsOf(Before(d), kind)|)
  }

  /** Waiting plus called is what was let in; tokens count arrivals; calls go out in token order. */
  ghost predicate LineOk(l: Line, kind: char, arrived: seq<Event>, called: seq<Call>, letIn: nat, done: bool) {
    && 0 <= l.num && 0 <= l.current
    && l.token == |arrived| && l.current == |called|
    && Admitted(l) == letIn <= l.token && letIn <= Quota(kind) && |l.waiting| == Quota(kind) + 1
    && (done ==> l.num == 0)
    && (forall k :: 1 <= k <= Admitted(l) ==>
          arrived[k - 1] == Event(kind, l.waiting[k].time, l.waiting[k].duration))
    && (forall k :: 0 <= k < l.current ==>
          && called[k].token == k + 1
          && called[k].duration == l.waiting[k + 1].duration
          && called[k].start >= l.waiting[k + 1].time)
  }

  ghost predicate LineOf(d: Desk, kind: char) {
    LineOk(LineFor(d, kind), kind, ArrivalsOf(d.processed, kind), CallsOf(d.calls, kind), LetIn(d, kind), d.done)
  }

  /** Whoever of this class had arrived when a later class was called had been called before. */
  ghost predicate ServedFirst(l: Line, kind: char, calls: seq<Call>)
    requires 0 <= Admitted(l) < |l.waiting|
  {
    forall i, k :: 0 <= i < |calls| && 1 <= k <= Admitted(l)
                   && Rank(kind) < Rank(calls[i].kind) && l.waiting[k].time <= calls[i].start
                   ==> k <= |CallsOf(calls[..i], kind)|
  }

  function Max(a: int, b: int): int { if a < b then b else a }

  /** A consultation starts no later than the end of the one before and the coming of any visitor of this
      class not called by then. */
  ghost predicate Prompt(l: Line, kind: char, calls: seq<Call>) {
    forall i, k :: 0 <= i < |calls| && |CallsOf(calls[..i], kind)| < k <= Admitted(l) && k < |l.waiting|
                   ==> calls[i].start <= Max(LastEnd(calls[..i]), l.waiting[k].time)
  }

  ghost predicate PromptOk(d: Desk) {
    Prompt(d.r, 'R', d.calls) && Prompt(d.p, 'P', d.calls) && Prompt(d.s, 'S', d.calls)
  }

  ghost predicate NoOverlap(calls: seq<Call>) {
    forall i :: 0 <= i < |calls| - 1 ==> calls[i].start + calls[i].duration <= calls[i + 1].start
  }

  ghost predicate Nondecreasing(ts: seq<int>) {
    forall i, j :: 0 <= i < j < |ts| ==> ts[i] <= ts[j]
  }

  ghost predicate LinesOk(d: Desk) {
    && LineOf(d, 'R') && LineOf(d, 'P') && LineOf(d, 'S')
    && ServedFirst(d.r, 'R', d.calls) && ServedFirst(d.p, 'P', d.calls)
  }

  /** The end of the last consultation begun. */
  function LastEnd(calls: seq<Call>): int {
    if calls == [] then 0 else calls[|calls| - 1].start + calls[|calls| - 1].duration
  }

  /** The session is closed at the end of the consultation that completes both quotas, or of the last
      reporter's after it; the arrivals taken later come later. */
  ghost predicate ClosingOk(d: Desk) {
    d.closing.Closed? ==>
      && d.done && Full(d) && d.calls != [] && d.closing.time == LastEnd(d.calls)
      && d.closing.taken <= |d.processed|
      && (forall k :: 0 <= k < d.closing.taken ==> d.processed[k].time <= d.closing.time)
      && (forall k :: d.closing.taken <= k < |d.processed| ==> d.closing.time < d.processed[k].time)
  }

  ghost predicate RecordsOk(d: Desk) {
    && (forall e :: e in d.processed ==> IsArrival(e) && e.time <= d.now)
    && Sorted(d.processed)
    && NoOverlap(d.calls)
    && (forall c :: c in d.calls ==> Rank(c.kind) < 3 && c.duration >= 1 && c.start >= 0)
    && Nondecreasing(d.clock) && (d.clock != [] ==> d.clock[|d.clock| - 1] == d.now)
    && (d.clock == [] ==> d.processed == [])
  }

  ghost predicate DeskOk(d: Desk) {
    LinesOk(d) && RecordsOk(d) && ClosingOk(d) && PromptOk(d)
  }

  /** While the loop runs: the arrivals still queued are later than every consultation begun and than
      the end of the session, and not before current_time nor before an arrival taken. */
  ghost predicate RestOk(d: Desk, rest: multiset<Event>) {
    && |d.processed| + |rest| <= 127
    && (d.done <==> d.closing.Closed?)
    && NotAfter(d.processed, rest)
    && forall e :: e in rest ==>
         && IsArrival(e)
         && (d.clock != [] ==> d.now <= e.time)
         && (d.closing.Closed? ==> d.closing.time < e.time)
         && forall c :: c in d.calls ==> c.start < e.time
  }

  /** The queued D event comes at or after the end of the consultation begun last. */
  ghost predicate Upcoming(d: Desk, t: int) {
    && t >= 0 && (d.clock != [] ==> d.now <= t)
    && (d.calls != [] ==> LastEnd(d.calls) <= t)
    && (d.closing.Open? && Full(d) ==> d.calls != [] && t == LastEnd(d.calls))
  }

  /** No visitor who waits, or is still to come, could be called earlier than t. */
  ghost predicate InTime(d: Desk, rest: multiset<Event>, t: int) {
    && InTimeFor(d.r, d.calls, t) && InTimeFor(d.p, d.calls, t) && InTimeFor(d.s, d.calls, t)
    && forall e :: e in rest ==> t <= Max(LastEnd(d.calls), e.time)
  }

  ghost predicate InTimeFor(l: Line, calls: seq<Call>, t: int) {
    forall k :: 0 <= l.current < k <= Admitted(l) && k < |l.waiting| ==> t <= Max(LastEnd(calls), l.waiting[k].time)
  }

  /** The queued D event is due at t. */
  ghost predicate NextStart(d: Desk, rest: multiset<Event>, t: int) {
    Upcoming(d, t) && InTime(d, rest, t)
  }

  /** What the assistant leaves behind: all arrivals taken in order, nobody waiting, and the session
      closed by the loop exactly when both quotas had been called. */
  ghost predicate SessionOver(d: Desk) {
    DeskOk(d) && NobodyWaits(d) && (d.closing.Closed? <==> Full(d))
  }

  /** Every queued arrival is later than t: then D comes up next. */
  ghost predicate DoctorOnTop(rest: multiset<Event>, t: int) {
    forall x :: x in rest ==> t < x.time
  }

  // ---------------------------------------------------------------- what each step keeps

  lemma ArrivalsGrow(s: seq<Event>, e: Event, kind: char)
    ensures ArrivalsOf(s + [e], kind) == ArrivalsOf(s, kind) + if e.kind == kind then [e] else []
  {
    assert (s + [e])[..|s|] == s;
  }

  lemma CallsGrow(s: seq<Call>, c: Call, kind: char)
    ensures CallsOf(s + [c], kind) == CallsOf(s, kind) + if c.kind == kind then [c] else []
  {
    assert (s + [c])[..|s|] == s;
  }

  /** Whether the code's tests let the next arrival of a class in. */
  predicate Admits(kind: char, arrived: nat, done: bool) {
    !done && (kind == 'R' || arrived < Quota(kind))
  }

  lemma JoinKeeps(l: Line, e: Event, arrived: seq<Event>, called: seq<Call>, letIn: nat, done: bool)
    requires IsArrival(e) && LineOk(l, e.kind, arrived, called, letIn, done) && |arrived| < 127
    requires !done ==> letIn == Capped(e.kind, |arrived|)
    ensures l.token + 1 < |l.waiting| || done || (e.kind != 'R' && l.token >= Quota(e.kind))
    ensures LineOk(Join(l, e, done), e.kind, arrived + [e], called,
                   if Admits(e.kind, |arrived|, done) then letIn + 1 else letIn, done)
    ensures forall k :: 1 <= k <= Admitted(l) ==> Join(l, e, done).waiting[k] == l.waiting[k]
    ensures Admitted(Join(l, e, done)) == Admitted(l)
         || (Admitted(Join(l, e, done)) == Admitted(l) + 1 && Join(l, e, done).waiting[Admitted(l) + 1].time == e.time)
  {
  }

  lemma JoinServed(l: Line, e: Event, arrived: seq<Event>, called: seq<Call>, letIn: nat, done: bool, calls: seq<Call>)
    requires IsArrival(e) && LineOk(l, e.kind, arrived, called, letIn, done) && |arrived| < 127
    requires !done ==> letIn == Capped(e.kind, |arrived|)
    requires ServedFirst(l, e.kind, calls) && forall c :: c in calls ==> c.start < e.time
    ensures l.token + 1 < |l.waiting| || done || (e.kind != 'R' && l.token >= Quota(e.kind))
    ensures 0 <= Admitted(Join(l, e, done)) < |Join(l, e, done).waiting|
    ensures ServedFirst(Join(l, e, done), e.kind, calls)
  {
    JoinKeeps(l, e, arrived, called, letIn, done);
  }

  lemma ArriveShape(d: Desk, e: Event, kind: char)
    requires IsArrival(e) && CanJoin(d, e) && (kind == 'R' || kind == 'P' || kind == 'S')
    ensures LineFor(Arrive(d, e), kind)
         == if kind == e.kind then Join(LineFor(d, kind), e, d.done) else LineFor(d, kind)
    ensures Arrive(d, e).processed == d.processed + [e] && Arrive(d, e).calls == d.calls && Arrive(d, e).done == d.done
    ensures Arrive(d, e).closing == d.closing
  {
    hide Join;
  }

  /** Before the loop has closed the session all arrivals count, afterwards no more. */
  lemma ArriveLetIn(d: Desk, e: Event, kind: char)
    requires IsArrival(e) && CanJoin(d, e) && (d.done <==> d.closing.Closed?) && ClosingOk(d)
    ensures !d.done ==> LetIn(d, kind) == Capped(kind, |ArrivalsOf(d.processed, kind)|)
    ensures LetIn(Arrive(d, e), kind)
         == if kind == e.kind && Admits(kind, |ArrivalsOf(d.processed, kind)|, d.done) then LetIn(d, kind) + 1
            else LetIn(d, kind)
  {
    ArrivalsGrow(d.processed, e, kind);
    assert d.closing.Closed? ==> (d.processed + [e])[..d.closing.taken] == d.processed[..d.closing.taken];
  }

  lemma TokensCount(d: Desk, kind: char)
    requires LineOf(d, kind)
    ensures LineFor(d, kind).token == |ArrivalsOf(d.processed, kind)| <= |d.processed|
  {
  }

  lemma ArriveLine(d: Desk, e: Event, kind: char)
    requires IsArrival(e) && LineOf(d, e.kind) && LineOf(d, kind) && |d.processed| < 127
    requires (d.done <==> d.closing.Closed?) && ClosingOk(d)
    requires kind == 'R' || kind == 'P' || kind == 'S'
    ensures CanJoin(d, e) && LineOf(Arrive(d, e), kind)
  {
    hide LineOk, Arrive, Join, IsArrival, LineFor, ArrivalsOf, CallsOf, LetIn, Admits, ClosingOk;
    TokensCount(d, e.kind);
    ArrivalsGrow(d.processed, e, kind);
    LetInOpen(d, e.kind);
    JoinKeeps(LineFor(d, e.kind), e, ArrivalsOf(d.processed, e.kind), CallsOf(d.calls, e.kind),
              LetIn(d, e.kind), d.done);
    ArriveShape(d, e, kind);
    ArriveLetIn(d, e, kind);
    assert ArrivalsOf(d.processed, kind) + [] == ArrivalsOf(d.processed, kind);
  }

  lemma LetInOpen(d: Desk, kind: char)
    requires d.done <==> d.closing.Closed?
    ensures !d.done ==> LetIn(d, kind) == Capped(kind, |ArrivalsOf(d.processed, kind)|)
  {
  }

  lemma ArriveServed(d: Desk, e: Event)
    requires IsArrival(e) && DeskOk(d) && |d.processed| < 127 && forall c :: c in d.calls ==> c.start < e.time
    requires d.done <==> d.closing.Closed?
    ensures CanJoin(d, e)
    ensures LineOf(Arrive(d, e), 'R') && ServedFirst(Arrive(d, e).r, 'R', d.calls)
    ensures LineOf(Arrive(d, e), 'P') && ServedFirst(Arrive(d, e).p, 'P', d.calls)
  {
    ArriveLine(d, e, 'R');
    ArriveLine(d, e, 'P');
    if e.kind != 'S' {
      LetInOpen(d, e.kind);
      JoinServed(LineFor(d, e.kind), e, ArrivalsOf(d.processed, e.kind), CallsOf(d.calls, e.kind),
                 LetIn(d, e.kind), d.done, d.calls);
    }
  }

  lemma ArriveFields(d: Desk, e: Event)
    requires IsArrival(e) && CanJoin(d, e)
    ensures var d' := Arrive(d, e);
            && d'.calls == d.calls && d'.now == e.time && d'.processed == d.processed + [e] && d'.closing == d.closing
            && d'.done == d.done && d'.p.current == d.p.current && d'.s.current == d.s.current
            && d'.clock == d.clock + [e.time]
  {
  }

  lemma ArriveRecords(d: Desk, rest: multiset<Event>, e: Event, t: int)
    requires IsArrival(e) && CanJoin(d, e) && RecordsOk(d) && ClosingOk(d) && RestOk(d, rest) && Upcoming(d, t)
    requires e in rest && e.time <= t && forall x :: x in rest ==> Le(e, x)
    ensures RecordsOk(Arrive(d, e)) && ClosingOk(Arrive(d, e))
    ensures RestOk(Arrive(d, e), rest - multiset{e}) && Upcoming(Arrive(d, e), t)
  {
    hide Arrive, Sorted, NotAfter, NoOverlap, LastEnd, CanJoin;
    ArriveFields(d, e);
    TakeNext(d.processed, rest, e);
    assert forall x :: x in d.processed ==> d.clock != [];
  }

  /** The visitor who joins came after every consultation begun, and not before the next one is due. */
  lemma JoinPrompt(l: Line, e: Event, arrived: seq<Event>, called: seq<Call>, letIn: nat, done: bool,
                   calls: seq<Call>, t: int)
    requires IsArrival(e) && LineOk(l, e.kind, arrived, called, letIn, done) && |arrived| < 127
    requires !done ==> letIn == Capped(e.kind, |arrived|)
    requires Prompt(l, e.kind, calls) && forall c :: c in calls ==> c.start < e.time
    requires InTimeFor(l, calls, t) && t <= Max(LastEnd(calls), e.time)
    ensures l.token + 1 < |l.waiting| || done || (e.kind != 'R' && l.token >= Quota(e.kind))
    ensures Prompt(Join(l, e, done), e.kind, calls) && InTimeFor(Join(l, e, done), calls, t)
  {
    JoinKeeps(l, e, arrived, called, letIn, done);
  }

  lemma ArrivePrompt(d: Desk, rest: multiset<Event>, e: Event, t: int)
    requires DeskOk(d) && RestOk(d, rest) && InTime(d, rest, t) && IsArrival(e) && CanJoin(d, e) && e in rest
    ensures PromptOk(Arrive(d, e)) && InTime(Arrive(d, e), rest - multiset{e}, t)
  {
    hide LineOk, ServedFirst, RecordsOk, ClosingOk, ArrivalsOf, CallsOf, Prompt, InTimeFor, Join, LetIn, LastEnd;
    TokensCount(d, e.kind);
    LetInOpen(d, e.kind);
    assert LineOf(d, e.kind);
    JoinPrompt(LineFor(d, e.kind), e, ArrivalsOf(d.processed, e.kind), CallsOf(d.calls, e.kind), LetIn(d, e.kind),
               d.done, d.calls, t);
    ArriveShape(d, e, 'R');
    ArriveShape(d, e, 'P');
    ArriveShape(d, e, 'S');
    hide Arrive, IsArrival, CanJoin;
  }

  lemma ArriveKeeps(d: Desk, rest: multiset<Event>, e: Event, t: int)
    requires DeskOk(d) && RestOk(d, rest) && NextStart(d, rest, t)
    requires e in rest && e.time <= t && forall x :: x in rest ==> Le(e, x)
    ensures IsArrival(e) && CanJoin(d, e)
    ensures DeskOk(Arrive(d, e)) && RestOk(Arrive(d, e), rest - multiset{e})
    ensures NextStart(Arrive(d, e), rest - multiset{e}, t)
  {
    hide LineOf, ServedFirst, ClosingOk, Upcoming, RecordsOk, PromptOk, InTime;
    ArriveServed(d, e);
    ArriveLine(d, e, 'S');
    ArriveFields(d, e);
    ArriveRecords(d, rest, e, t);
    ArrivePrompt(d, rest, e, t);
    hide Arrive, RestOk, CanJoin;
  }

  lemma StartLine(d: Desk, t: int, kind: char)
    requires LineOf(d, 'R') && LineOf(d, 'P') && LineOf(d, 'S') && (kind == 'R' || kind == 'P' || kind == 'S')
    requires d.done <==> d.closing.Closed?
    ensures LineOf(StartRound(d, t), kind)
    ensures StartRound(d, t).done ==> LineFor(StartRound(d, t), kind).num <= 0
    ensures CanCall(LineFor(d, kind))
  {
    assert d.processed[..|d.processed|] == d.processed;
  }

  lemma StartRecords(d: Desk, rest: multiset<Event>, t: int)
    requires RecordsOk(d) && ClosingOk(d) && RestOk(d, rest) && Upcoming(d, t) && DoctorOnTop(rest, t)
    ensures RecordsOk(StartRound(d, t)) && ClosingOk(StartRound(d, t))
    ensures RestOk(StartRound(d, t), rest) && Upcoming(StartRound(d, t), t)
  {
    hide Sorted, NotAfter, NoOverlap;
  }

  lemma StartPrompt(d: Desk, rest: multiset<Event>, t: int)
    requires PromptOk(d) && InTime(d, rest, t)
    ensures PromptOk(StartRound(d, t)) && InTime(StartRound(d, t), rest, t)
  {
    hide Prompt, InTimeFor;
  }

  lemma StartKeeps(d: Desk, rest: multiset<Event>, t: int)
    requires DeskOk(d) && RestOk(d, rest) && NextStart(d, rest, t)
    requires DoctorOnTop(rest, t)
    ensures DeskOk(StartRound(d, t)) && RestOk(StartRound(d, t), rest) && NextStart(StartRound(d, t), rest, t)
    ensures StartRound(d, t).done ==> NobodyWaits(StartRound(d, t))
    ensures StartRound(d, t).closing.Open? && NobodyWaits(StartRound(d, t)) ==> !Full(StartRound(d, t))
    ensures CanCall(d.r) && CanCall(d.p) && CanCall(d.s)
    ensures |rest| <= 127
  {
    hide Upcoming, DoctorOnTop, RecordsOk, ClosingOk, PromptOk, InTime;
    StartLine(d, t, 'R');
    StartLine(d, t, 'P');
    StartLine(d, t, 'S');
    StartRecords(d, rest, t);
    StartPrompt(d, rest, t);
    hide CanCall;
  }

  lemma AdvanceKeeps(l: Line, kind: char, arrived: seq<Event>, called: seq<Call>, letIn: nat, now: int)
    requires LineOk(l, kind, arrived, called, letIn, false) && l.num > 0
    requires forall e :: e in arrived ==> IsArrival(e) && e.time <= now
    ensures CanCall(l) && CallOf(l, kind, now).duration >= 1
    ensures LineOk(Advance(l), kind, arrived, called + [CallOf(l, kind, now)], letIn, false)
  {
    assert arrived[l.current] in arrived;
  }

  lemma CallServed(l: Line, kind: char, arrived: seq<Event>, calls: seq<Call>, letIn: nat, done: bool, c: Call)
    requires LineOk(l, kind, arrived, CallsOf(calls, kind), letIn, done) && ServedFirst(l, kind, calls)
    requires Rank(kind) < Rank(c.kind) ==> l.num == 0
    ensures ServedFirst(l, kind, calls + [c])
  {
    forall i, k | 0 <= i < |calls + [c]| && 1 <= k <= Admitted(l)
                  && Rank(kind) < Rank((calls + [c])[i].kind) && l.waiting[k].time <= (calls + [c])[i].start
      ensures k <= |CallsOf((calls + [c])[..i], kind)|
    {
      if i < |calls| {
        assert (calls + [c])[..i] == calls[..i];
      } else {
        assert (calls + [c])[..i] == calls;
      }
    }
  }

  /** The line that is called next. */
  function NextKind(d: Desk): char {
    if d.r.num > 0 then 'R' else if d.p.num > 0 then 'P' else 'S'
  }

  ghost function NextCall(d: Desk): Call
    requires !NobodyWaits(d) && CanCall(d.r) && CanCall(d.p) && CanCall(d.s)
  {
    CallOf(LineFor(d, NextKind(d)), NextKind(d), d.now)
  }

  lemma LinesCanCall(d: Desk)
    requires LineOf(d, 'R') && LineOf(d, 'P') && LineOf(d, 'S')
    ensures CanCall(d.r) && CanCall(d.p) && CanCall(d.s)
    ensures !NobodyWaits(d) ==> !d.done
  {
  }

  lemma CallShape(d: Desk, kind: char)
    requires !NobodyWaits(d) && CanCall(d.r) && CanCall(d.p) && CanCall(d.s)
    requires kind == 'R' || kind == 'P' || kind == 'S'
    ensures CallNext(d).calls == d.calls + [NextCall(d)]
    ensures CallNext(d).processed == d.processed && CallNext(d).done == d.done && CallNext(d).now == d.now
    ensures CallNext(d).clock == d.clock && CallNext(d).closing == d.closing
    ensures LineFor(CallNext(d), kind) == if kind == NextKind(d) then Advance(LineFor(d, kind)) else LineFor(d, kind)
  {
  }

  lemma CallLine(d: Desk, kind: char)
    requires LineOf(d, kind) && !NobodyWaits(d) && CanCall(d.r) && CanCall(d.p) && CanCall(d.s) && !d.done
    requires kind == 'R' || kind == 'P' || kind == 'S'
    requires forall e :: e in d.processed ==> IsArrival(e) && e.time <= d.now
    ensures LineOf(CallNext(d), kind)
    ensures kind == NextKind(d) ==> NextCall(d).duration >= 1
  {
    hide CallNext, ArrivalsOf, CallsOf, Capped, LineOk, Advance, CanCall;
    CallShape(d, kind);
    CallsGrow(d.calls, NextCall(d), kind);
    if kind == NextKind(d) {
      SomeoneOf(d);
      AdvanceKeeps(LineFor(d, kind), kind, ArrivalsOf(d.processed, kind), CallsOf(d.calls, kind),
                   LetIn(d, kind), d.now);
    } else {
      assert CallsOf(d.calls, kind) + [] == CallsOf(d.calls, kind);
    }
  }

  lemma SomeoneOf(d: Desk)
    requires !NobodyWaits(d)
    ensures LineFor(d, NextKind(d)).num > 0
  {
  }

  lemma CallServes(d: Desk, kind: char)
    requires LineOf(d, kind) && (kind == 'R' || kind == 'P')
    requires !NobodyWaits(d) && CanCall(d.r) && CanCall(d.p) && CanCall(d.s)
    requires ServedFirst(LineFor(d, kind), kind, d.calls)
    ensures var l := LineFor(CallNext(d), kind);
            0 <= Admitted(l) < |l.waiting| && ServedFirst(l, kind, CallNext(d).calls)
  {
    CallShape(d, kind);
    CallServed(LineFor(d, kind), kind, ArrivalsOf(d.processed, kind), d.calls, LetIn(d, kind), d.done, NextCall(d));
  }

  lemma CallLines(d: Desk)
    requires DeskOk(d) && !NobodyWaits(d)
    ensures CanCall(d.r) && CanCall(d.p) && CanCall(d.s)
    ensures LinesOk(CallNext(d)) && NextCall(d).duration >= 1
  {
    LinesCanCall(d);
    CallLine(d, 'R');
    CallLine(d, 'P');
    CallLine(d, 'S');
    CallServes(d, 'R');
    CallServes(d, 'P');
  }

  /** A call at the time the D event came up is in time for everybody still to be called. */
  lemma CallPrompt(l: Line, l': Line, kind: char, arrived: seq<Event>, calls: seq<Call>, letIn: nat, done: bool,
                   c: Call)
    requires LineOk(l, kind, arrived, CallsOf(calls, kind), letIn, done)
    requires Prompt(l, kind, calls) && InTimeFor(l, calls, c.start)
    requires l'.waiting == l.waiting && Admitted(l') == Admitted(l)
    ensures Prompt(l', kind, calls + [c])
  {
    forall i, k | 0 <= i < |calls + [c]| && |CallsOf((calls + [c])[..i], kind)| < k <= Admitted(l') && k < |l'.waiting|
      ensures (calls + [c])[i].start <= Max(LastEnd((calls + [c])[..i]), l'.waiting[k].time)
    {
      if i < |calls| {
        assert (calls + [c])[..i] == calls[..i];
      } else {
        assert (calls + [c])[..i] == calls;
      }
    }
  }

  lemma CallPromptFor(d: Desk, kind: char)
    requires LineOf(d, kind) && Prompt(LineFor(d, kind), kind, d.calls) && InTimeFor(LineFor(d, kind), d.calls, d.now)
    requires !NobodyWaits(d) && CanCall(d.r) && CanCall(d.p) && CanCall(d.s)
    requires kind == 'R' || kind == 'P' || kind == 'S'
    ensures Prompt(LineFor(CallNext(d), kind), kind, CallNext(d).calls)
  {
    hide LineOk, Prompt, InTimeFor, CallNext, ArrivalsOf, CallsOf, LetIn;
    CallShape(d, kind);
    CallPrompt(LineFor(d, kind), LineFor(CallNext(d), kind), kind, ArrivalsOf(d.processed, kind), d.calls,
               LetIn(d, kind), d.done, NextCall(d));
  }

  /** The next consultation is due at the end of this one. */
  lemma CallInTime(d: Desk, rest: multiset<Event>)
    requires !NobodyWaits(d) && CanCall(d.r) && CanCall(d.p) && CanCall(d.s)
    ensures InTime(CallNext(d), rest, d.now + NextCall(d).duration)
  {
    CallShape(d, NextKind(d));
    assert LastEnd(CallNext(d).calls) == d.now + NextCall(d).duration;
    hide CallNext, NextCall, LastEnd;
  }

  /** A round in which somebody waits begins one consultation, now, and D is due at its end. */
  lemma CallKeeps(d: Desk, rest: multiset<Event>)
    requires DeskOk(d) && RestOk(d, rest) && NextStart(d, rest, d.now)
    requires !NobodyWaits(d) && DoctorOnTop(rest, d.now)
    ensures CanCall(d.r) && CanCall(d.p) && CanCall(d.s)
    ensures DeskOk(CallNext(d)) && RestOk(CallNext(d), rest)
    ensures CallNext(d).calls == d.calls + [NextCall(d)] && NextCall(d).start == d.now
    ensures NextStart(CallNext(d), rest, d.now + NextCall(d).duration) && d.now + NextCall(d).duration >= 1
  {
    hide LineOf, ServedFirst, Prompt, InTimeFor, ClosingOk, CallNext;
    LinesCanCall(d);
    CallLines(d);
    CallRecords(d, rest);
    CallPromptFor(d, 'R');
    CallPromptFor(d, 'P');
    CallPromptFor(d, 'S');
    CallInTime(d, rest);
    hide RecordsOk, RestOk, InTime;
  }

  lemma CallRecords(d: Desk, rest: multiset<Event>)
    requires RecordsOk(d) && RestOk(d, rest) && Upcoming(d, d.now) && !d.done
    requires !NobodyWaits(d) && CanCall(d.r) && CanCall(d.p) && CanCall(d.s)
    requires NextCall(d).duration >= 1 && DoctorOnTop(rest, d.now)
    ensures RecordsOk(CallNext(d)) && ClosingOk(CallNext(d)) && RestOk(CallNext(d), rest)
    ensures CallNext(d).calls == d.calls + [NextCall(d)]
    ensures Upcoming(CallNext(d), d.now + NextCall(d).duration)
  {
    CallShape(d, NextKind(d));
  }

  // ---------------------------------------------------------------- the loop

  const DOCTOR := 'D'

  function DEvent(t: int): Event { Event(DOCTOR, t, 0) }

  /** Bounds the steps left: every arrival is taken once, and called at most once. */
  ghost function Work(d: Desk, rest: multiset<Event>): int {
    2 * |rest| + d.r.num + d.p.num + d.s.num
  }

  /** A round in which nobody waits puts D at the next arrival, which then comes first. */
  lemma IdleKeeps(d: Desk, rest: multiset<Event>, first: Event)
    requires RestOk(d, rest) && NextStart(d, rest, d.now) && d.clock != [] && first in rest
    requires (d.closing.Open? ==> !Full(d)) && NobodyWaits(d) && forall x :: x in rest ==> Le(first, x)
    ensures NextStart(d, rest, first.time) && !DoctorOnTop(rest, first.time)
  {
    if d.calls != [] {
      var c := d.calls[|d.calls| - 1];
      assert c in d.calls;
    }
  }

  lemma RoundWork(d: Desk, rest: multiset<Event>, t: int)
    ensures Work(StartRound(d, t), rest) == Work(d, rest)
    ensures CanCall(d.r) && CanCall(d.p) && CanCall(d.s) ==>
              Work(CallNext(d), rest) == Work(d, rest) - if NobodyWaits(d) then 0 else 1
    ensures NobodyWaits(d) && CanCall(d.r) && CanCall(d.p) && CanCall(d.s) ==> CallNext(d) == d
  {
  }

  lemma ArriveWork(d: Desk, rest: multiset<Event>, e: Event)
    requires IsArrival(e) && CanJoin(d, e) && e in rest
    ensures Work(Arrive(d, e), rest - multiset{e}) < Work(d, rest)
  {
  }

  lemma TakeBack(m: multiset<Event>, e: Event)
    ensures (m + multiset{e}) - multiset{e} == m
  {
  }

  class Assistant {
    const queue: EventQueue
    var currentTime: int
    var sessionDone: bool
    var doctorFirstcase: bool
    var reporters: Line
    var patients: Line
    var salesReps: Line
    ghost var calls: seq<Call>
    ghost var processed: seq<Event>
    ghost var clock: seq<int>
    ghost var closing: Closing

    ghost function View(): Desk
      reads this
    {
      Desk(currentTime, sessionDone, doctorFirstcase, reporters, patients, salesReps, calls, processed, clock, closing)
    }

    /** The queue holds the arrivals left and one D event, due at t. */
    ghost predicate Holds(rest: multiset<Event>, t: int)
      reads this, queue, queue.Q
    {
      && queue.Valid() && queue.Q.Length == 128
      && queue.Contents() == rest + multiset{DEvent(t)}
      && DeskOk(View()) && RestOk(View(), rest) && NextStart(View(), rest, t)
    }

    constructor (events: seq<Event>)
      requires |events| <= 127 && forall e :: e in events ==> IsArrival(e)
      ensures fresh(queue) && fresh(queue.Q) && queue.Valid() && queue.Q.Length == 128
      ensures queue.Contents() == multiset(events)
      ensures DeskOk(View()) && RestOk(View(), multiset(events)) && NextStart(View(), multiset(events), 0)
      ensures calls == [] && processed == [] && clock == [] && closing == Open
      ensures reporters.token == patients.token == salesReps.token == 0
    {
      queue := new EventQueue(events);
      currentTime, sessionDone, doctorFirstcase := 0, false, false;
      reporters := Line(0, 0, 0, seq(NUM_REPORTERS + 1, _ => Slot(0, 0)));
      patients := Line(0, 0, 0, seq(NUM_PATIENTS + 1, _ => Slot(0, 0)));
      salesReps := Line(0, 0, 0, seq(NUM_SALES_REPS + 1, _ => Slot(0, 0)));
      calls, processed, clock, closing := [], [], [], Open;
    }

    /** One arrival (session.c:124-211). */
    method TakeArrival(next: Event)
      requires IsArrival(next) && CanJoin(View(), next)
      modifies this
      ensures View() == Arrive(old(View()), next)
    {
      currentTime := next.time;
      if next.kind == 'R' {
        reporters := reporters.(token := reporters.token + 1);
        if !sessionDone {
          var t := reporters.token;
          reporters := reporters.(waiting := reporters.waiting[t := Slot(next.time, next.duration)]);
          reporters := reporters.(num := reporters.num + 1);
        }
      } else if next.kind == 'P' {
        patients := patients.(token := patients.token + 1);
        if !sessionDone && patients.token <= NUM_PATIENTS {
          var t := patients.token;
          patients := patients.(waiting := patients.waiting[t := Slot(next.time, next.duration)]);
          patients := patients.(num := patients.num + 1);
        }
      } else if next.kind == 'S' {
        salesReps := salesReps.(token := salesReps.token + 1);
        if !sessionDone && salesReps.token <= NUM_SALES_REPS {
          var t := salesReps.token;
          salesReps := salesReps.(waiting := salesReps.waiting[t := Slot(next.time, next.duration)]);
          salesReps := salesReps.(num := salesReps.num + 1);
        }
      }
      processed, clock := processed + [next], clock + [next.time];
    }

    /** The top of the queue: the D event, when every arrival is later, or else a first arrival. */
    method Peek(ghost rest: multiset<Event>, ghost t: int) returns (next: Event)
      requires Holds(rest, t)
      ensures queue.n > 0 && next == queue.Q[0] && next in queue.Contents()
      ensures next.kind == DOCTOR ==> next == DEvent(t) && DoctorOnTop(rest, t)
      ensures next.kind != DOCTOR ==> next in rest && next.time <= t && forall x :: x in rest ==> Le(next, x)
    {
      assert DEvent(t) in queue.Contents();
      next := queue.NextEvent();
      forall x | x in rest
        ensures IsArrival(x) && Le(next, x)
      {
        assert x in queue.Contents();
      }
      assert Le(next, DEvent(t));
      assert next in rest || next == DEvent(t);
    }

    method TakeFirst(next: Event, ghost rest: multiset<Event>, ghost t: int)
      requires Holds(rest, t) && queue.n > 0 && next == queue.Q[0]
      requires next in rest && next.time <= t && forall x :: x in rest ==> Le(next, x)
      modifies this, queue, queue.Q
      ensures Holds(rest - multiset{next}, t) && calls == old(calls) && processed == old(processed) + [next]
      ensures Work(View(), rest - multiset{next}) < old(Work(View(), rest))
    {
      hide DeskOk, RestOk, NextStart, Le;
      ArriveKeeps(View(), rest, next, t);
      ArriveWork(View(), rest, next);
      TakeArrival(next);
      queue.DelEvent();
      assert queue.Contents() == (rest - multiset{next}) + multiset{DEvent(t)};
    }

    lemma DStaysQueued(rest: multiset<Event>, t: int)
      requires queue.Valid() && queue.Contents() == rest + multiset{DEvent(t)}
      ensures queue.n > 0
    {
      assert DEvent(t) in queue.Contents();
    }

    /** The inner loop: arrivals are taken until the D event is next (session.c:118-214). */
    method TakeArrivals(ghost rest: multiset<Event>, ghost t: int) returns (ghost left: multiset<Event>)
      requires Holds(rest, t)
      modifies this, queue, queue.Q
      ensures Holds(left, t) && DoctorOnTop(left, t) && calls == old(calls)
      ensures queue.n > 0 && queue.Q[0] == DEvent(t)
      ensures multiset(processed) + left == multiset(old(processed)) + rest
      ensures Work(View(), left) <= old(Work(View(), rest))
      ensures !DoctorOnTop(rest, t) ==> Work(View(), left) < old(Work(View(), rest))
    {
      hide DeskOk, RestOk, NextStart, Le, Work, HeapFrom, Bag, DoctorOnTop;
      left := rest;
      DStaysQueued(rest, t);
      while queue.n != 0
        invariant queue.n > 0
        invariant Holds(left, t) && calls == old(calls)
        invariant multiset(processed) + left == multiset(old(processed)) + rest
        invariant left == rest || Work(View(), left) < old(Work(View(), rest))
        invariant left == rest ==> Work(View(), left) == old(Work(View(), rest))
        decreases |left|
      {
        var next := Peek(left, t);
        if next.kind == DOCTOR {
          return;
        }
        TakeFirst(next, left, t);
        left := left - multiset{next};
        DStaysQueued(left, t);
      }
      assert false;
    }

    /** Lines 249-281: who is called, and when D is due again; 0 stands for nobody. */
    method Consult() returns (t: int)
      requires DeskOk(View())
      requires CanCall(reporters) && CanCall(patients) && CanCall(salesReps)
      modifies this
      ensures View() == CallNext(old(View()))
      ensures t == if old(NobodyWaits(View())) then 0 else old(currentTime) + old(NextCall(View())).duration
    {
      hide DeskOk;
      t := 0;
      if reporters.num > 0 {
        t := currentTime + reporters.waiting[reporters.current + 1].duration;
        calls := calls + [CallOf(reporters, 'R', currentTime)];
        reporters := reporters.(num := reporters.num - 1, current := reporters.current + 1);
      } else if patients.num > 0 {
        t := currentTime + patients.waiting[patients.current + 1].duration;
        calls := calls + [CallOf(patients, 'P', currentTime)];
        patients := patients.(num := patients.num - 1, current := patients.current + 1);
      } else if salesReps.num > 0 {
        t := currentTime + salesReps.waiting[salesReps.current + 1].duration;
        calls := calls + [CallOf(salesReps, 'S', currentTime)];
        salesReps := salesReps.(num := salesReps.num - 1, current := salesReps.current + 1);
      }
    }

    /** Lines 219-235: the D event is taken and the end of the session is noticed. */
    method BeginRound(ghost rest: multiset<Event>, ghost t: int)
      requires Holds(rest, t) && DoctorOnTop(rest, t) && queue.n > 0 && queue.Q[0] == DEvent(t)
      modifies this, queue, queue.Q
      ensures View() == StartRound(old(View()), t)
      ensures queue.Valid() && queue.Contents() == rest && queue.n == old(queue.n) - 1
    {
      hide DeskOk, RestOk, NextStart, HeapFrom, DoctorOnTop, Le;
      var next := queue.NextEvent();
      queue.DelEvent();
      currentTime := next.time;
      clock := clock + [next.time];
      if reporters.num == 0 && patients.current >= NUM_PATIENTS && salesReps.current >= NUM_SALES_REPS {
        if !sessionDone {
          closing := Closed(|processed|, next.time);
        }
        sessionDone := true;
      }
      if !doctorFirstcase && sessionDone {
        doctorFirstcase := true;
      }
      TakeBack(rest, DEvent(t));
    }

    /** Lines 249-296: a consultation is begun, or D is put off to the next arrival, or all is over. */
    method Settle(ghost rest: multiset<Event>) returns (stop: bool, ghost t: int)
      requires queue.Valid() && queue.Q.Length == 128 && queue.Contents() == rest && queue.n <= 127
      requires DeskOk(View()) && RestOk(View(), rest) && NextStart(View(), rest, currentTime) && clock != []
      requires CanCall(reporters) && CanCall(patients) && CanCall(salesReps) && DoctorOnTop(rest, currentTime)
      requires closing.Open? && NobodyWaits(View()) ==> !Full(View())
      modifies this, queue, queue.Q
      ensures View() == CallNext(old(View()))
      ensures stop ==> rest == multiset{} && queue.n == 0 && old(NobodyWaits(View()))
      ensures !stop ==> Holds(rest, t) && (old(NobodyWaits(View())) ==> !DoctorOnTop(rest, t))
    {
      hide DeskOk, RestOk, NextStart, HeapFrom, DoctorOnTop, Bag, Le, CallNext, NextCall, Work, Full;
      ghost var d := View();
      if !NobodyWaits(d) {
        CallKeeps(d, rest);
      } else {
        RoundWork(d, rest, currentTime);
      }
      var time := Consult();
      assert time == 0 <==> NobodyWaits(d);
      if time == 0 {
        var empty := queue.EmptyQ();
        queue.EmptyContents();
        if empty {
          return true, 0;
        }
        var first := queue.NextEvent();
        IdleKeeps(d, rest, first);
        time := first.time;
      }
      queue.AddEvent(Event(DOCTOR, time, 0));
      return false, time;
    }

    /** The outer loop's body after the arrivals: stop is its second break. */
    method Round(ghost rest: multiset<Event>, ghost t: int) returns (stop: bool, ghost t': int)
      requires Holds(rest, t) && DoctorOnTop(rest, t) && queue.n > 0 && queue.Q[0] == DEvent(t)
      modifies this, queue, queue.Q
      ensures processed == old(processed)
      ensures stop ==> rest == multiset{} && queue.n == 0 && DeskOk(View()) && NobodyWaits(View())
      ensures stop && closing.Open? ==> !Full(View())
      ensures !stop ==> Holds(rest, t')
      ensures !stop ==>
                || Work(View(), rest) < old(Work(View(), rest))
                || (Work(View(), rest) == old(Work(View(), rest)) && !DoctorOnTop(rest, t'))
    {
      hide DeskOk, RestOk, NextStart, Work, HeapFrom;
      StartKeeps(View(), rest, t);
      RoundWork(View(), rest, t);
      BeginRound(rest, t);
      RoundWork(View(), rest, t);
      stop, t' := Settle(rest);
    }

    method QueueDoctor(ghost events: seq<Event>)
      requires queue.Valid() && queue.Q.Length == 128 && queue.Contents() == multiset(events) && |events| <= 127
      requires DeskOk(View()) && RestOk(View(), multiset(events)) && NextStart(View(), multiset(events), 0)
      modifies queue, queue.Q
      ensures Holds(multiset(events), 0)
    {
      hide DeskOk, RestOk, NextStart, HeapFrom;
      assert queue.n == |queue.Contents()|;
      queue.AddEvent(Event(DOCTOR, 0, 0));
    }

    lemma WorkLeft(rest: multiset<Event>, t: int)
      requires Holds(rest, t)
      ensures Work(View(), rest) >= 0
    {
      WorkNonNegative(View(), rest);
    }

    /** assistant(), from the first D event to the break that ends the session. */
    method Run(ghost events: seq<Event>)
      requires queue.Valid() && queue.Q.Length == 128 && queue.Contents() == multiset(events) && |events| <= 127
      requires DeskOk(View()) && RestOk(View(), multiset(events)) && NextStart(View(), multiset(events), 0)
      requires calls == [] && processed == []
      modifies this, queue, queue.Q
      ensures queue.n == 0 && sessionDone && SessionOver(View())
      ensures multiset(processed) == multiset(events)
    {
      hide Holds, DeskOk, RestOk, NextStart, HeapFrom, Work, DoctorOnTop;
      ghost var rest, t := multiset(events), 0;
      QueueDoctor(events);
      while true
        invariant Holds(rest, t) && multiset(processed) + rest == multiset(events)
        decreases Work(View(), rest), if DoctorOnTop(rest, t) then 1 else 0
      {
        WorkLeft(rest, t);
        rest := TakeArrivals(rest, t);
        if queue.n == 0 {
          break;
        }
        var stop;
        stop, t := Round(rest, t);
        if stop {
          break;
        }
      }
      CloseKeeps(View());
      if !sessionDone {
        sessionDone := true;
      }
    }
  }

  lemma WorkNonNegative(d: Desk, rest: multiset<Event>)
    requires DeskOk(d)
    ensures Work(d, rest) >= 0
  {
    assert LineOf(d, 'R') && LineOf(d, 'P') && LineOf(d, 'S');
  }

  lemma CloseLine(d: Desk, kind: char)
    requires LineOf(d, kind) && LineFor(d, kind).num <= 0
    ensures LineOf(d.(done := true), kind)
  {
  }

  lemma CloseRecords(d: Desk)
    requires RecordsOk(d) && ClosingOk(d)
    ensures RecordsOk(d.(done := true)) && ClosingOk(d.(done := true))
    ensures d.closing.Closed? ==> Full(d)
  {
    hide Sorted, NoOverlap, Nondecreasing;
  }

  lemma CloseKeeps(d: Desk)
    requires DeskOk(d) && NobodyWaits(d) && (d.closing.Open? ==> !Full(d))
    ensures SessionOver(d.(done := true))
  {
    hide LineOf, ServedFirst, RecordsOk, ClosingOk, Prompt;
    CloseLine(d, 'R');
    CloseLine(d, 'P');
    CloseLine(d, 'S');
    CloseRecords(d);
  }

  // ---------------------------------------------------------------- the session as a whole

  /** The i-th call of the session carries the next token of its class. */
  lemma {:induction false} CallIndex(s: seq<Call>, i: nat)
    requires i < |s|
    ensures var k := |CallsOf(s[..i], s[i].kind)|; k < |CallsOf(s, s[i].kind)| && CallsOf(s, s[i].kind)[k] == s[i]
    decreases |s|
  {
    var m := |s| - 1;
    if i < m {
      CallIndex(s[..m], i);
      assert s[..m][..i] == s[..i];
    } else {
      assert s[..i] == s[..m];
    }
  }

  lemma {:induction false} CallsOfGrow(s: seq<Call>, i: nat, j: nat, kind: char)
    requires i <= j <= |s|
    ensures |CallsOf(s[..i], kind)| <= |CallsOf(s[..j], kind)|
    ensures i < j && s[i].kind == kind ==> |CallsOf(s[..i], kind)| < |CallsOf(s[..j], kind)|
  {
    if i < j {
      assert s[..j][..j - 1] == s[..j - 1];
      CallsOfGrow(s, i, j - 1, kind);
    }
  }

  lemma {:induction false} CalledSomewhere(s: seq<Call>, kind: char, k: nat) returns (i: nat)
    requires k < |CallsOf(s, kind)|
    ensures i < |s| && s[i] == CallsOf(s, kind)[k]
  {
    var m := |s| - 1;
    if k < |CallsOf(s[..m], kind)| {
      i := CalledSomewhere(s[..m], kind, k);
    } else {
      i := m;
    }
  }

  /** The k-th call of a class is for its k-th arrival. */
  lemma CalledAs(d: Desk, kind: char, k: nat)
    requires LinesOk(d) && (kind == 'R' || kind == 'P' || kind == 'S') && k < |CallsOf(d.calls, kind)|
    ensures k < |ArrivalsOf(d.processed, kind)|
    ensures var c, e := CallsOf(d.calls, kind)[k], ArrivalsOf(d.processed, kind)[k];
            c.kind == kind && c.token == k + 1 && c.start >= e.time && c.duration == e.duration
  {
    assert LineOf(d, kind);
    assert CallsOf(d.calls, kind)[k] in CallsOf(d.calls, kind);
    hide ArrivalsOf, CallsOf, ServedFirst;
  }

  /** Calls are numbered by the tokens of their class. */
  lemma CallToken(d: Desk, i: nat)
    requires LinesOk(d) && i < |d.calls| && Rank(d.calls[i].kind) < 3
    ensures d.calls[i].token == |CallsOf(d.calls[..i], d.calls[i].kind)| + 1
  {
    hide LinesOk, CallsOf, ArrivalsOf;
    CallIndex(d.calls, i);
    CalledAs(d, d.calls[i].kind, |CallsOf(d.calls[..i], d.calls[i].kind)|);
  }

  /** Within a class calls go out in token order. */
  lemma CallsInTokenOrder(d: Desk, i: nat, j: nat)
    requires DeskOk(d) && i < j < |d.calls| && d.calls[i].kind == d.calls[j].kind
    ensures d.calls[i].token < d.calls[j].token
  {
    assert d.calls[i] in d.calls;
    hide LinesOk;
    CallToken(d, i);
    CallToken(d, j);
    CallsOfGrow(d.calls, i, j, d.calls[i].kind);
  }

  /** Consultations of the whole session never overlap. */
  lemma {:induction false} CallsNeverOverlap(calls: seq<Call>, i: nat, j: nat)
    requires NoOverlap(calls) && (forall c :: c in calls ==> c.duration >= 1) && i < j < |calls|
    ensures calls[i].start + calls[i].duration <= calls[j].start
  {
    assert calls[j - 1].start + calls[j - 1].duration <= calls[j - 1 + 1].start;
    if i + 1 < j {
      CallsNeverOverlap(calls, i, j - 1);
      assert calls[j - 1] in calls;
    }
  }

  lemma {:induction false} CallsOfPrefix(s: seq<Call>, i: nat, kind: char)
    requires i <= |s|
    ensures CallsOf(s[..i], kind) <= CallsOf(s, kind)
  {
    if i == |s| {
      assert s[..i] == s;
    } else {
      CallsOfPrefix(s[..|s| - 1], i, kind);
      assert s[..|s| - 1][..i] == s[..i];
    }
  }

  /** A reporter let in that had come when a patient was called had been called before, and so for reporters
      and patients before sales representatives. */
  lemma ClassesInOrder(d: Desk, i: nat, kind: char, k: nat) returns (j: nat)
    requires DeskOk(d) && i < |d.calls|
    requires || (kind == 'R' && (d.calls[i].kind == 'P' || d.calls[i].kind == 'S'))
             || (kind == 'P' && d.calls[i].kind == 'S')
    requires k < LetIn(d, kind) && k < |ArrivalsOf(d.processed, kind)|
    requires ArrivalsOf(d.processed, kind)[k].time <= d.calls[i].start
    ensures j < i && d.calls[j].kind == kind && d.calls[j].token == k + 1
  {
    CalledFirst(d, i, kind, k);
    hide LinesOk, ClosingOk, RecordsOk, ArrivalsOf, CallsOf, LetIn;
    j := CalledSomewhere(d.calls[..i], kind, k);
    CallsOfPrefix(d.calls, i, kind);
    CalledAs(d, kind, k);
  }

  lemma CalledFirst(d: Desk, i: nat, kind: char, k: nat)
    requires LinesOk(d) && i < |d.calls| && (kind == 'R' || kind == 'P') && Rank(kind) < Rank(d.calls[i].kind)
    requires k < LetIn(d, kind) && k < |ArrivalsOf(d.processed, kind)|
    requires ArrivalsOf(d.processed, kind)[k].time <= d.calls[i].start
    ensures k < |CallsOf(d.calls[..i], kind)|
  {
    assert LineOf(d, kind) && ServedFirst(LineFor(d, kind), kind, d.calls);
    hide ArrivalsOf, CallsOf;
    var l := LineFor(d, kind);
    assert l.waiting[k + 1].time == ArrivalsOf(d.processed, kind)[k + 1 - 1].time;
  }

  // ---------------------------------------------------------------- who has been called

  /** Enough patients and sales representatives came to fill both quotas. */
  ghost predicate QuotasFilled(arrivals: seq<Event>) {
    |ArrivalsOf(arrivals, 'P')| >= 25 && |ArrivalsOf(arrivals, 'S')| >= 3
  }

  /** The k-th arrival of a class is to be called: patients and sales representatives up to the quota;
      reporters always, unless both quotas were filled and it came after the last consultation. */
  ghost predicate ToBeCalled(arrivals: seq<Event>, calls: seq<Call>, kind: char, k: nat)
    requires k < |ArrivalsOf(arrivals, kind)|
  {
    if kind == 'R' then QuotasFilled(arrivals) ==> ArrivalsOf(arrivals, 'R')[k].time <= LastEnd(calls)
    else if kind == 'P' then k < 25
    else k < 3
  }

  lemma {:induction false} ArrivalsSplit(s: seq<Event>, m: nat, kind: char)
    requires m <= |s|
    ensures ArrivalsOf(s, kind) == ArrivalsOf(s[..m], kind) + ArrivalsOf(s[m..], kind)
  {
    NoArrivals(kind);
    hide ArrivalsOf;
    if m == |s| {
      assert s[..m] == s && s[m..] == [];
    } else {
      var front, last := s[..|s| - 1], s[|s| - 1];
      ArrivalsSplit(front, m, kind);
      ArrivalsGrow(front, last, kind);
      ArrivalsGrow(front[m..], last, kind);
      assert s == front + [last] && front[..m] == s[..m] && s[m..] == front[m..] + [last];
    }
  }

  lemma NoArrivals(kind: char)
    ensures ArrivalsOf([], kind) == []
  {
  }

  /** When nobody waits all that were let in have been called. */
  lemma AllCalled(d: Desk, kind: char)
    requires LinesOk(d) && NobodyWaits(d) && (kind == 'R' || kind == 'P' || kind == 'S')
    ensures LineFor(d, kind).current == LetIn(d, kind) == |CallsOf(d.calls, kind)|
  {
    assert LineOf(d, kind);
  }

  /** The loop has closed the session exactly when enough patients and sales representatives came. */
  lemma ClosedIffFilled(d: Desk)
    requires SessionOver(d)
    ensures d.closing.Closed? <==> QuotasFilled(d.processed)
  {
    hide LineOf, ServedFirst, RecordsOk, ArrivalsOf, CallsOf;
    AllCalled(d, 'P');
    AllCalled(d, 'S');
    if d.closing.Closed? {
      ArrivalsSplit(d.processed, d.closing.taken, 'P');
      ArrivalsSplit(d.processed, d.closing.taken, 'S');
    }
  }

  /** The arrivals of a class at the end of the session: those taken before come first and early enough. */
  lemma ClosingDivides(d: Desk, kind: char, k: nat)
    requires ClosingOk(d) && d.closing.Closed? && k < |ArrivalsOf(d.processed, kind)|
    ensures k < |ArrivalsOf(Before(d), kind)| <==> ArrivalsOf(d.processed, kind)[k].time <= LastEnd(d.calls)
  {
    var s, m := d.processed, d.closing.taken;
    ArrivalsSplit(s, m, kind);
    var first, later := ArrivalsOf(s[..m], kind), ArrivalsOf(s[m..], kind);
    hide ArrivalsOf, LastEnd;
    if k < |first| {
      assert first[k] in first && first[k] in s[..m];
    } else {
      assert later[k - |first|] in later && later[k - |first|] in s[m..];
    }
  }

  /** Over all arrivals: the first 25 patients and the first 3 sales representatives were let in, and the
      reporters that came by the end of the last consultation. */
  lemma WhoWasLetIn(d: Desk, kind: char, k: nat)
    requires SessionOver(d) && (kind == 'R' || kind == 'P' || kind == 'S') && k < |ArrivalsOf(d.processed, kind)|
    ensures k < LetIn(d, kind) <==> ToBeCalled(d.processed, d.calls, kind, k)
  {
    hide LineOf, ServedFirst, RecordsOk, ArrivalsOf, CallsOf, LastEnd;
    ClosedIffFilled(d);
    AllCalled(d, kind);
    if d.closing.Closed? && kind == 'R' {
      hide QuotasFilled;
      ClosingDivides(d, kind, k);
    }
  }

  /** At the end of the session an arrival has been called if and only if it was to be called: then once,
      under its own number, not before it came and for its own duration. */
  lemma EveryoneCalledOnce(d: Desk, kind: char, k: nat)
    requires SessionOver(d) && (kind == 'R' || kind == 'P' || kind == 'S') && k < |ArrivalsOf(d.processed, kind)|
    ensures ToBeCalled(d.processed, d.calls, kind, k)
       <==> exists i :: 0 <= i < |d.calls| && d.calls[i].kind == kind && d.calls[i].token == k + 1
    ensures forall i, j :: 0 <= i < j < |d.calls| && d.calls[i].kind == d.calls[j].kind == kind ==>
                             d.calls[i].token != d.calls[j].token
    ensures forall i :: 0 <= i < |d.calls| && d.calls[i].kind == kind && d.calls[i].token == k + 1 ==>
              var e := ArrivalsOf(d.processed, kind)[k];
              d.calls[i].start >= e.time && d.calls[i].duration == e.duration
  {
    hide ToBeCalled, LetIn, ClosingOk, RecordsOk, LinesOk, ArrivalsOf, CallsOf;
    WhoWasLetIn(d, kind, k);
    AllCalled(d, kind);
    if k < LetIn(d, kind) {
      var i := CalledSomewhere(d.calls, kind, k);
      CalledAs(d, kind, k);
    }
    forall i | 0 <= i < |d.calls| && d.calls[i].kind == kind && d.calls[i].token == k + 1
      ensures k < LetIn(d, kind)
      ensures var e := ArrivalsOf(d.processed, kind)[k];
              d.calls[i].start >= e.time && d.calls[i].duration == e.duration
    {
      CallIndex(d.calls, i);
      CallToken(d, i);
      CalledAs(d, kind, k);
    }
    forall i, j | 0 <= i < j < |d.calls| && d.calls[i].kind == d.calls[j].kind == kind
      ensures d.calls[i].token != d.calls[j].token
    {
      CallsInTokenOrder(d, i, j);
    }
  }

  // ---------------------------------------------------------------- when they are called

  /** The k-th arrival of a class is to be called and has not been called before call i. */
  ghost predicate Uncalled(d: Desk, i: nat, kind: char, k: nat)
    requires i <= |d.calls|
  {
    && (kind == 'R' || kind == 'P' || kind == 'S')
    && k < |ArrivalsOf(d.processed, kind)| && ToBeCalled(d.processed, d.calls, kind, k)
    && forall j :: 0 <= j < i ==> !(d.calls[j].kind == kind && d.calls[j].token == k + 1)
  }

  lemma UncalledLater(d: Desk, i: nat, kind: char, k: nat)
    requires SessionOver(d) && i <= |d.calls| && Uncalled(d, i, kind, k)
    ensures |CallsOf(d.calls[..i], kind)| <= k < LetIn(d, kind)
  {
    hide LinesOk, ClosingOk, RecordsOk, PromptOk, ArrivalsOf, CallsOf, LetIn, ToBeCalled;
    WhoWasLetIn(d, kind, k);
    if k < |CallsOf(d.calls[..i], kind)| {
      var j := CalledSomewhere(d.calls[..i], kind, k);
      CallsOfPrefix(d.calls, i, kind);
      CalledAs(d, kind, k);
    }
  }

  /** No call could have been sooner: not for any visitor still to be called. */
  lemma NoneSooner(d: Desk, i: nat, kind: char, k: nat)
    requires SessionOver(d) && i < |d.calls| && Uncalled(d, i, kind, k)
    ensures d.calls[i].start <= Max(LastEnd(d.calls[..i]), ArrivalsOf(d.processed, kind)[k].time)
  {
    UncalledLater(d, i, kind, k);
    LetInWaits(d, kind, k);
    hide LinesOk, ClosingOk, RecordsOk, ArrivalsOf, CallsOf, LetIn, ToBeCalled, LastEnd;
    assert Prompt(LineFor(d, kind), kind, d.calls);
  }

  lemma LetInWaits(d: Desk, kind: char, k: nat)
    requires LinesOk(d) && (kind == 'R' || kind == 'P' || kind == 'S') && k < LetIn(d, kind)
    ensures var l := LineFor(d, kind);
            && k + 1 <= Admitted(l) && k + 1 < |l.waiting| && k < |ArrivalsOf(d.processed, kind)|
            && l.waiting[k + 1].time == ArrivalsOf(d.processed, kind)[k].time
  {
    assert LineOf(d, kind);
    hide ArrivalsOf, CallsOf;
    assert ArrivalsOf(d.processed, kind)[k + 1 - 1] == ArrivalsOf(d.processed, kind)[k];
  }

  /** The visitor of call i was still to be called, and had come; the consultation before was over. */
  lemma OwnTurn(d: Desk, i: nat) returns (k: nat)
    requires SessionOver(d) && i < |d.calls|
    ensures Uncalled(d, i, d.calls[i].kind, k) && d.calls[i].token == k + 1
    ensures ArrivalsOf(d.processed, d.calls[i].kind)[k].time <= d.calls[i].start
    ensures i > 0 ==> LastEnd(d.calls[..i]) <= d.calls[i].start
  {
    var kind := d.calls[i].kind;
    assert d.calls[i] in d.calls;
    hide LinesOk, ClosingOk, PromptOk, ArrivalsOf, CallsOf, LetIn, ToBeCalled;
    CallIndex(d.calls, i);
    k := |CallsOf(d.calls[..i], kind)|;
    CalledAs(d, kind, k);
    EveryoneCalledOnce(d, kind, k);
    if i > 0 {
      AfterPrevious(d, i);
    }
  }

  /** A consultation does not start before the one called before it has ended. */
  lemma AfterPrevious(d: Desk, i: nat)
    requires SessionOver(d) && 0 < i < |d.calls|
    ensures LastEnd(d.calls[..i]) <= d.calls[i].start
  {
    hide LinesOk, ClosingOk, PromptOk, ArrivalsOf, CallsOf, LetIn, ToBeCalled;
    assert d.calls[i - 1].start + d.calls[i - 1].duration <= d.calls[i - 1 + 1].start;
  }

  /** The first consultation does not start before time 0, when the doctor is ready. */
  lemma FirstNotBeforeZero(d: Desk)
    requires DeskOk(d) && d.calls != []
    ensures 0 <= d.calls[0].start
  {
    hide LinesOk, ClosingOk, PromptOk;
  }

  /** Every consultation starts at the end of the one before (time 0 for the first) or, if that is later,
      when the first comes of those still to be called: the doctor never idles while somebody waits. */
  lemma StartTime(d: Desk, i: nat, kind: char, k: nat)
    requires SessionOver(d) && i < |d.calls| && Uncalled(d, i, kind, k)
    requires forall kind', k': nat :: Uncalled(d, i, kind', k') ==>
               ArrivalsOf(d.processed, kind)[k].time <= ArrivalsOf(d.processed, kind')[k'].time
    ensures d.calls[i].start
         == Max(if i == 0 then 0 else d.calls[i - 1].start + d.calls[i - 1].duration,
                ArrivalsOf(d.processed, kind)[k].time)
  {
    hide SessionOver, ArrivalsOf, ToBeCalled;
    NoneSooner(d, i, kind, k);
    var own := OwnTurn(d, i);
    if i == 0 {
      SessionDesk(d);
      FirstNotBeforeZero(d);
    }
  }

  lemma SessionDesk(d: Desk)
    requires SessionOver(d)
    ensures DeskOk(d)
  {
    hide DeskOk;
  }
}
