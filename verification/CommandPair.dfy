/** CSE.c: two processes joined by two pipes, exchanging the input and execute roles on `swaprole`. */
module CommandPair {

  const MAX := 100
  const NEWLINE := '\n'
  const NUL := '\0'
  const EXIT := "exit"
  const SWAP := "swaprole"

  // ---------------------------------------------------------------- lines as fgets cuts them

  /** fgets(buff, MAX - 1, ...): up to a newline, or MAX - 2 characters. */
  function Fgets(s: string, room: nat := MAX - 2): (c: string)
    ensures c <= s && |c| <= room
  {
    if room == 0 || s == "" then "" else if s[0] == NEWLINE then s[..1] else s[..1] + Fgets(s[1..], room - 1)
  }

  /** What a full read returns: a newline ends it, or the buffer is full; lines hold no NUL. */
  predicate IsChunk(c: string, room: nat := MAX - 2) {
    && 0 < |c| <= room
    && (forall i :: 0 <= i < |c| ==> c[i] != NUL && (i < |c| - 1 ==> c[i] != NEWLINE))
    && (c[|c| - 1] == NEWLINE || |c| == room)
  }

  function Flat(cs: seq<string>): string {
    if cs == [] then "" else cs[0] + Flat(cs[1..])
  }

  predicate AllChunks(cs: seq<string>) {
    forall i :: 0 <= i < |cs| ==> IsChunk(cs[i])
  }

  /** The stream cut by repeated reads. */
  function Cut(s: string): seq<string> {
    if s == "" then [] else
      var c := Fgets(s);
      assert |c| > 0;
      [c] + Cut(s[|c|..])
  }

  lemma {:induction false} FgetsReturnsChunk(c: string, rest: string, room: nat)
    requires IsChunk(c, room)
    ensures Fgets(c + rest, room) == c
  {
    var s := c + rest;
    assert s[0] == c[0];
    if c[0] != NEWLINE && |c| > 1 {
      assert s[1..] == c[1..] + rest;
      FgetsReturnsChunk(c[1..], rest, room - 1);
      assert c == c[..1] + c[1..];
    } else {
      assert c == s[..1];
      assert c[0] != NEWLINE ==> Fgets(s[1..], room - 1) == "";
    }
  }

  /** Re-chunking the byte stream with the reader's rule gives back the writer's chunks, lines longer than
      the buffer included. */
  lemma {:induction false} CutFlat(cs: seq<string>)
    requires AllChunks(cs)
    ensures Cut(Flat(cs)) == cs
  {
    if cs != [] {
      FgetsReturnsChunk(cs[0], Flat(cs[1..]), MAX - 2);
      assert Flat(cs)[|cs[0]|..] == Flat(cs[1..]);
      CutFlat(cs[1..]);
    }
  }

  lemma {:induction false} FlatAppend(cs: seq<string>, c: string)
    ensures Flat(cs + [c]) == Flat(cs) + c
  {
    if cs == [] {
      assert [c][1..] == [];
    } else {
      assert (cs + [c])[1..] == cs[1..] + [c];
      FlatAppend(cs[1..], c);
    }
  }

  // ---------------------------------------------------------------- what a line says

  /** strstr(text, word) finds something. */
  predicate Contains(text: string, word: string) {
    exists i :: 0 <= i <= |text| && word <= text[i..]
  }

  /** The reader's loop that puts a NUL in place of the newline. */
  function Strip(c: string): string
    requires IsChunk(c)
  {
    if c[|c| - 1] == NEWLINE then c[..|c| - 1] else c
  }

  /** The writer looks for a word before the newline is stripped, the reader after: they agree. */
  lemma StripKeepsWords(c: string, word: string)
    requires IsChunk(c) && word != "" && NEWLINE !in word
    ensures Contains(Strip(c), word) <==> Contains(c, word)
  {
    var t := Strip(c);
    if Contains(c, word) {
      var i :| 0 <= i <= |c| && word <= c[i..];
      assert forall k :: 0 <= k < |word| ==> c[i..][k] == word[k];
      assert c[i..][|word| - 1] in word;
      assert i <= |t| && word <= t[i..];
    }
    if Contains(t, word) {
      var i :| 0 <= i <= |t| && word <= t[i..];
      assert c[i..][..|word|] == t[i..][..|word|];
      assert word <= c[i..];
    }
  }

  /** The reader stops after the first newline, or after 98 characters, or at the end of the stream. */
  lemma {:induction false} FgetsStops(s: string, room: nat)
    ensures var c := Fgets(s, room);
            && c <= s && |c| <= room
            && (forall i :: 0 <= i < |c| - 1 ==> c[i] != NEWLINE)
            && (|c| == room || c == s || (c != "" && c[|c| - 1] == NEWLINE))
  {
    if room > 0 && s != "" && s[0] != NEWLINE {
      FgetsStops(s[1..], room - 1);
      assert s == s[..1] + s[1..];
    }
  }

  /** With the buffer of 100 characters of both loops. */
  lemma OneRead(s: string)
    ensures var c := Fgets(s);
            && c <= s && |c| <= 98
            && (forall i :: 0 <= i < |c| - 1 ==> c[i] != '\n')
            && (|c| == 98 || c == s || (c != "" && c[|c| - 1] == '\n'))
  {
    FgetsStops(s, MAX - 2);
  }

  // ---------------------------------------------------------------- the two processes

  datatype Role = Input | Execute | Exited

  /** The side reads from the terminal or the other side's pipe. history lists the lines handled, typed or read. */
  datatype Side = Side(role: Role, history: seq<string>)

  /** Pipe a runs from the first child to the second, pipe b back; each holds the bytes written and
      not yet consumed, in the kernel or in the reader's stdio buffer. */
  datatype State = State(first: Side, second: Side, a: string, b: string)

  function After(line: string, here: Role, other: Role): Role {
    if Contains(line, EXIT) then Exited else if Contains(line, SWAP) then other else here
  }

  /** What a line does to the role, wherever in the line the words stand. */
  lemma WordsInALine(line: string, here: Role, other: Role)
    ensures After(line, here, other) ==
            if exists i, j :: 0 <= i <= j <= |line| && line[i..j] == "exit" then Exited
            else if exists i, j :: 0 <= i <= j <= |line| && line[i..j] == "swaprole" then other
            else here
  {
    SomewhereInside(line, EXIT);
    SomewhereInside(line, SWAP);
  }

  lemma SomewhereInside(text: string, word: string)
    ensures Contains(text, word) <==> exists i, j :: 0 <= i <= j <= |text| && text[i..j] == word
  {
    if Contains(text, word) {
      var i :| 0 <= i <= |text| && word <= text[i..];
      assert text[i..i + |word|] == text[i..][..|word|] == word;
    }
    if i, j :| 0 <= i <= j <= |text| && text[i..j] == word {
      assert word == text[i..][..j - i];
      assert word <= text[i..];
    }
  }

  /** A line with swaprole in its middle, and no exit anywhere, changes the role. */
  lemma SwapInTheMiddle(a: string, b: string, here: Role, other: Role)
    requires forall i, j :: 0 <= i <= j <= |a + "swaprole" + b| ==> (a + "swaprole" + b)[i..j] != "exit"
    ensures After(a + "swaprole" + b, here, other) == other
  {
    var line := a + "swaprole" + b;
    assert line[|a|..|a| + 8] == "swaprole";
    WordsInALine(line, here, other);
  }

  /** Input turn: the line typed goes down the pipe. */
  function Type(p: Side, line: string): Side {
    Side(After(line, Input, Execute), p.history + [line])
  }

  /** Execute turn: one line is read, stripped and looked at. */
  function Read(p: Side, pipe: string): Side
    requires IsChunk(Fgets(pipe))
  {
    Side(After(Strip(Fgets(pipe)), Execute, Input), p.history + [Fgets(pipe)])
  }

  datatype Turn = FirstTypes(line: string) | FirstReads | SecondTypes(line: string) | SecondReads

  predicate Enabled(s: State, t: Turn) {
    match t
    case FirstTypes(line) => s.first.role.Input? && IsChunk(line)
    case FirstReads => s.first.role.Execute? && IsChunk(Fgets(s.b))
    case SecondTypes(line) => s.second.role.Input? && IsChunk(line)
    case SecondReads => s.second.role.Execute? && IsChunk(Fgets(s.a))
  }

  function Step(s: State, t: Turn): State
    requires Enabled(s, t)
  {
    match t
    case FirstTypes(line) => s.(first := Type(s.first, line), a := s.a + line)
    case FirstReads => s.(first := Read(s.first, s.b), b := s.b[|Fgets(s.b)|..])
    case SecondTypes(line) => s.(second := Type(s.second, line), b := s.b + line)
    case SecondReads => s.(second := Read(s.second, s.a), a := s.a[|Fgets(s.a)|..])
  }

  predicate Init(s: State) {
    s == State(Side(Input, []), Side(Execute, []), "", "")
  }

  // ---------------------------------------------------------------- the invariant

  predicate Plain(line: string) { !Contains(line, EXIT) && !Contains(line, SWAP) }

  predicate AllPlain(cs: seq<string>) {
    forall i :: 0 <= i < |cs| ==> Plain(cs[i])
  }

  /** x leads: y has seen all x has but the lines in flight, and the last of these tells x's role. */
  ghost predicate Leads(x: Side, y: Side, pipe: string) {
    && y.history <= x.history
    && var flight := x.history[|y.history|..];
    && AllChunks(flight) && pipe == Flat(flight)
    && match x.role
       case Input => y.role.Execute? && AllPlain(flight)
       case Execute =>
         y.role.Execute? && flight != [] && EndsWith(flight, SWAP) && !Contains(flight[|flight| - 1], EXIT)
       case Exited => if y.role.Exited? then flight == [] else y.role.Execute? && flight != [] && EndsWith(flight, EXIT)
  }

  /** Only the last line has the word. */
  ghost predicate EndsWith(cs: seq<string>, word: string)
    requires cs != []
  {
    AllPlain(cs[..|cs| - 1]) && Contains(cs[|cs| - 1], word)
  }

  ghost predicate Inv(s: State) {
    (Leads(s.first, s.second, s.a) && s.b == "") || (Leads(s.second, s.first, s.b) && s.a == "")
  }

  lemma TypeKeeps(x: Side, y: Side, pipe: string, line: string)
    requires Leads(x, y, pipe) && x.role.Input? && IsChunk(line)
    ensures Leads(Type(x, line), y, pipe + line)
  {
    var flight := x.history[|y.history|..];
    FlatAppend(flight, line);
    assert Type(x, line).history[|y.history|..] == flight + [line];
    assert (flight + [line])[..|flight|] == flight;
  }

  /** The follower reads the leader's oldest unread line; reading a swap makes it the leader, and then
      nothing is left in the pipe. */
  lemma ReadKeeps(x: Side, y: Side, pipe: string)
    requires Leads(x, y, pipe) && y.role.Execute? && IsChunk(Fgets(pipe))
    ensures var y', pipe' := Read(y, pipe), pipe[|Fgets(pipe)|..];
            Leads(x, y', pipe') || (Leads(y', x, "") && pipe' == "" && y'.role.Input?)
  {
    var flight := x.history[|y.history|..];
    assert flight != [];
    var line := flight[0];
    FgetsReturnsChunk(line, Flat(flight[1..]), MAX - 2);
    StripKeepsWords(line, EXIT);
    StripKeepsWords(line, SWAP);
    assert pipe == line + Flat(flight[1..]);
    assert pipe[|line|..] == Flat(flight[1..]);
    var y' := Read(y, pipe);
    assert x.history[|y'.history|..] == flight[1..];
    if |flight| == 1 {
      assert Flat(flight[1..]) == "";
      assert y'.history == x.history;
    } else {
      assert flight[..|flight| - 1][0] == line;
      assert flight[1..][..|flight| - 2] == flight[..|flight| - 1][1..];
    }
  }

  lemma InitInv(s: State)
    requires Init(s)
    ensures Inv(s)
  {
  }

  lemma StepInv(s: State, t: Turn)
    requires Inv(s) && Enabled(s, t)
    ensures Inv(Step(s, t))
  {
    assert Fgets("") == "";
    if Leads(s.first, s.second, s.a) && s.b == "" {
      match t {
        case FirstTypes(line) => TypeKeeps(s.first, s.second, s.a, line);
        case SecondReads => ReadKeeps(s.first, s.second, s.a);
      }
    } else {
      match t {
        case SecondTypes(line) => TypeKeeps(s.second, s.first, s.b, line);
        case FirstReads => ReadKeeps(s.second, s.first, s.b);
      }
    }
  }

  // ---------------------------------------------------------------- every run

  ghost predicate Run(r: seq<State>) {
    && |r| > 0 && Init(r[0])
    && forall i :: 0 <= i < |r| - 1 ==> Follows(r[i], r[i + 1])
  }

  ghost predicate Follows(s: State, s': State) {
    exists t :: Enabled(s, t) && s' == Step(s, t)
  }

  lemma {:induction false} RunInv(r: seq<State>)
    requires Run(r)
    ensures Inv(r[|r| - 1])
  {
    hide Inv;
    if |r| == 1 {
      InitInv(r[0]);
    } else {
      RunInv(r[..|r| - 1]);
      assert Follows(r[|r| - 2], r[|r| - 2 + 1]);
      var t :| Enabled(r[|r| - 2], t) && r[|r| - 1] == Step(r[|r| - 2], t);
      StepInv(r[|r| - 2], t);
    }
  }

  /** Never do both processes take input; whoever takes input has nothing left to read, in its pipe or
      in the stdio buffer that serves terminal and pipe alike. */
  lemma OneInput(r: seq<State>)
    requires Run(r)
    ensures var s := r[|r| - 1];
            && !(s.first.role.Input? && s.second.role.Input?)
            && (s.first.role.Input? ==> s.b == "") && (s.second.role.Input? ==> s.a == "")
  {
    RunInv(r);
  }

  /** The two histories are prefix-related and differ by exactly the lines in flight. */
  lemma HistoriesAgree(r: seq<State>)
    requires Run(r)
    ensures var s := r[|r| - 1];
            || (s.second.history <= s.first.history && s.b == ""
                && Cut(s.a) == s.first.history[|s.second.history|..])
            || (s.first.history <= s.second.history && s.a == ""
                && Cut(s.b) == s.second.history[|s.first.history|..])
  {
    RunInv(r);
    var s := r[|r| - 1];
    if Leads(s.first, s.second, s.a) && s.b == "" {
      CutFlat(s.first.history[|s.second.history|..]);
    } else {
      CutFlat(s.second.history[|s.first.history|..]);
    }
  }

  /** When both execute, exactly one swaprole is in flight and it is the last line in its pipe. */
  lemma OneSwapInFlight(r: seq<State>)
    requires Run(r) && r[|r| - 1].first.role.Execute? && r[|r| - 1].second.role.Execute?
    ensures var s := r[|r| - 1]; var flight := Cut(s.a + s.b);
            && (s.a == "" || s.b == "") && flight != []
            && Contains(flight[|flight| - 1], SWAP) && AllPlain(flight[..|flight| - 1])
  {
    RunInv(r);
    var s := r[|r| - 1];
    if Leads(s.first, s.second, s.a) && s.b == "" {
      CutFlat(s.first.history[|s.second.history|..]);
      assert s.a + s.b == s.a;
    } else {
      CutFlat(s.second.history[|s.first.history|..]);
      assert s.a + s.b == s.b;
    }
  }

  /** No run gets stuck before both processes have left, and nobody writes to a pipe whose reader left. */
  lemma SomebodyCanMove(r: seq<State>, line: string)
    requires Run(r) && IsChunk(line)
    ensures var s := r[|r| - 1];
            && ((s.first.role.Exited? && s.second.role.Exited?)
                || Enabled(s, FirstTypes(line)) || Enabled(s, SecondTypes(line))
                || Enabled(s, FirstReads) || Enabled(s, SecondReads))
            && (s.first.role.Input? ==> !s.second.role.Exited?) && (s.second.role.Input? ==> !s.first.role.Exited?)
  {
    RunInv(r);
    var s := r[|r| - 1];
    if Leads(s.first, s.second, s.a) && s.b == "" {
      var flight := s.first.history[|s.second.history|..];
      if flight != [] {
        FgetsReturnsChunk(flight[0], Flat(flight[1..]), MAX - 2);
      }
    } else {
      var flight := s.second.history[|s.first.history|..];
      if flight != [] {
        FgetsReturnsChunk(flight[0], Flat(flight[1..]), MAX - 2);
      }
    }
  }

  /** A swaprole line from the side that takes input leaves both sides executing; without it, and without
      exit, nothing changes but what is in flight. */
  lemma HandOver(r: seq<State>, line: string)
    requires Run(r) && r[|r| - 1].first.role.Input? && IsChunk(line)
    requires forall i, j :: 0 <= i <= j <= |line| ==> line[i..j] != "exit"
    ensures var s, s' := r[|r| - 1], Step(r[|r| - 1], FirstTypes(line));
            && s'.second == s.second && s'.second.role.Execute? && s'.a == s.a + line && s'.b == ""
            && s'.first.history == s.first.history + [line]
            && s'.first.role == if exists i, j :: 0 <= i <= j <= |line| && line[i..j] == "swaprole" then Execute
                                else Input
  {
    RunInv(r);
    WordsInALine(line, Input, Execute);
  }

  /** The swap completes: once the leader has handed over, the follower reads the lines in flight one by
      one, and then takes input where the leader did, with both pipes empty and equal histories. */
  lemma {:induction false} SwapCompletes(r: seq<State>) returns (r': seq<State>)
    requires Run(r) && r[|r| - 1].first.role.Execute? && r[|r| - 1].second.role.Execute?
    ensures Run(r') && |r| < |r'| && r == r'[..|r|]
    ensures var s, s' := r[|r| - 1], r'[|r'| - 1];
            && s'.a == s'.b == "" && s'.first.history == s'.second.history
            && if |s.first.history| > |s.second.history| then
                 s'.first == s.first && s'.second.role.Input?
               else
                 s'.second == s.second && s'.first.role.Input?
    decreases |r[|r| - 1].a| + |r[|r| - 1].b|
  {
    hide Follows, Step, Enabled;
    RunInv(r);
    var s := r[|r| - 1];
    var t := if Leads(s.first, s.second, s.a) && s.b == "" then SecondReads else FirstReads;
    FollowerCanRead(s, t);
    var q := r + [Step(s, t)];
    assert Run(q) by { OneMoreTurn(r, t); }
    RunInv(q);
    if Step(s, t).first.role.Execute? && Step(s, t).second.role.Execute? {
      r' := SwapCompletes(q);
      assert r == r'[..|q|][..|r|];
    } else {
      r' := q;
    }
  }

  lemma OneMoreTurn(r: seq<State>, t: Turn)
    requires Run(r) && Enabled(r[|r| - 1], t)
    ensures Run(r + [Step(r[|r| - 1], t)])
  {
    var q := r + [Step(r[|r| - 1], t)];
    forall i | 0 <= i < |q| - 1
      ensures Follows(q[i], q[i + 1])
    {
      if i < |r| - 1 {
        assert Follows(r[i], r[i + 1]);
      }
    }
  }

  /** Both execute: the follower finds a line to read; the leader keeps its history. */
  lemma FollowerCanRead(s: State, t: Turn)
    requires Inv(s) && s.first.role.Execute? && s.second.role.Execute?
    requires t == if Leads(s.first, s.second, s.a) && s.b == "" then SecondReads else FirstReads
    ensures Enabled(s, t)
    ensures t.SecondReads? <==> |s.first.history| > |s.second.history|
    ensures |Step(s, t).a| + |Step(s, t).b| < |s.a| + |s.b|
    ensures if t.SecondReads? then Step(s, t).first == s.first && Step(s, t).b == s.b == ""
            else Step(s, t).second == s.second && Step(s, t).a == s.a == ""
    ensures var s' := Step(s, t);
            if s'.first.role.Execute? && s'.second.role.Execute? then
              |s'.first.history| > |s'.second.history| <==> t.SecondReads?
            else
              && s'.a == s'.b == "" && s'.first.history == s'.second.history
              && (if t.SecondReads? then s'.second.role.Input? else s'.first.role.Input?)
  {
    if t.SecondReads? {
      ReaderMoves(s.first, s.second, s.a);
    } else {
      ReaderMoves(s.second, s.first, s.b);
    }
  }

  lemma ReaderMoves(x: Side, y: Side, pipe: string)
    requires Leads(x, y, pipe) && x.role.Execute? && y.role.Execute?
    ensures IsChunk(Fgets(pipe)) && |x.history| > |y.history|
    ensures var y', pipe' := Read(y, pipe), pipe[|Fgets(pipe)|..];
            && |pipe'| < |pipe|
            && if y'.role.Execute? then |x.history| > |y'.history|
               else y'.role.Input? && pipe' == "" && y'.history == x.history
  {
    var flight := x.history[|y.history|..];
    var line := flight[0];
    FgetsReturnsChunk(line, Flat(flight[1..]), MAX - 2);
    assert pipe == line + Flat(flight[1..]);
    StripKeepsWords(line, EXIT);
    StripKeepsWords(line, SWAP);
    assert pipe[|line|..] == Flat(flight[1..]);
    if |flight| == 1 {
      assert flight[|flight| - 1] == line && Flat(flight[1..]) == "";
    } else {
      assert flight[..|flight| - 1][0] == line;
    }
  }

  // ---------------------------------------------------------------- the loops themselves

  /** The C string in a buffer. */
  function CString(buff: string): string {
    if buff == "" || buff[0] == NUL then "" else [buff[0]] + CString(buff[1..])
  }

  lemma {:induction false} CStringEnds(t: string, rest: string)
    requires NUL !in t && (rest == "" || rest[0] == NUL)
    ensures CString(t + rest) == t
  {
    if t == "" {
      assert t + rest == rest;
    } else {
      assert (t + rest)[1..] == t[1..] + rest;
      CStringEnds(t[1..], rest);
    }
  }

  /** The loop of lines 136-143 and 222-229 over a buffer that memset and fgets have filled. */
  method StripNewline(buff: array<char>, ghost c: string)
    requires buff.Length == MAX && IsChunk(c) && buff[..|c|] == c && forall k :: |c| <= k < MAX ==> buff[k] == NUL
    modifies buff
    ensures CString(buff[..]) == Strip(c)
  {
    var i := 0;
    while i < MAX && buff[i] != NUL
      invariant 0 <= i <= |c| && buff[..] == old(buff[..])
      invariant forall k :: 0 <= k < i ==> c[k] != NEWLINE
    {
      assert i < |c| && buff[i] == buff[..|c|][i];
      if buff[i] == NEWLINE {
        buff[i] := NUL;
        break;
      }
      i := i + 1;
    }
    assert buff[..] == Strip(c) + buff[|Strip(c)|..];
    CStringEnds(Strip(c), buff[|Strip(c)|..]);
  }

  /** One process: mode 0 takes input, mode 1 executes. */
  class Process {
    var mode: int
    var gone: bool
    ghost var history: seq<string>

    ghost predicate Valid()
      reads this
    {
      mode == 0 || mode == 1
    }

    ghost function View(): Side
      reads this
    {
      Side(if gone then Exited else if mode == 0 then Input else Execute, history)
    }

    /** The first child starts in mode 0, the second in mode 1. */
    constructor (mode: int)
      requires mode == 0 || mode == 1
      ensures Valid() && View() == Side(if mode == 0 then Input else Execute, [])
    {
      this.mode, gone, history := mode, false, [];
    }

    /** One turn of the loop in input mode: what is written to the pipe. */
    method InputTurn(line: string) returns (sent: string)
      requires Valid() && !gone && mode == 0 && IsChunk(line)
      modifies this
      ensures Valid() && View() == Type(old(View()), line) && sent == line
    {
      sent := line;
      history := history + [line];
      if Contains(line, EXIT) {
        gone := true;
        return;
      }
      if Contains(line, SWAP) {
        mode := 1 - mode;
      }
    }

    /** One turn of the loop in execute mode: what is left in the pipe. */
    method ExecuteTurn(pipe: string) returns (left: string)
      requires Valid() && !gone && mode == 1 && IsChunk(Fgets(pipe))
      modifies this
      ensures Valid() && View() == Read(old(View()), pipe) && left == pipe[|Fgets(pipe)|..]
    {
      var c := Fgets(pipe);
      left := pipe[|c|..];
      var buff := new char[MAX](i => if 0 <= i < |c| then c[i] else NUL);
      StripNewline(buff, c);
      var text := CString(buff[..]);
      history := history + [c];
      if Contains(text, EXIT) {
        gone := true;
        return;
      }
      if Contains(text, SWAP) {
        mode := 1 - mode;
      }
    }
  }
}
