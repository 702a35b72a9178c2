/**
 * The receiving side of an SCP transfer, DoScpSink with ReceiveScpMessage and
 * ReceiveScpFile: control lines and file data arrive in any fragments, each
 * accepted line and each finished file makes its callback, and every one of
 * them is confirmed once.
 */
module ScpSink {
  import opened Bytes
  import opened ScpText
  import opened ScpTree

  datatype State = Begin | ReceiveMessage | SendConfirmation | ReceiveConfirmation | ReceiveFile | Done

  /** What the outside gives one pass through the switch. Where a pass calls the
      receive callback, accept says whether it went through on its side; a part
      that completes a file makes a second call. */
  datatype Io =
    | Call(accept: bool)
    | Took(n: nat)
    | Got(data: seq<byte>, accept: bool, acceptDone: bool)
    | Want
    | Eof
    | Broken

  datatype Ret = Going | WantIo | Fatal

  datatype Sink = Sink(
    state: State, next: State, aborting: bool,
    name: seq<byte>, mode: nat, mtime: nat, atime: nat, size: nat, offset: nat,
    msg: seq<byte>,        // scpRecvMsg[..scpRecvMsgSz]
    depth: nat,            // scpDirDepth
    log: seq<Event>)       // the callback calls that went through

  datatype Outcome = Outcome(s: Sink, sent: seq<byte>, ret: Ret)

  const CONFIRM_OK: byte := 0    // SCP_CONFIRM_OK
  const CONFIRM_ERR: byte := 1   // SCP_CONFIRM_ERR

  const START: Sink := Sink(Begin, Done, false, [], 0, 0, 0, 0, 0, [], 0, [])

  /** The octets a receiving state asks for. */
  function Ask(s: Sink): nat {
    match s.state
    case ReceiveMessage => if |s.msg| <= MSG_SZ then MSG_SZ - |s.msg| else 0
    case ReceiveFile => if s.offset <= s.size then Min(s.size - s.offset, BUFFER_SZ) else 0
    case _ => MSG_SZ
  }

  predicate Fits(s: Sink, io: Io) {
    match s.state
    case Begin => io.Call?
    case SendConfirmation => (io.Took? && io.n <= 1) || io.Want? || io.Broken?
    case Done => io.Call?
    case ReceiveMessage => (io.Got? && 0 < |io.data| <= Ask(s)) || io.Want? || io.Eof? || io.Broken?
    case ReceiveConfirmation => (io.Got? && 0 < |io.data| <= Ask(s)) || io.Want? || io.Broken?
    case ReceiveFile => (io.Got? && |io.data| <= Ask(s)) || io.Want? || io.Broken?
  }

  /** One callback call: refused calls leave no trace, and the default callback
      also refuses to leave a directory it never entered. */
  function MakeCall(s: Sink, e: Event, accept: bool): (r: Sink)
    ensures r.state == s.state && r.next == s.next
  {
    if !accept || (e.EndDir? && s.depth == 0) then s.(aborting := true)
    else
      s.(aborting := false, log := s.log + [e],
         depth := if e.NewRequest? then 0 else if e.NewDir? then s.depth + 1
                  else if e.EndDir? then s.depth - 1 else s.depth)
  }

  function Confirm(s: Sink, next: State): Sink {
    s.(state := SendConfirmation, next := next)
  }

  /** A whole line has been parsed. */
  function Obey(s: Sink, m: Message, accept: bool): Sink {
    match m
    case FileMsg(mode, size, name) =>
      Confirm(MakeCall(s.(mode := mode, size := size, name := name),
                       NewFile(name, mode, s.mtime, s.atime, size), accept),
              ReceiveFile)
    case DirMsg(mode, size, name) =>
      Confirm(MakeCall(s.(mode := mode, size := size, name := name), NewDir(name, mode), accept), ReceiveMessage)
    case EndDirMsg => Confirm(MakeCall(s, EndDir, accept), ReceiveMessage)
    case TimeMsg(mtime, atime) => Confirm(s.(mtime := mtime, atime := atime), ReceiveMessage)
  }

  /** More of a control line: it is parsed once what was read ends in a newline. */
  function TakeMessage(s: Sink, io: Io): Outcome
    requires s.state.ReceiveMessage? && Fits(s, io)
  {
    if |s.msg| >= MSG_SZ - 1 then Outcome(s, [], Fatal)
    else match io
      case Want => Outcome(s, [], WantIo)
      case Eof => Outcome(s.(state := Done), [], Going)
      case Got(data, accept, _) =>
        var line := s.msg + data;
        if line[|line| - 1] != NEWLINE then Outcome(s.(msg := line), [], Going)
        else
          var m := ParseMessage(Seal(line));
          if m.Err? then Outcome(s.(msg := []), [], Fatal)
          else Outcome(Obey(s.(msg := []), m.value, accept), [], Going)
      case _ => Outcome(s, [], Fatal)
  }

  /** More of a file: the part goes to the callback at the running offset. */
  function TakePart(s: Sink, data: seq<byte>, accept: bool, acceptDone: bool): Sink
  {
    var t := MakeCall(s, FilePart(data, s.offset), accept).(offset := s.offset + |data|);
    if t.aborting then Confirm(t, Done)
    else if t.offset < t.size then t.(next := ReceiveFile)
    else
      Confirm(MakeCall(t, FileDone(t.mtime, t.atime), acceptDone).(offset := 0, atime := 0, mtime := 0),
              ReceiveConfirmation)
  }

  /** One pass through the switch. */
  function Step(s: Sink, io: Io): Outcome
    requires Fits(s, io)
  {
    match s.state
    case Begin => Outcome(Confirm(MakeCall(s, NewRequest, io.accept), ReceiveMessage), [], Going)
    case ReceiveMessage => TakeMessage(s, io)
    case SendConfirmation =>
      if io.Want? then Outcome(s, [], WantIo)
      else if !io.Took? || io.n == 0 then Outcome(s, [], Fatal)
      else if s.aborting then Outcome(s, [CONFIRM_ERR], Fatal)
      else Outcome(s.(state := s.next), [CONFIRM_OK], Going)
    case ReceiveConfirmation =>
      if io.Want? then Outcome(s, [], WantIo)
      else if io.Got? && io.data[0] == 0 then Outcome(s.(state := ReceiveMessage), [], Going)
      else Outcome(s, [], Fatal)
    case ReceiveFile =>
      if io.Want? then Outcome(s, [], WantIo)
      else if io.Got? then Outcome(TakePart(s, io.data, io.accept, io.acceptDone), [], Going)
      else Outcome(s, [], Fatal)
    case Done => Outcome(s, [], Going)
  }

  // ------------------------------------------------------------ exactness

  /** What a run must come to, worked out from the octets received alone: the
      callbacks its C, D and E lines ask for, how many T lines there were, the
      files that were received whole, the confirmations sent, the octets since the
      last line, the times a header would take over, and the file of the last C line
      with the data behind it. */
  datatype Hist = Hist(calls: seq<Event>, stamps: nat, files: seq<Node>, confirms: nat, line: seq<byte>,
                       mtime: nat, atime: nat, file: OpenFile)

  const NOTHING := Hist([], 0, [], 0, [], 0, 0, OpenFile([], 0, 0, 0, 0, []))

  /** A line that was accepted. */
  function Noted(h: Hist, m: Message): Hist {
    match m
    case FileMsg(mode, size, name) =>
      h.(calls := h.calls + [NewFile(name, mode, h.mtime, h.atime, size)],
         file := OpenFile(name, mode, h.mtime, h.atime, size, []))
    case DirMsg(mode, _, name) => h.(calls := h.calls + [NewDir(name, mode)])
    case EndDirMsg => h.(calls := h.calls + [EndDir])
    case TimeMsg(mtime, atime) => h.(stamps := h.stamps + 1, mtime := mtime, atime := atime)
  }

  function Closed(f: OpenFile): Node {
    File(f.name, f.mode, f.mtime, f.atime, f.content)
  }

  /** File data: the file is whole once its size has come. */
  function Gathered(h: Hist, data: seq<byte>): Hist {
    var f := h.file.(content := h.file.content + data);
    if |f.content| == f.size then h.(file := f, files := h.files + [Closed(f)], mtime := 0, atime := 0)
    else h.(file := f)
  }

  /** A pass whose callback refuses: the request, a line other than a timestamp, the
      end of a directory that was never entered, a part, or a whole file. */
  predicate Refuses(s: Sink, io: Io)
    requires Fits(s, io)
  {
    match s.state
    case Begin => !io.accept
    case ReceiveMessage =>
      && io.Got? && |s.msg| < MSG_SZ - 1 && io.data[|io.data| - 1] == NEWLINE
      && var m := ParseMessage(Seal(s.msg + io.data));
         m.Ok? && !m.value.TimeMsg? && (!io.accept || (m.value.EndDirMsg? && s.depth == 0))
    case ReceiveFile => io.Got? && (!io.accept || (s.offset + |io.data| >= s.size && !io.acceptDone))
    case _ => false
  }

  /** Octets of a control line; one that does not parse is forgotten. */
  function Heard(h: Hist, data: seq<byte>): Hist
    requires data != []
  {
    var line := h.line + data;
    if data[|data| - 1] != NEWLINE then h.(line := line)
    else
      match ParseMessage(Seal(line))
      case Ok(m) => Noted(h.(line := []), m)
      case Err(_) => h.(line := [])
  }

  function Observe(h: Hist, s: Sink, io: Io): Hist
    requires Fits(s, io)
  {
    if Refuses(s, io) then h
    else match s.state
      case ReceiveMessage => if io.Got? && |h.line| < MSG_SZ - 1 then Heard(h, io.data) else h
      case ReceiveFile => if io.Got? then Gathered(h, io.data) else h
      case SendConfirmation => if io.Took? && io.n == 1 && !s.aborting then h.(confirms := h.confirms + 1) else h
      case _ => h
  }

  /** The line callbacks among the calls made. */
  function LineCalls(log: seq<Event>): seq<Event> {
    if log == [] then []
    else
      var e := log[|log| - 1];
      LineCalls(log[..|log| - 1]) + if e.NewDir? || e.EndDir? || e.NewFile? then [e] else []
  }

  lemma LineCallsAppend(log: seq<Event>, e: Event)
    ensures LineCalls(log + [e]) == LineCalls(log) + if e.NewDir? || e.EndDir? || e.NewFile? then [e] else []
  {
    assert (log + [e])[..|log|] == log;
  }

  /** The files done among the calls made, each as the calls before it built it. */
  function FilesDone(log: seq<Event>): seq<Node> {
    if log == [] then []
    else
      var e, before := log[|log| - 1], log[..|log| - 1];
      FilesDone(before) + DoneBy(Replay(before), e)
  }

  function DoneBy(d: Option<Dest>, e: Event): seq<Node> {
    if e.FileDone? && d.Some? && d.value.file.Some? then [Closed(d.value.file.value)] else []
  }

  lemma FilesDoneAppend(log: seq<Event>, e: Event)
    ensures FilesDone(log + [e]) == FilesDone(log) + DoneBy(Replay(log), e)
  {
    assert (log + [e])[..|log|] == log;
  }

  /** A file's data is being received. */
  predicate InFile(s: Sink) {
    s.state.ReceiveFile? || (s.state.SendConfirmation? && s.next.ReceiveFile?)
  }

  predicate OpenMatches(s: Sink, f: OpenFile) {
    && f.name == s.name && f.mode == s.mode && f.mtime == s.mtime && f.atime == s.atime
    && f.size == s.size && |f.content| == s.offset <= s.size
  }

  /** The calls made, replayed. */
  predicate LogExact(log: seq<Event>, depth: nat, h: Hist, file: Option<OpenFile>) {
    && Replay(log).Some? && |Replay(log).value.stack| == depth + 1 && Replay(log).value.file == file
    && LineCalls(log) == h.calls && FilesDone(log) == h.files
  }

  /** What holds at every point of every run that no callback has refused. */
  predicate Exact(s: Sink, h: Hist) {
    && !s.aborting && s.mtime == h.mtime && s.atime == h.atime && s.msg == h.line
    && (s.state.SendConfirmation? ==> s.next.ReceiveMessage? || s.next.ReceiveFile? || s.next.ReceiveConfirmation?)
    && (if s.state.Begin? then s.log == [] && h == NOTHING
        else LogExact(s.log, s.depth, h, if InFile(s) then Some(h.file) else None))
    && (if InFile(s) then OpenMatches(s, h.file)
        else
          && s.offset == 0
          && (h.files != [] ==> h.files[|h.files| - 1] == Closed(h.file) && |h.file.content| == h.file.size))
    && h.confirms + (if s.state.SendConfirmation? then 1 else 0)
       == |h.calls| + h.stamps + |h.files| + (if s.state.Begin? then 0 else 1)
  }

  /** A refused callback only ever leads to the failing confirmation. */
  predicate Refused(s: Sink) {
    s.aborting && s.state.SendConfirmation?
  }

  /** A call that goes through is one more call, and does to the destination what
      it says. */
  lemma CallExact(s: Sink, e: Event)
    requires Replay(s.log).Some? && Apply(Replay(s.log).value, e).Some? && (e.EndDir? ==> s.depth > 0)
    ensures var t := MakeCall(s, e, true);
            && Replay(t.log) == Apply(Replay(s.log).value, e)
            && LineCalls(t.log) == LineCalls(s.log) + (if e.NewDir? || e.EndDir? || e.NewFile? then [e] else [])
            && FilesDone(t.log) == FilesDone(s.log) + DoneBy(Replay(s.log), e)
  {
    ReplayAppend(s.log, e);
    LineCallsAppend(s.log, e);
    FilesDoneAppend(s.log, e);
    hide Replay, LineCalls, FilesDone, Apply;
  }

  lemma ObeyExact(s: Sink, h: Hist, m: Message)
    requires s.state.ReceiveMessage? && Exact(s, h)
    requires !(m.EndDirMsg? && s.depth == 0)
    ensures Exact(Obey(s, m, true), Noted(h, m))
  {
    hide Replay, LineCalls, FilesDone;
    match m
    case FileMsg(mode, size, name) => CallExact(s, NewFile(name, mode, s.mtime, s.atime, size));
    case DirMsg(mode, _, name) => CallExact(s, NewDir(name, mode));
    case EndDirMsg => CallExact(s, EndDir);
    case TimeMsg(_, _) =>
  }

  lemma MessageExact(s: Sink, h: Hist, io: Io)
    requires s.state.ReceiveMessage? && Exact(s, h) && Fits(s, io)
    ensures Refused(Step(s, io).s) || Exact(Step(s, io).s, Observe(h, s, io))
  {
    hide Replay, LineCalls, FilesDone, Noted, ParseMessage;
    if io.Got? && |s.msg| < MSG_SZ - 1 {
      var line := s.msg + io.data;
      assert line[|line| - 1] == io.data[|io.data| - 1];
      if line[|line| - 1] == NEWLINE && ParseMessage(Seal(line)).Ok? {
        var m := ParseMessage(Seal(line)).value;
        var s0 := s.(msg := []);
        if io.accept && !(m.EndDirMsg? && s.depth == 0) {
          ObeyExact(s0, h.(line := []), m);
        } else if m.TimeMsg? {
          ObeyExact(s0, h.(line := []), m);
          assert Obey(s0, m, false) == Obey(s0, m, true);
        }
      }
    }
  }

  /** A part that leaves more to come. */
  lemma PartExact(s: Sink, h: Hist, data: seq<byte>)
    requires s.state.ReceiveFile? && Exact(s, h) && s.offset + |data| <= s.size
    ensures var t := MakeCall(s, FilePart(data, s.offset), true).(offset := s.offset + |data|);
            && LogExact(t.log, t.depth, h, Some(h.file.(content := h.file.content + data)))
            && (t.offset < t.size ==> Exact(t.(next := ReceiveFile), Gathered(h, data)))
  {
    hide Replay, LineCalls, FilesDone;
    CallExact(s, FilePart(data, s.offset));
  }

  /** A part that ends the file. */
  lemma LastPartExact(s: Sink, h: Hist, data: seq<byte>)
    requires s.state.ReceiveFile? && Exact(s, h) && s.offset + |data| == s.size
    ensures Exact(TakePart(s, data, true, true), Gathered(h, data))
  {
    hide Replay, LineCalls, FilesDone;
    PartExact(s, h, data);
    CallExact(MakeCall(s, FilePart(data, s.offset), true).(offset := s.size), FileDone(s.mtime, s.atime));
  }

  lemma FileExact(s: Sink, h: Hist, io: Io)
    requires s.state.ReceiveFile? && Exact(s, h) && Fits(s, io) && io.Got?
    ensures Refused(Step(s, io).s) || Exact(Step(s, io).s, Observe(h, s, io))
  {
    hide Replay, LineCalls, FilesDone, Gathered, LogExact;
    if io.accept {
      PartExact(s, h, io.data);
      if s.offset + |io.data| == s.size && io.acceptDone {
        LastPartExact(s, h, io.data);
      }
    }
  }

  lemma NoCalls()
    ensures Replay([]) == Some(Dest([], None)) && LineCalls([]) == [] && FilesDone([]) == []
  {
  }

  lemma BeginExact(s: Sink, h: Hist, io: Io)
    requires s.state.Begin? && Exact(s, h) && Fits(s, io)
    ensures Refused(Step(s, io).s) || Exact(Step(s, io).s, Observe(h, s, io))
  {
    hide Replay, LineCalls, FilesDone, ParseMessage;
    NoCalls();
    CallExact(s, NewRequest);
  }

  lemma QuietExact(s: Sink, h: Hist, io: Io)
    requires s.state.SendConfirmation? || s.state.ReceiveConfirmation? || s.state.Done?
    requires Exact(s, h) && Fits(s, io)
    ensures Exact(Step(s, io).s, Observe(h, s, io))
  {
    hide Replay, LineCalls, FilesDone;
  }

  /** Every pass that calls no callback or none that refuses keeps the callbacks
      made in step with what the octets received ask for. */
  lemma StepExact(s: Sink, h: Hist, io: Io)
    requires Exact(s, h) && Fits(s, io)
    ensures Refused(Step(s, io).s) || Exact(Step(s, io).s, Observe(h, s, io))
    ensures Refused(Step(s, io).s) <==> Refuses(s, io)
    ensures Good(h.confirms) + Step(s, io).sent == Good(Observe(h, s, io).confirms)
  {
    RefusedExactly(s, h, io);
    ConfirmsCounted(s, h, io);
    hide LogExact, TakePart, Obey, Noted, Gathered, ParseMessage;
    if s.state.Begin? {
      BeginExact(s, h, io);
    } else if s.state.ReceiveMessage? {
      MessageExact(s, h, io);
    } else if s.state.ReceiveFile? {
      if io.Got? { FileExact(s, h, io); }
    } else {
      QuietExact(s, h, io);
    }
  }

  lemma RefusedExactly(s: Sink, h: Hist, io: Io)
    requires Exact(s, h) && Fits(s, io)
    ensures Refused(Step(s, io).s) <==> Refuses(s, io)
    ensures Refuses(s, io) ==> Step(s, io).sent == [] && Step(s, io).ret == Going
  {
    hide LogExact, ParseMessage;
    if s.state.ReceiveMessage? && io.Got? {
      var line := s.msg + io.data;
      assert line[|line| - 1] == io.data[|io.data| - 1];
    }
  }

  lemma ConfirmsCounted(s: Sink, h: Hist, io: Io)
    requires Exact(s, h) && Fits(s, io)
    ensures Good(h.confirms) + Step(s, io).sent == Good(Observe(h, s, io).confirms)
  {
    hide LogExact, ParseMessage, Obey, TakePart, OpenMatches;
  }

  /** A want and a failing channel end a call with the machine where it was, and
      nothing else ends it with a want; a line too long for the buffer fails. */
  lemma InterruptedCallsStay(s: Sink, h: Hist, io: Io)
    requires Fits(s, io) && (io.Want? || io.Broken? || Step(s, io).ret == WantIo)
    ensures Step(s, io) ==
            Outcome(s, [], if io.Want? && !(s.state.ReceiveMessage? && |s.msg| >= MSG_SZ - 1) then WantIo else Fatal)
    ensures Observe(h, s, io) == h
  {
  }

  /** A run: the machine, what its inputs ask for, all it has sent, and what the
      last pass came to. */
  datatype Run = Run(s: Sink, h: Hist, sent: seq<byte>, ret: Ret)

  const AT_START := Run(START, NOTHING, [], Going)

  /** Whatever the outside does, refusals and failures included; a call that has
      failed may be made again. */
  predicate Runs(r: Run, ios: seq<Io>)
    decreases |ios|
  {
    ios == [] || (Fits(r.s, ios[0]) && Runs(After(r, ios[0]), ios[1..]))
  }

  function After(r: Run, io: Io): Run
    requires Fits(r.s, io)
  {
    Run(Step(r.s, io).s, Observe(r.h, r.s, io), r.sent + Step(r.s, io).sent, Step(r.s, io).ret)
  }

  function Final(r: Run, ios: seq<Io>): Run
    requires Runs(r, ios)
    decreases |ios|
  {
    if ios == [] then r else Final(After(r, ios[0]), ios[1..])
  }

  /** Up to the first refusal the calls made are exact, and each confirmation is one
      octet CONFIRM_OK. */
  lemma {:induction false} RunExact(r: Run, ios: seq<Io>)
    requires Refused(r.s) || (Exact(r.s, r.h) && r.sent == Good(r.h.confirms))
    requires Runs(r, ios)
    ensures var f := Final(r, ios); Refused(f.s) || (Exact(f.s, f.h) && f.sent == Good(f.h.confirms))
    decreases |ios|
  {
    hide Exact, Fits, Step, Observe, Refused;
    if ios != [] {
      if Refused(r.s) {
        RefusedStays(r.s, r.h, ios[0]);
      } else {
        StepExact(r.s, r.h, ios[0]);
      }
      RunExact(After(r, ios[0]), ios[1..]);
    }
  }

  /** Exactness over whole runs: for every fragmentation, want and failure, as long
      as no callback has refused, the callbacks made for lines are exactly those the
      C, D and E lines received ask for, in order; the files done are exactly those
      received whole, each with its header's name, mode, size and times and the
      octets behind that header; while a file is received it holds what has come of
      it, and between files none is open; and every line, timestamp and file is
      confirmed once, with the good octet and nothing else. */
  lemma SinkExactness(ios: seq<Io>)
    requires Runs(AT_START, ios) && !Refused(Final(AT_START, ios).s)
    ensures var r := Final(AT_START, ios); var d := Replay(r.s.log);
            && LineCalls(r.s.log) == r.h.calls && FilesDone(r.s.log) == r.h.files
            && d.Some?
            && (if InFile(r.s) then
                  d.value.file == Some(r.h.file) && |r.h.file.content| == r.s.offset <= r.h.file.size
                else
                  && d.value.file.None?
                  && (r.h.files != [] ==>
                        && r.h.files[|r.h.files| - 1] == Closed(r.h.file)
                        && |r.h.file.content| == r.h.file.size))
            && (r.s.state.ReceiveMessage? ==> |r.sent| == |r.h.calls| + r.h.stamps + |r.h.files| + 1)
            && r.sent == Good(r.h.confirms)
  {
    StartExact();
    RunExact(AT_START, ios);
  }

  function Good(n: nat): seq<byte> {
    seq(n, i => CONFIRM_OK)
  }

  lemma StartExact()
    ensures Exact(START, NOTHING) && Good(0) == []
  {
    NoCalls();
  }

  // ----------------------------------------------------------- refusals

  /** A refused machine stays as it is, and a pass that is not a want fails, with
      at most the failing octet sent. */
  lemma RefusedStays(s: Sink, h: Hist, io: Io)
    requires Refused(s) && Fits(s, io)
    ensures Step(s, io).s == s && Observe(h, s, io) == h
    ensures Step(s, io).ret == if io.Want? then WantIo else Fatal
    ensures Step(s, io).sent == if io.Took? && io.n == 1 then [CONFIRM_ERR] else []
  {
  }

  /** The failing octet for each pass that takes one. */
  function Failing(ios: seq<Io>): seq<byte> {
    if ios == [] then []
    else (if ios[0].Took? && ios[0].n == 1 then [CONFIRM_ERR] else []) + Failing(ios[1..])
  }

  lemma {:induction false} FailingOnlyFails(ios: seq<Io>)
    ensures CONFIRM_OK !in Failing(ios)
  {
    if ios != [] {
      FailingOnlyFails(ios[1..]);
    }
  }

  lemma {:induction false} StaysRefused(r: Run, ios: seq<Io>)
    requires Refused(r.s) && Runs(r, ios)
    ensures Final(r, ios) == r.(sent := r.sent + Failing(ios), ret := Final(r, ios).ret)
    ensures forall k :: 0 <= k < |ios| ==>
              Fits(r.s, ios[k]) && Step(r.s, ios[k]).ret == if ios[k].Want? then WantIo else Fatal
    decreases |ios|
  {
    hide Fits, Step, Observe, Refused;
    if ios == [] {
      assert r.sent + [] == r.sent;
    } else {
      RefusedStays(r.s, r.h, ios[0]);
      var o := Step(r.s, ios[0]);
      assert After(r, ios[0]) == r.(sent := r.sent + o.sent, ret := o.ret);
      StaysRefused(After(r, ios[0]), ios[1..]);
      Assoc(r.sent, o.sent, Failing(ios[1..]));
    }
  }

  /** What a refused callback is answered with, in any run: from that call on nothing
      is called back and the machine stays where it is; every pass that is not a want
      fails; and what goes out is the failing octet, never the good one. */
  lemma RefusalIsAnswered(before: seq<Io>, io: Io, more: seq<Io>)
    requires Runs(AT_START, before)
    requires var r := Final(AT_START, before); Runs(r, [io] + more) && !Refused(r.s) && Refuses(r.s, io)
    ensures var r, f := Final(AT_START, before), Final(Final(AT_START, before), [io] + more);
            var t := After(r, io);
            && f.s == t.s && f.h == r.h && f.sent == Good(r.h.confirms) + Failing(more)
            && CONFIRM_OK !in Failing(more)
            && f.s.state.SendConfirmation? && LineCalls(f.s.log) == r.h.calls && FilesDone(f.s.log) == r.h.files
            && (forall k :: 0 <= k < |more| ==>
                  Fits(f.s, more[k]) && Step(f.s, more[k]).ret == if more[k].Want? then WantIo else Fatal)
  {
    hide Fits, Step, Observe, Exact;
    var r := Final(AT_START, before);
    StartExact();
    RunExact(AT_START, before);
    RefusedExactly(r.s, r.h, io);
    RefusalLeavesNothing(r.s, r.h, io);
    assert ([io] + more)[1..] == more && ([io] + more)[0] == io;
    assert r.sent + [] == r.sent;
    StaysRefused(After(r, io), more);
    FailingOnlyFails(more);
  }

  /** A refused call leaves no line and no file in the calls made. */
  lemma RefusalLeavesNothing(s: Sink, h: Hist, io: Io)
    requires Exact(s, h) && Fits(s, io) && Refuses(s, io)
    ensures var t := Step(s, io).s; LineCalls(t.log) == h.calls && FilesDone(t.log) == h.files
    ensures Observe(h, s, io) == h
  {
    RefusedExactly(s, h, io);
    StartExact();
    hide ParseMessage, Replay, LineCalls, FilesDone;
    if s.state.ReceiveFile? && io.accept {
      PartExact(s, h, io.data);
    } else if s.state.ReceiveMessage? {
      var line := s.msg + io.data;
      assert line[|line| - 1] == io.data[|io.data| - 1];
    }
  }
}
