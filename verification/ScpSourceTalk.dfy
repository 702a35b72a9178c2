/**
 * What DoScpSource says on the wire, worked out from the callback's answers and the
 * confirmations read alone, for every callback and both kinds of request.
 */
module ScpSourceTalk {
  import opened Bytes
  import opened ScpText
  import opened ScpSource

  const GOOD: seq<byte> := [0]   // SCP_CONFIRM_OK
  const BAD: seq<byte> := [1]    // SCP_CONFIRM_ERR

  /** What the answers so far ask to be sent and how many confirmations that is to
      be answered with, how many good ones were read, whether an answer was an
      abort, and of the last file its size and how much has been handed over. */
  datatype Talk = Talk(asked: seq<byte>, due: nat, good: nat, aborted: bool, size: nat, held: nat)

  const SILENCE := Talk([], 0, 0, false, 0, 0)

  function Ask(t: Talk, line: seq<byte>, due: nat): Talk {
    t.(asked := t.asked + line, due := t.due + due)
  }

  /** File data, and behind the last of it the file's own confirmation. */
  function Hand(t: Talk, data: seq<byte>): Talk {
    var u := Ask(t, data, 0).(held := t.held + |data|);
    if u.held >= u.size then Ask(u, GOOD, 1) else u
  }

  function Answered(t: Talk, preserve: bool, a: Answer): Talk {
    match a
    case EnterDir(name, mode) => Ask(t, DirLine(mode, name), 1)
    case ExitDir => Ask(t, END_LINE, 1)
    case ExitDirFinal => Ask(t, END_LINE, 1)
    case Abort => Ask(t, BAD, 0).(aborted := true)
    case Fresh(name, mode, mtime, atime, size, data) =>
      var u := if preserve then Ask(t, TimeLine(mtime, atime), 1) else t;
      Hand(Ask(u, FileLine(mode, size, name), 1).(size := size, held := 0), data)
    case More(data) => Hand(t, data)
    case _ => t
  }

  function Hear(t: Talk, s: Source, io: Io): Talk {
    if io.Call? then Answered(t, s.preserve, io.answer)
    else if Receives(s.state) && io.Got? && io.data != [] && [io.data[0]] == GOOD then t.(good := t.good + 1)
    else t
  }

  function Told(t: Talk, r: Run, ios: seq<Io>): Talk
    requires Runs(r, ios)
    decreases |ios|
  {
    if ios == [] then t else Told(Hear(t, r.s, ios[0]), After(r, ios[0]), ios[1..])
  }

  // ------------------------------------------------------- what is left

  predicate Whole(s: Source) {
    s.offset + |s.buffer| >= s.size
  }

  /** What is left to be sent of a file whose header is out. */
  function Rest(s: Source): seq<byte> {
    s.buffer + if Whole(s) then GOOD else []
  }

  /** What a state is still to send of what was asked. */
  function Left(s: Source): seq<byte> {
    match if s.state.RecvConfirmation? then s.next else s.state
    case SendTimestamp => TimeLine(s.mtime, s.atime) + (FileLine(s.mode, s.size, s.name) + Rest(s))
    case SendFileHeader => FileLine(s.mode, s.size, s.name) + Rest(s)
    case SendFile => Rest(s)
    case SendEnterDir => DirLine(s.mode, s.name)
    case SendExitDir => END_LINE
    case SendExitDirFinal => END_LINE
    case ConfirmWithReceipt => GOOD
    case SendConfirmation => BAD
    case RecvConfirmWithReceipt => BAD
    case _ => []
  }

  /** And how many confirmations it is still to read. */
  function Owing(s: Source): nat {
    if s.state.RecvConfirmation? then 1 + OwingAt(s, s.next) else OwingAt(s, s.state)
  }

  function OwingAt(s: Source, state: State): nat {
    match state
    case Begin => 1
    case Init => 1
    case SendTimestamp => 2 + if Whole(s) then 1 else 0
    case SendFileHeader => 1 + if Whole(s) then 1 else 0
    case SendFile => if Whole(s) then 1 else 0
    case SendEnterDir => 1
    case SendExitDir => 1
    case SendExitDirFinal => 1
    case ConfirmWithReceipt => 1
    case RecvConfirmWithReceipt => 1
    case _ => 0
  }

  /** In step: what was sent and what is left are what was asked, and the same of
      the confirmations; after an abort there is only its octet left to send. */
  predicate InStep(t: Talk, s: Source, sent: seq<byte>) {
    && t.asked == sent + Left(s)
    && t.due + 1 == t.good + Owing(s)
    && s.aborting == t.aborted
    && (t.aborted <==> s.state.SendConfirmation? || s.state.RecvConfirmWithReceipt?)
    && (BeforeHeader(s) || s.headerSent ==> t.size == s.size && t.held == s.offset + |s.buffer|)
    && (s.state.Begin? ==> t == SILENCE && sent == [])
    && (s.request.Continue? ==> s.headerSent && !s.state.Begin? && !s.state.Init?)
    && (s.headerSent && s.noProgress ==> s.request.Continue?)
  }

  // --------------------------------------------------------- every pass

  /** A file's data joins what is asked and what is left alike. */
  lemma HandKeeps(t: Talk, s: Source, sent: seq<byte>, data: seq<byte>, front: seq<byte>)
    requires t.asked == sent + front && s.buffer == data && t.size == s.size && t.held == s.offset
    ensures Hand(t, data).asked == sent + (front + Rest(s)) && Hand(t, data).held == s.offset + |data|
    ensures Hand(t, data).due == t.due + (if Whole(s) then 1 else 0)
    ensures Hand(t, data).(asked := t.asked, due := t.due, held := t.held) == t
  {
    var end := if Whole(s) then GOOD else [];
    Assoc(sent, front, data);
    Assoc(sent + front, data, end);
    Assoc(sent, front, data + end);
    assert t.asked + data + [] == t.asked + data;
  }

  lemma FreshKeeps(t: Talk, s: Source, h: Hist, sent: seq<byte>, a: Answer)
    requires s.state.Transfer? && Conserved(s, h) && InStep(t, s, sent) && Fits(s, Call(a)) && a.Fresh?
    ensures InStep(Hear(t, s, Call(a)), Step(s, Call(a)).s, sent + Step(s, Call(a)).sent)
  {
    hide TimeLine, FileLine, Hand;
    var o := Step(s, Call(a));
    var time, file := TimeLine(a.mtime, a.atime), FileLine(a.mode, a.size, a.name);
    assert s.buffer == [] && [] + a.data == a.data && sent + [] == sent;
    var u := if s.preserve then Ask(t, time, 1) else t;
    var v := Ask(u, file, 1).(size := a.size, held := 0);
    if s.preserve {
      Assoc(sent, time, file);
      HandKeeps(v, o.s, sent, a.data, time + file);
      Assoc(time, file, Rest(o.s));
    } else {
      HandKeeps(v, o.s, sent, a.data, file);
    }
  }

  lemma AnswerKeeps(t: Talk, s: Source, h: Hist, sent: seq<byte>, a: Answer)
    requires s.state.Transfer? && Conserved(s, h) && InStep(t, s, sent) && Fits(s, Call(a)) && !a.Failed?
    ensures InStep(Hear(t, s, Call(a)), Step(s, Call(a)).s, sent + Step(s, Call(a)).sent)
  {
    hide TimeLine, FileLine, DirLine, Hand;
    assert sent + [] == sent;
    if a.Fresh? {
      FreshKeeps(t, s, h, sent, a);
    } else if a.More? {
      assert s.buffer == [] && [] + a.data == a.data;
      HandKeeps(t, Step(s, Call(a)).s, sent, a.data, []);
      assert [] + Rest(Step(s, Call(a)).s) == Rest(Step(s, Call(a)).s);
    }
  }

  /** A control line is the first of what is left. */
  lemma LineIsFirst(s: Source, h: Hist)
    requires SendsLine(s.state) && Conserved(s, h)
    requires s.aborting <==> s.state.SendConfirmation?
    ensures Left(s) == LineOf(s) + if s.state.SendConfirmation? then [] else Left(AfterLine(s))
    ensures !s.aborting ==> Owing(AfterLine(s)) == Owing(s)
  {
    hide TimeLine, FileLine, DirLine;
    assert LineOf(s) + [] == LineOf(s);
  }

  lemma AfterLineKeeps(t: Talk, s: Source, h: Hist, sent: seq<byte>)
    requires SendsLine(s.state) && Conserved(s, h) && InStep(t, s, sent) && !s.aborting
    ensures InStep(t, AfterLine(s), sent + LineOf(s))
  {
    LineIsFirst(s, h);
    hide LineOf, Left, Owing;
    Assoc(sent, LineOf(s), Left(AfterLine(s)));
  }

  lemma LineBegins(t: Talk, s: Source, h: Hist, sent: seq<byte>, n: nat)
    requires SendsLine(s.state) && Conserved(s, h) && InStep(t, s, sent) && n <= |LineOf(s)|
    ensures sent + LineOf(s)[..n] <= t.asked && sent <= t.asked
  {
    hide LineOf, Left, Owing, Conserved, AfterLine;
    LineIsFirst(s, h);
    var rest := if s.state.SendConfirmation? then [] else Left(AfterLine(s));
    Assoc(LineOf(s)[..n], LineOf(s)[n..], rest);
    assert LineOf(s)[..n] + LineOf(s)[n..] == LineOf(s);
    Assoc(sent, LineOf(s)[..n], LineOf(s)[n..] + rest);
  }

  lemma LineKeeps(t: Talk, s: Source, h: Hist, sent: seq<byte>, io: Io)
    requires SendsLine(s.state) && Conserved(s, h) && InStep(t, s, sent) && Fits(s, io)
    ensures Step(s, io).ret != Fatal ==> InStep(t, Step(s, io).s, sent + Step(s, io).sent)
    ensures sent + Step(s, io).sent <= t.asked
  {
    hide LineOf, Left, Owing, AfterLine, Conserved;
    if !s.aborting {
      AfterLineKeeps(t, s, h, sent);
    }
    LineBegins(t, s, h, sent, if io.Took? then io.n else 0);
    assert sent + [] == sent && LineOf(s)[..|LineOf(s)|] == LineOf(s);
  }

  lemma RouteKeeps(t: Talk, s: Source, h: Hist, sent: seq<byte>)
    requires s.state.SendFile? && Conserved(s, h) && InStep(t, s, sent)
    ensures Route(s, []).ret != Fatal ==> InStep(t, Route(s, []).s, sent)
  {
    assert s.buffer == [] ==> Left(s) == if Whole(s) then GOOD else [];
  }

  lemma DataKeeps(t: Talk, s: Source, h: Hist, sent: seq<byte>, io: Io)
    requires s.state.SendFile? && Conserved(s, h) && Paced(s, h) && InStep(t, s, sent) && Fits(s, io)
    ensures Step(s, io).ret != Fatal ==> InStep(t, Step(s, io).s, sent + Step(s, io).sent)
    ensures sent + Step(s, io).sent <= t.asked
  {
    var end := if Whole(s) then GOOD else [];
    assert sent + [] == sent;
    if io.Took? {
      var u, out, rest := Shifted(s, io.n), s.buffer[..io.n], s.buffer[io.n..];
      assert s.buffer == out + rest;
      Assoc(out, rest, end);
      Assoc(sent, out, rest + end);
      ShiftConserves(s, h, io.n);
      hide Conserved, Paced;
      RouteKeeps(t, u, h.(sent := h.sent + out), sent + out);
    } else if io.Tick? {
      hide Conserved, Paced;
      RouteKeeps(t, s, h, sent);
    }
  }

  lemma QuietKeeps(t: Talk, s: Source, h: Hist, sent: seq<byte>, io: Io)
    requires s.state.Begin? || s.state.Init? || s.state.Done?
    requires Conserved(s, h) && InStep(t, s, sent) && Fits(s, io)
    ensures InStep(Hear(t, s, io), Step(s, io).s, sent + Step(s, io).sent)
    ensures Step(s, io).sent == []
  {
    hide TimeLine, FileLine, DirLine;
    assert sent + [] == sent;
  }

  lemma ReceiptKeeps(t: Talk, s: Source, h: Hist, sent: seq<byte>, io: Io)
    requires Receives(s.state) && Conserved(s, h) && InStep(t, s, sent) && Fits(s, io)
    ensures Step(s, io).ret != Fatal ==> InStep(Hear(t, s, io), Step(s, io).s, sent + Step(s, io).sent)
    ensures Step(s, io).sent == []
  {
    var next := s.(state := if s.state.RecvConfirmation? then s.next else SendConfirmation);
    ReceiptLeaves(s, h);
    hide Left, Owing, LineOf;
    assert sent + [] == sent;
    assert Step(s, io) == ReceiveConfirmation(s, io);
  }

  /** Reading a confirmation leaves one less to be read and as much to be sent. */
  lemma ReceiptLeaves(s: Source, h: Hist)
    requires Receives(s.state) && Conserved(s, h)
    ensures var t := s.(state := if s.state.RecvConfirmation? then s.next else SendConfirmation);
            Left(t) == Left(s) && Owing(t) + 1 == Owing(s) && !t.state.Begin?
  {
    hide TimeLine, FileLine, DirLine;
  }

  lemma FailedFails(s: Source)
    requires s.state.Transfer?
    ensures Step(s, Call(Failed)) == Fail(s)
  {
  }

  lemma SentBegins(t: Talk, s: Source, sent: seq<byte>)
    requires InStep(t, s, sent)
    ensures sent <= t.asked
  {
  }

  lemma PassKeeps(t: Talk, r: Run, io: Io)
    requires Conserved(r.s, r.h) && Paced(r.s, r.h) && InStep(t, r.s, r.sent) && Fits(r.s, io)
    ensures var f := After(r, io);
            && (f.ret != Fatal ==> InStep(Hear(t, r.s, io), f.s, f.sent))
            && f.sent <= Hear(t, r.s, io).asked
  {
    hide InStep, Left, Owing, Conserved, Paced, SendLine, LineOf, Dispatch, Route;
    var s, f := r.s, After(r, io);
    SentBegins(t, s, r.sent);
    assert r.sent + [] == r.sent;
    if s.state.Transfer? {
      if io.answer.Failed? {
        FailedFails(s);
      } else {
        AnswerKeeps(t, s, r.h, r.sent, io.answer);
        SentBegins(Hear(t, s, io), f.s, f.sent);
      }
    } else if s.state.SendFile? {
      DataKeeps(t, s, r.h, r.sent, io);
    } else if SendsLine(s.state) {
      LineKeeps(t, s, r.h, r.sent, io);
    } else {
      if Receives(s.state) {
        ReceiptKeeps(t, s, r.h, r.sent, io);
      } else {
        QuietKeeps(t, s, r.h, r.sent, io);
      }
      if f.ret != Fatal {
        SentBegins(Hear(t, s, io), f.s, f.sent);
      }
    }
  }

  lemma {:induction false} RunKeeps(t: Talk, r: Run, ios: seq<Io>)
    requires Conserved(r.s, r.h) && Paced(r.s, r.h) && Runs(r, ios)
    requires r.ret != Fatal ==> InStep(t, r.s, r.sent)
    requires r.sent <= t.asked
    ensures var f, u := Final(r, ios), Told(t, r, ios);
            (f.ret != Fatal ==> InStep(u, f.s, f.sent)) && f.sent <= u.asked
    decreases |ios|
  {
    hide InStep, Conserved, Paced, Step, Hear, Observe, Fits;
    if ios != [] {
      PassKeeps(t, r, ios[0]);
      StepConserves(r.s, r.h, ios[0]);
      RunKeeps(Hear(t, r.s, ios[0]), After(r, ios[0]), ios[1..]);
    }
  }

  /** Over every run, for every callback and however the channel takes and balks,
      what goes out is a beginning of what the callback's answers ask for: the lines
      in order, each file's times, header, data and confirmation. While nothing has
      failed what is missing is what the state still holds, each line and each file
      having been confirmed before the next; the transfer is done with nothing
      missing, and never once it was aborted. */
  lemma SourceSpeaks(recursive: bool, preserve: bool, ios: seq<Io>)
    requires Runs(AtStart(recursive, preserve), ios)
    ensures var r, t := Final(AtStart(recursive, preserve), ios), Told(SILENCE, AtStart(recursive, preserve), ios);
            && r.sent <= t.asked
            && (r.ret != Fatal ==> t.asked == r.sent + Left(r.s) && t.due + 1 == t.good + Owing(r.s))
            && (r.ret != Fatal && r.s.state.Done? ==> r.sent == t.asked && t.good == t.due + 1 && !t.aborted)
  {
    StartConserved(recursive, preserve);
    RunKeeps(SILENCE, AtStart(recursive, preserve), ios);
  }
}
