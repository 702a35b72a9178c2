/**
 * The sending side of an SCP transfer, DoScpSource: a re-entrant state machine
 * that asks a callback for directories and file data, sends control lines and
 * data that the channel may take only in part, and waits for confirmations.
 */
module ScpSource {
  import opened Bytes
  import opened ScpText

  datatype State =
    | Begin | Init | SendConfirmation | ConfirmWithReceipt | RecvConfirmWithReceipt | RecvConfirmation
    | Transfer | SendTimestamp | SendEnterDir | SendExitDir | SendExitDirFinal
    | SendFileHeader | SendFile | Done

  datatype Request = Single | Recursive | Continue

  /** What the send callback answers. */
  datatype Answer =
    | Accept                                   // a new request is let in
    | EnterDir(name: seq<byte>, mode: nat)
    | ExitDir
    | ExitDirFinal
    | Complete
    | Abort
    | Fresh(name: seq<byte>, mode: nat, mtime: nat, atime: nat, size: nat, data: seq<byte>)
    | More(data: seq<byte>)
    | Failed

  /** What the outside gives one pass through the switch. */
  datatype Io =
    | Tick                    // the state needs nothing
    | Call(answer: Answer)    // the callback's answer
    | Took(n: nat)            // the channel took n octets
    | Got(data: seq<byte>)    // the channel delivered these octets
    | Want                    // WS_WANT_READ or WS_WANT_WRITE
    | ExtData                 // stderr was in the way and has been drained
    | Broken                  // any other negative status

  /** Anything but Going ends the call; the run goes on with the next one unless it
      was Fatal. Stderr is the WS_EXTDATA left standing once stderr is drained. */
  datatype Ret = Going | WantIo | Stderr | Fatal

  datatype Source = Source(
    state: State, next: State, request: Request, aborting: bool,
    recursive: bool, preserve: bool,
    name: seq<byte>, mode: nat, mtime: nat, atime: nat, size: nat,
    buffer: seq<byte>,        // scpFileBuffer[..scpBufferedSz]
    offset: nat, headerSent: bool, noProgress: bool)

  datatype Outcome = Outcome(s: Source, sent: seq<byte>, ret: Ret)

  function Start(recursive: bool, preserve: bool): Source {
    Source(Begin, Done, if recursive then Recursive else Single, false, recursive, preserve,
           [], 0, 0, 0, 0, [], 0, false, false)
  }

  predicate SendsLine(state: State) {
    || state.SendTimestamp? || state.SendEnterDir? || state.SendExitDir? || state.SendExitDirFinal?
    || state.SendFileHeader? || SendsConfirmation(state)
  }

  predicate SendsConfirmation(state: State) {
    state.SendConfirmation? || state.ConfirmWithReceipt?
  }

  predicate Receives(state: State) {
    state.RecvConfirmation? || state.RecvConfirmWithReceipt?
  }

  /** The message a control-line state sends; an abort also sends SCP_CONFIRM_ERR. */
  function LineOf(s: Source): (line: seq<byte>)
    requires SendsLine(s.state)
  {
    match s.state
    case SendTimestamp => TimeLine(s.mtime, s.atime)
    case SendEnterDir => DirLine(s.mode, s.name)
    case SendExitDir => END_LINE
    case SendExitDirFinal => END_LINE
    case SendFileHeader => FileLine(s.mode, s.size, s.name)
    case _ => if s.aborting then [1] else [0]
  }

  /** The answers the outside may give in a state. The callback fills metadata
      on the call that opens a file and only there; how much data it hands over,
      how much the channel takes and how often it balks are unconstrained. */
  predicate Fits(s: Source, io: Io) {
    if s.state == Init || s.state == Done then io.Tick?
    else if s.state == Begin then io.Call? && (io.answer.Accept? || io.answer.Abort?)
    else if s.state == Transfer then
      && io.Call? && !io.answer.Accept?
      && (io.answer.Fresh? ==> !s.headerSent && |io.answer.data| <= BUFFER_SZ)
      && (io.answer.More? ==> s.headerSent && |io.answer.data| <= BUFFER_SZ)
    else if SendsLine(s.state) then (io.Took? && io.n <= |LineOf(s)|) || io.Want? || io.Broken?
    else if s.state == SendFile then
      if s.buffer == [] then io.Tick? else (io.Took? && io.n <= |s.buffer|) || io.Want? || io.ExtData? || io.Broken?
    else io.Want? || io.Broken? || (io.Got? && io.data != [])
  }

  /** The request's options never change. */
  predicate SameFlags(t: Source, s: Source) {
    t.preserve == s.preserve && t.recursive == s.recursive
  }

  function Stay(s: Source): Outcome { Outcome(s, [], WantIo) }

  function Fail(s: Source): Outcome { Outcome(s, [], Fatal) }

  function Go(s: Source, sent: seq<byte>): Outcome { Outcome(s, sent, Going) }

  /** Where a fully sent control line leads. */
  function AfterLine(s: Source): (r: Source)
    requires SendsLine(s.state)
    ensures SameFlags(r, s)
  {
    match s.state
    case SendTimestamp => s.(state := RecvConfirmation, next := SendFileHeader)
    case SendEnterDir => s.(state := RecvConfirmation, next := Transfer)
    case SendExitDir => s.(state := RecvConfirmation, next := Transfer)
    case SendExitDirFinal => s.(state := RecvConfirmation, next := Done)
    case SendFileHeader => s.(state := RecvConfirmation, next := SendFile, headerSent := true)
    case ConfirmWithReceipt => s.(state := RecvConfirmation)
    case _ => s.(state := s.next)
  }

  /** A control line goes out whole or not at all; a want leaves it for a retry. */
  function SendLine(s: Source, io: Io): (o: Outcome)
    requires SendsLine(s.state) && Fits(s, io)
    ensures SameFlags(o.s, s)
    ensures o.ret == Going ==> o.s == AfterLine(s) && o.sent == LineOf(s)
    ensures o.ret != Going ==> o.s == s
  {
    if io.Want? then Stay(s)
    else if io.Took? && io.n == |LineOf(s)|
            && !(s.aborting && SendsConfirmation(s.state)) then
      Go(AfterLine(s), LineOf(s))
    else Outcome(s, if io.Took? then LineOf(s)[..io.n] else [], Fatal)
  }

  /** The TRANSFER state's dispatch on what the callback answered. */
  function Dispatch(s: Source, a: Answer): (o: Outcome)
    requires s.state == Transfer && !a.Accept?
    ensures SameFlags(o.s, s)
  {
    match a
    case EnterDir(name, mode) => Go(s.(state := SendEnterDir, name := name, mode := mode), [])
    case ExitDir => Go(s.(state := SendExitDir), [])
    case ExitDirFinal => Go(s.(state := SendExitDirFinal), [])
    case Complete => Go(s.(state := Done), [])
    case Abort => Go(s.(state := SendConfirmation, next := Done, aborting := true), [])
    case Failed => Fail(s)
    case Fresh(name, mode, mtime, atime, size, data) =>
      var t := s.(name := name, mode := mode, mtime := mtime, atime := atime, size := size,
                  buffer := s.buffer + data, aborting := false);
      Go(t.(state := if t.headerSent then SendFile else if t.preserve then SendTimestamp else SendFileHeader), [])
    case More(data) =>
      var t := s.(buffer := s.buffer + data, aborting := false);
      Go(t.(state := if t.headerSent then SendFile else if t.preserve then SendTimestamp else SendFileHeader), [])
  }

  /** Routing once whatever the channel took has left the buffer. */
  function Route(s: Source, sent: seq<byte>): (o: Outcome)
    requires s.state == SendFile
    ensures SameFlags(o.s, s)
  {
    if s.buffer != [] then Go(s, sent)
    else if s.offset < s.size then
      if s.noProgress then Outcome(s, sent, Fatal)
      else Go(s.(noProgress := true, state := Transfer, request := Continue), sent)
    else if s.recursive then
      Go(s.(state := ConfirmWithReceipt, offset := 0, buffer := [], headerSent := false, noProgress := false,
            atime := 0, mtime := 0, next := Transfer, request := Recursive), sent)
    else Go(s.(state := ConfirmWithReceipt, next := Done), sent)
  }

  /** The buffer after the channel took its first n octets. */
  function Shifted(s: Source, n: nat): Source
    requires n <= |s.buffer|
  {
    s.(offset := s.offset + n, noProgress := if n > 0 then false else s.noProgress, buffer := s.buffer[n..])
  }

  function SendData(s: Source, io: Io): (o: Outcome)
    requires s.state == SendFile && Fits(s, io)
    ensures SameFlags(o.s, s)
  {
    match io
    case Want => Stay(s)
    case ExtData => Outcome(s, [], Stderr)
    case Broken => Fail(s)
    case Took(n) =>
      Route(Shifted(s, n), s.buffer[..n])
    case _ => Route(s, [])
  }

  /** A confirmation: only the first octet of what was read counts. */
  function ReceiveConfirmation(s: Source, io: Io): (o: Outcome)
    requires Receives(s.state) && Fits(s, io)
    ensures SameFlags(o.s, s)
  {
    if io.Want? then Stay(s)
    else if io.Got? && io.data[0] == 0 then
      Go(s.(state := if s.state == RecvConfirmation then s.next else SendConfirmation), [])
    else Fail(s)
  }

  /** One pass through the switch. */
  function Step(s: Source, io: Io): (o: Outcome)
    requires Fits(s, io)
    ensures SameFlags(o.s, s)
  {
    match s.state
    case Begin =>
      if io.answer.Abort? then Go(s.(state := RecvConfirmWithReceipt, next := Done, aborting := true), [])
      else Go(s.(state := Init, aborting := false), [])
    case Init =>
      Go(s.(state := RecvConfirmation, next := Transfer, offset := 0, buffer := [], headerSent := false,
            noProgress := false), [])
    case Transfer => Dispatch(s, io.answer)
    case SendFile => SendData(s, io)
    case Done => Go(s, [])
    case RecvConfirmation => ReceiveConfirmation(s, io)
    case RecvConfirmWithReceipt => ReceiveConfirmation(s, io)
    case _ => SendLine(s, io)
  }

  // --------------------------------------------------------- conservation

  /** What has happened to the file in hand: the data the callback handed over,
      the data the channel took, and how often the callback was asked, and the
      header and timestamp went out. */
  datatype Hist = Hist(handed: seq<byte>, sent: seq<byte>, visits: nat, headers: nat, stamps: nat)

  const NO_FILE := Hist([], [], 0, 0, 0)

  function Observe(h: Hist, s: Source, io: Io): Hist
    requires Fits(s, io)
  {
    var o := Step(s, io);
    match s.state
    case Init => NO_FILE
    case Transfer =>
      if io.answer.Fresh? || io.answer.More? then h.(handed := h.handed + io.answer.data, visits := h.visits + 1) else h
    case SendTimestamp => if o.ret == Going then h.(stamps := h.stamps + 1) else h
    case SendFileHeader => if o.ret == Going then h.(headers := h.headers + 1) else h
    case SendFile =>
      var g := h.(sent := h.sent + o.sent);
      if o.s.state == ConfirmWithReceipt && s.recursive then NO_FILE else g
    case _ => h
  }

  /** A want, a stderr packet and a failing channel end a call with the machine where
      it was, and nothing else ends it with a want or a stderr packet. */
  lemma InterruptedCallsStay(s: Source, io: Io)
    requires Fits(s, io)
    requires io.Want? || io.ExtData? || io.Broken? || Step(s, io).ret == WantIo || Step(s, io).ret == Stderr
    ensures Step(s, io) == Outcome(s, [], if io.Want? then WantIo else if io.ExtData? then Stderr else Fatal)
    ensures io.Want? || io.ExtData? || io.Broken?
    ensures forall h :: Observe(h, s, io) == h
  {
    forall h: Hist ensures h.(sent := h.sent + []) == h {
      assert h.sent + [] == h.sent;
    }
  }

  /** A run, with all it has sent: each answer is one the outside may give; a want
      keeps the machine in place, and nothing happens after a failure. */
  datatype Run = Run(s: Source, h: Hist, sent: seq<byte>, ret: Ret)

  function AtStart(recursive: bool, preserve: bool): Run {
    Run(Start(recursive, preserve), NO_FILE, [], Going)
  }

  predicate Runs(r: Run, ios: seq<Io>)
    decreases |ios|
  {
    ios == [] || (r.ret != Fatal && Fits(r.s, ios[0]) && Runs(After(r, ios[0]), ios[1..]))
  }

  function After(r: Run, io: Io): Run
    requires Fits(r.s, io)
  {
    Run(Step(r.s, io).s, Observe(r.h, r.s, io), r.sent + Step(r.s, io).sent, Step(r.s, io).ret)
  }

  function Final(r: Run, ios: seq<Io>): Run
    requires Runs(r, ios)
    decreases |ios|
  {
    if ios == [] then r else Final(After(r, ios[0]), ios[1..])
  }

  /** A file is open but its header has not gone out. */
  predicate BeforeHeader(s: Source) {
    || s.state.SendTimestamp? || s.state.SendFileHeader?
    || (s.state.RecvConfirmation? && s.next.SendFileHeader?)
  }

  /** The buffer is being emptied, or its file's header is on the way. */
  predicate MayHold(s: Source) {
    BeforeHeader(s) || s.state.SendFile? || (s.state.RecvConfirmation? && s.next.SendFile?)
  }

  /** Where each waiting state may lead. */
  predicate Routed(s: Source) {
    && (s.state.RecvConfirmation? ==> s.next.Transfer? || s.next.SendFileHeader? || s.next.SendFile? || s.next.Done?)
    && (s.state.ConfirmWithReceipt? ==> s.next.Done? || (s.next.Transfer? && !s.headerSent))
    && (s.state.SendConfirmation? || s.state.RecvConfirmWithReceipt? ==> s.next.Done?)
  }

  /** What holds at every point of every run. */
  predicate Conserved(s: Source, h: Hist) {
    && Routed(s)
    && h.handed == h.sent + s.buffer
    && s.offset == |h.sent|
    && (s.buffer != [] ==> MayHold(s))
    && (if BeforeHeader(s) then
          && !s.headerSent && !s.noProgress && h.sent == [] && h.visits == 1 && h.headers == 0
          && h.stamps == (if s.preserve && !s.state.SendTimestamp? then 1 else 0)
          && (s.state.SendTimestamp? ==> s.preserve)
        else if s.headerSent then
          h.headers == 1 && h.stamps == if s.preserve then 1 else 0
        else
          h == NO_FILE && !s.noProgress && !MayHold(s))
  }

  /** How often the callback is asked for one file: every visit after the first
      brings data, or ends the transfer. */
  predicate Paced(s: Source, h: Hist) {
    && h.visits <= (if s.headerSent || BeforeHeader(s) then s.size + 1 else 0)
    && (s.headerSent && s.noProgress ==>
          s.offset < s.size && h.visits <= s.offset + if s.state.SendFile? then 2 else 1)
    && (s.headerSent && !s.noProgress && MayHold(s) ==>
          s.state.SendFile? || (h.visits == 1 && h.sent == []))
    && (s.headerSent && s.state.Transfer? ==> s.noProgress)
    && (s.headerSent && s.state.RecvConfirmation? && s.next.Transfer? ==> s.noProgress)
    && (s.headerSent && (s.state.SendEnterDir? || s.state.SendExitDir?) ==> s.noProgress)
    && (s.headerSent && s.state.SendFile? && !s.noProgress ==> h.visits <= s.offset + 1)
  }

  lemma StartConserved(recursive: bool, preserve: bool)
    ensures Conserved(Start(recursive, preserve), NO_FILE) && Paced(Start(recursive, preserve), NO_FILE)
  {
  }

  lemma RouteConserves(s: Source, h: Hist, sent: seq<byte>)
    requires s.state.SendFile? && Conserved(s, h) && Paced(s, h)
    ensures var t := Route(s, sent).s; var g := if t.state.ConfirmWithReceipt? && s.recursive then NO_FILE else h;
            Conserved(t, g) && Paced(t, g)
  {
  }

  lemma ShiftConserves(s: Source, h: Hist, n: nat)
    requires s.state.SendFile? && Conserved(s, h) && Paced(s, h) && n <= |s.buffer|
    ensures var g := h.(sent := h.sent + s.buffer[..n]);
            Conserved(Shifted(s, n), g) && Paced(Shifted(s, n), g)
  {
    assert h.sent + s.buffer[..n] + s.buffer[n..] == h.sent + s.buffer;
  }

  lemma DataStepConserves(s: Source, h: Hist, io: Io)
    requires s.state.SendFile? && Conserved(s, h) && Paced(s, h) && Fits(s, io)
    ensures Conserved(Step(s, io).s, Observe(h, s, io)) && Paced(Step(s, io).s, Observe(h, s, io))
  {
    assert h.(sent := h.sent + []) == h;
    if io.Took? {
      ShiftConserves(s, h, io.n);
      RouteConserves(Shifted(s, io.n), h.(sent := h.sent + s.buffer[..io.n]), s.buffer[..io.n]);
    } else if io.Tick? {
      RouteConserves(s, h, []);
    }
  }

  lemma TransferConserves(s: Source, h: Hist, a: Answer)
    requires s.state == Transfer && Conserved(s, h) && Paced(s, h) && Fits(s, Call(a))
    ensures Conserved(Step(s, Call(a)).s, Observe(h, s, Call(a)))
    ensures Paced(Step(s, Call(a)).s, Observe(h, s, Call(a)))
  {
    match a
    case Fresh(_, _, _, _, _, data) =>
      assert [] + data == data;
    case More(data) =>
      assert [] + data == data && h.handed == h.sent;
    case EnterDir(_, _) =>
    case ExitDir =>
    case ExitDirFinal =>
    case Complete =>
    case Abort =>
    case _ =>
  }

  lemma LineConserves(s: Source, h: Hist)
    requires SendsLine(s.state) && Conserved(s, h) && Paced(s, h)
    ensures var g := if s.state.SendTimestamp? then h.(stamps := h.stamps + 1)
                     else if s.state.SendFileHeader? then h.(headers := h.headers + 1) else h;
            Conserved(AfterLine(s), g) && Paced(AfterLine(s), g)
  {
  }

  lemma LineStepConserves(s: Source, h: Hist, io: Io)
    requires SendsLine(s.state) && Conserved(s, h) && Paced(s, h) && Fits(s, io)
    ensures Conserved(Step(s, io).s, Observe(h, s, io)) && Paced(Step(s, io).s, Observe(h, s, io))
  {
    LineConserves(s, h);
    var o := SendLine(s, io);
    assert Step(s, io) == o;
    if o.ret == Going {
      assert o.s == AfterLine(s);
    }
  }

  lemma QuietStepConserves(s: Source, h: Hist, io: Io)
    requires s.state.Begin? || s.state.Init? || s.state.Done?
    requires Conserved(s, h) && Paced(s, h) && Fits(s, io)
    ensures Conserved(Step(s, io).s, Observe(h, s, io)) && Paced(Step(s, io).s, Observe(h, s, io))
  {
  }

  lemma ReceiveConserves(s: Source, h: Hist)
    requires Receives(s.state) && Conserved(s, h) && Paced(s, h)
    ensures var t := s.(state := if s.state.RecvConfirmation? then s.next else SendConfirmation);
            Conserved(t, h) && Paced(t, h)
  {
  }

  lemma StepConserves(s: Source, h: Hist, io: Io)
    requires Conserved(s, h) && Paced(s, h) && Fits(s, io)
    ensures Conserved(Step(s, io).s, Observe(h, s, io)) && Paced(Step(s, io).s, Observe(h, s, io))
  {
    if s.state.SendFile? {
      DataStepConserves(s, h, io);
    } else if s.state.Transfer? {
      TransferConserves(s, h, io.answer);
    } else if SendsLine(s.state) {
      LineStepConserves(s, h, io);
    } else if Receives(s.state) {
      ReceiveConserves(s, h);
      assert Step(s, io) == ReceiveConfirmation(s, io);
    } else {
      QuietStepConserves(s, h, io);
    }
  }

  lemma {:induction false} RunConserves(r: Run, ios: seq<Io>)
    requires Conserved(r.s, r.h) && Paced(r.s, r.h) && Runs(r, ios)
    ensures Conserved(Final(r, ios).s, Final(r, ios).h) && Paced(Final(r, ios).s, Final(r, ios).h)
    decreases |ios|
  {
    if ios != [] {
      StepConserves(r.s, r.h, ios[0]);
      RunConserves(After(r, ios[0]), ios[1..]);
    }
  }

  /** Conservation over whole runs: whatever the callback hands over, whatever
      prefix each send takes and however often a want interrupts, the data sent
      followed by the buffer is the data handed over, the offset counts what was
      sent, the header and the timestamp are out at most once, and the callback
      is asked at most size + 1 times for a file. */
  lemma SourceConservation(recursive: bool, preserve: bool, ios: seq<Io>)
    requires Runs(AtStart(recursive, preserve), ios)
    ensures var r := Final(AtStart(recursive, preserve), ios);
            && r.h.handed == r.h.sent + r.s.buffer
            && r.s.offset == |r.h.sent|
            && r.h.headers <= 1 && r.h.stamps <= 1
            && (r.h.sent != [] ==> r.h.headers == 1 && (r.h.stamps == 1 <==> preserve))
            && (r.h.visits > 0 ==> r.h.visits <= r.s.size + 1)
  {
    StartConserved(recursive, preserve);
    RunConserves(AtStart(recursive, preserve), ios);
    RunKeepsFlags(AtStart(recursive, preserve), ios);
  }

  lemma {:induction false} RunKeepsFlags(r: Run, ios: seq<Io>)
    requires Runs(r, ios)
    ensures Final(r, ios).s.preserve == r.s.preserve && Final(r, ios).s.recursive == r.s.recursive
    decreases |ios|
  {
    if ios != [] {
      RunKeepsFlags(After(r, ios[0]), ios[1..]);
    }
  }

  /** A file is closed only with nothing left in the buffer, everything handed
      over sent, and at least size octets of it. */
  lemma FileEndsWhole(r: Run, io: Io)
    requires Conserved(r.s, r.h) && Fits(r.s, io)
    requires r.s.state == SendFile && Step(r.s, io).s.state == ConfirmWithReceipt
    ensures r.h.handed == r.h.sent + Step(r.s, io).sent
    ensures |r.h.handed| >= r.s.size
  {
    if io.Took? {
      assert r.s.buffer == r.s.buffer[..io.n] + r.s.buffer[io.n..];
    } else {
      assert r.s.buffer == [];
    }
  }
}
