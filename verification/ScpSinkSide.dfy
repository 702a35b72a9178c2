/**
 * The sink machine follows its script: lines, data and confirmations arrive in
 * fragments, each pass does the next acts of what SinkRest names or leaves it
 * unchanged, and the callbacks build what the items say.
 */
module ScpSinkSide {
  import opened Bytes
  import opened ScpText
  import opened Dialogue
  import opened ScpTree
  import opened ScpSession
  import opened ScpSourceSide
  import Snk = ScpSink

  /** The control line an item starts with, or goes on with once stamped. */
  function Awaited(cur: Item, stamped: bool): Control {
    match cur
    case DirItem(name, mode) => DirControl(mode, name)
    case EndItem => EndControl
    case FileItem(name, mode, times, content) =>
      if times.Times? && !stamped then TimeControl(times.mtime, times.atime)
      else FileControl(mode, |content|, name)
  }

  lemma AnsweredThen(c: Control, rest: Acts)
    ensures Answered(c) + rest == [Rcv(Line(c))] + ([Snd(Good)] + rest)
  {
  }

  // -------------------------------------------------------- control lines

  /** Part of a line only fills the buffer. */
  lemma LineGrows(s: Snk.Sink, c: Control, data: seq<byte>)
    requires s.state.ReceiveMessage? && CarriableControl(c) && data != []
    requires |s.msg| + |data| < |Wire(c)| && s.msg + data == Wire(c)[..|s.msg| + |data|]
    ensures Snk.Fits(s, Snk.Got(data, true, true))
    ensures Snk.Step(s, Snk.Got(data, true, true)) == Snk.Outcome(s.(msg := s.msg + data), [], Snk.Going)
  {
    WireRoundTrip(c);
    var line := s.msg + data;
    assert line[|line| - 1] == Wire(c)[|line| - 1];
  }

  /** The rest of a line has it parsed to what it says. */
  lemma LineEnds(s: Snk.Sink, c: Control, data: seq<byte>)
    requires s.state.ReceiveMessage? && CarriableControl(c) && data != []
    requires s.msg + data == Wire(c)
    ensures Snk.Fits(s, Snk.Got(data, true, true))
    ensures Snk.Step(s, Snk.Got(data, true, true)) ==
            Snk.Outcome(Snk.Obey(s.(msg := []), MessageOf(c), true), [], Snk.Going)
  {
    WireRoundTrip(c);
  }

  /** A directory boundary is obeyed: the item is done. */
  lemma ObeysBoundary(s: Snk.Sink, cur: Item, here: Acts, tail: Acts, stack: seq<Frame>, next: Item, left: bool)
    requires s.state.ReceiveMessage? && s.msg == []
    requires SinkForm(s, cur, false, true) && Built(s, cur, stack)
    requires !cur.FileItem? && here == SinkActs(cur) + tail && PutItem(stack, cur).Some?
    ensures var t := Snk.Obey(s, MessageOf(Awaited(cur, false)), true);
            && SinkForm(t, next, false, left) && Built(t, next, PutItem(stack, cur).value)
            && t.state.SendConfirmation? && t.next.ReceiveMessage? && t.msg == []
            && SinkRest(s, cur, false, here, tail) == [Rcv(Line(Awaited(cur, false)))] + ([Snd(Good)] + tail)
  {
    hide Replay, Takes, Sends, PutItems, Answered, Wire;
    AnsweredThen(Awaited(cur, false), tail);
    match cur
    case DirItem(name, mode) => ReplayAppend(s.log, NewDir(name, mode % MODE_RANGE));
    case EndItem => ReplayAppend(s.log, EndDir);
  }

  /** A timestamp is obeyed: the item is stamped. */
  lemma ObeysStamp(s: Snk.Sink, cur: Item, here: Acts, tail: Acts, stack: seq<Frame>)
    requires s.state.ReceiveMessage? && s.msg == []
    requires SinkForm(s, cur, false, true) && Built(s, cur, stack)
    requires cur.FileItem? && cur.times.Times? && here == SinkActs(cur) + tail
    ensures var t := Snk.Obey(s, MessageOf(Awaited(cur, false)), true);
            && SinkForm(t, cur, true, true) && Built(t, cur, stack) && t.msg == []
            && SinkRest(s, cur, false, here, tail)
               == [Rcv(Line(Awaited(cur, false)))] + SinkRest(t, cur, true, here, tail)
  {
    Assoc(Answered(Awaited(cur, false)), HeaderOnSink(cur), tail);
    AnsweredThen(Awaited(cur, false), HeaderOnSink(cur) + tail);
  }

  /** A file header is obeyed: the file is open. */
  lemma ObeysHeader(s: Snk.Sink, cur: Item, stamped: bool, here: Acts, tail: Acts, stack: seq<Frame>)
    requires s.state.ReceiveMessage? && s.msg == []
    requires SinkForm(s, cur, stamped, true) && Built(s, cur, stack)
    requires cur.FileItem? && (stamped || cur.times.NoTimes?)
    requires !stamped ==> here == SinkActs(cur) + tail
    requires stack != []
    ensures var t := Snk.Obey(s, MessageOf(Awaited(cur, stamped)), true);
            && SinkForm(t, cur, false, true) && Built(t, cur, stack) && t.msg == []
            && SinkRest(s, cur, stamped, here, tail)
               == [Rcv(Line(Awaited(cur, stamped)))] + SinkRest(t, cur, false, here, tail)
  {
    var c, body := Awaited(cur, stamped), DataOnSink(cur.content);
    assert cur.content[0..] == cur.content && cur.content[..0] == [];
    assert [] + HeaderOnSink(cur) == HeaderOnSink(cur);
    assert HeaderOnSink(cur) == Answered(c) + body by {
      Assoc(Answered(c), Takes(Octets(cur.content)), CLOSING);
    }
    Assoc(Answered(c), body, tail);
    AnsweredThen(c, body + tail);
    ReplayAppend(s.log, NewFile(cur.name, cur.mode % MODE_RANGE, s.mtime, s.atime, |cur.content|));
  }

  // ------------------------------------------------------------ file data

  lemma TakesSplit(a: seq<Token>, b: seq<Token>)
    ensures Takes(a + b) == Takes(a) + Takes(b)
  {
  }

  lemma DataArrivesAs(content: seq<byte>, n: nat, tail: Acts)
    requires n <= |content|
    ensures DataOnSink(content) + tail == Takes(Octets(content[..n])) + (DataOnSink(content[n..]) + tail)
  {
    OctetsSplit(content, n);
    var a, b := Octets(content[..n]), Octets(content[n..]);
    TakesSplit(a, b);
    Assoc(Takes(a), Takes(b), CLOSING);
    Assoc(Takes(a), Takes(b) + CLOSING, tail);
  }

  /** The part's callback goes through. */
  function AfterPart(s: Snk.Sink, data: seq<byte>): Snk.Sink {
    Snk.MakeCall(s, FilePart(data, s.offset), true).(offset := s.offset + |data|)
  }

  lemma PartBuilt(s: Snk.Sink, cur: Item, stack: seq<Frame>, data: seq<byte>)
    requires s.state.ReceiveFile? && SinkForm(s, cur, false, true) && Built(s, cur, stack)
    requires s.offset + |data| <= |cur.content| && data == cur.content[s.offset..s.offset + |data|]
    ensures var t := AfterPart(s, data);
            Built(t, cur, stack) && SinkForm(t.(next := Snk.ReceiveFile), cur, false, true)
  {
    ReplayAppend(s.log, FilePart(data, s.offset));
    assert cur.content[..s.offset] + data == cur.content[..s.offset + |data|];
  }

  /** The last part also finishes the file: the item is done. */
  lemma DoneBuilt(t: Snk.Sink, cur: Item, stack: seq<Frame>, next: Item, left: bool)
    requires t.state.ReceiveFile? && t.offset == t.size && stack != []
    requires SinkForm(t.(next := Snk.ReceiveFile), cur, false, true) && Built(t, cur, stack)
    ensures var u := Snk.Confirm(Snk.MakeCall(t, FileDone(t.mtime, t.atime), true).(offset := 0, atime := 0, mtime := 0),
                                 Snk.ReceiveConfirmation);
            && PutItem(stack, cur).Some?
            && SinkForm(u, next, false, left) && Built(u, next, PutItem(stack, cur).value)
  {
    ReplayAppend(t.log, FileDone(t.mtime, t.atime));
    assert cur.content[..t.offset] == cur.content;
  }

  /** A part that leaves more of the file to come. */
  lemma TakesPart(s: Snk.Sink, cur: Item, here: Acts, tail: Acts, stack: seq<Frame>, data: seq<byte>)
    requires s.state.ReceiveFile? && SinkForm(s, cur, false, true) && Built(s, cur, stack)
    requires s.offset + |data| < |cur.content| && data == cur.content[s.offset..s.offset + |data|]
    ensures var t := Snk.TakePart(s, data, true, true);
            && SinkForm(t, cur, false, true) && Built(t, cur, stack) && t.msg == s.msg && t.state.ReceiveFile?
            && SinkRest(s, cur, false, here, tail)
               == Takes(Octets(data)) + SinkRest(t, cur, false, here, tail)
  {
    PartBuilt(s, cur, stack, data);
    DataArrivesAs(cur.content[s.offset..], |data|, tail);
    assert cur.content[s.offset..][..|data|] == data;
    assert cur.content[s.offset..][|data|..] == cur.content[s.offset + |data|..];
  }

  /** A part that completes it. */
  lemma TakesLastPart(s: Snk.Sink, cur: Item, here: Acts, tail: Acts, stack: seq<Frame>, data: seq<byte>,
                      next: Item, left: bool)
    requires s.state.ReceiveFile? && SinkForm(s, cur, false, true) && Built(s, cur, stack) && stack != []
    requires s.offset + |data| == |cur.content| && data == cur.content[s.offset..s.offset + |data|]
    ensures var t := Snk.TakePart(s, data, true, true);
            && PutItem(stack, cur).Some?
            && SinkForm(t, next, false, left) && Built(t, next, PutItem(stack, cur).value) && t.msg == s.msg
            && t.state.SendConfirmation? && t.next.ReceiveConfirmation?
            && SinkRest(s, cur, false, here, tail)
               == Takes(Octets(data)) + ([Snd(Good)] + ([Rcv(Good)] + tail))
  {
    PartBuilt(s, cur, stack, data);
    DoneBuilt(AfterPart(s, data), cur, stack, next, left);
    DataArrivesAs(cur.content[s.offset..], |data|, tail);
    assert cur.content[s.offset..][..|data|] == data;
    assert cur.content[s.offset..][|data|..] == [];
    assert DataOnSink([]) == CLOSING;
    ClosingThen(tail);
  }

  // -------------------------------------------------------- confirmations

  lemma Begins(s: Snk.Sink, cur: Item, here: Acts, tail: Acts, left: bool)
    requires s.state.Begin? && SinkForm(s, cur, false, left) && Built(s, cur, BASE)
    ensures var o := Snk.Step(s, Snk.Call(true));
            && o.ret.Going? && o.sent == [] && o.s.state.SendConfirmation?
            && SinkForm(o.s, cur, false, left) && Built(o.s, cur, BASE) && o.s.msg == s.msg
            && SinkRest(s, cur, false, here, tail) == SinkRest(o.s, cur, false, here, tail)
  {
    assert Replay([]) == Some(Dest([], None));
    ReplayAppend([], NewRequest);
  }

  lemma Confirms(s: Snk.Sink, cur: Item, stamped: bool, here: Acts, tail: Acts, stack: seq<Frame>, left: bool)
    requires s.state.SendConfirmation? && SinkForm(s, cur, stamped, left) && Built(s, cur, stack)
    ensures var o := Snk.Step(s, Snk.Took(1));
            && o.ret.Going? && o.sent == [0]
            && SinkForm(o.s, cur, stamped, left) && Built(o.s, cur, stack) && o.s.msg == s.msg
            && SinkRest(s, cur, stamped, here, tail) == [Snd(Good)] + SinkRest(o.s, cur, stamped, here, tail)
  {
  }

  lemma SinkHearsGood(s: Snk.Sink, cur: Item, here: Acts, tail: Acts, stack: seq<Frame>, left: bool)
    requires s.state.ReceiveConfirmation? && SinkForm(s, cur, false, left) && Built(s, cur, stack)
    ensures var o := Snk.Step(s, Snk.Got([0], true, true));
            && o.ret.Going? && o.sent == []
            && SinkForm(o.s, cur, false, left) && Built(o.s, cur, stack) && o.s.msg == s.msg
            && SinkRest(s, cur, false, here, tail) == [Rcv(Good)] + SinkRest(o.s, cur, false, here, tail)
  {
  }
}
