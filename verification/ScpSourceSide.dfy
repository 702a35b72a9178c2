/**
 * The source machine follows its script: each pass either does the next acts of
 * what SourceRest names or leaves it unchanged.
 */
module ScpSourceSide {
  import opened Bytes
  import opened ScpText
  import opened Dialogue
  import opened ScpTree
  import opened ScpSession
  import Src = ScpSource

  type Acts = seq<Act<Token>>

  lemma AskedThen(c: Control, rest: Acts)
    ensures Asked(c) + rest == [Snd(Line(c))] + ([Rcv(Good)] + rest)
  {
  }

  lemma ClosingThen(rest: Acts)
    ensures CLOSING + rest == [Snd(Good)] + ([Rcv(Good)] + rest)
  {
  }

  // --------------------------------------------------------- the callback

  /** What was fetched is about to be sent. */
  predicate Settled(s: Src.Source) {
    && !s.state.Begin? && !s.state.Init? && !s.state.Transfer?
    && (s.state.SendFile? ==> s.buffer != [])
  }

  /** A directory opens or closes: the item's acts are still to be done. */
  lemma FetchesBoundary(preserve: bool, s: Src.Source, was: Item, stage: Stage, cur: Item, stage': Stage, tail: Acts)
    requires SourceForm(preserve, s, was, None, stage) && s.state.Transfer? && !s.headerSent
    requires cur.DirItem? ==> stage'.Open?
    requires cur.EndItem? ==> !stage'.Unopened?
    requires !cur.FileItem?
    ensures var a := if cur.DirItem? then Src.EnterDir(cur.name, cur.mode)
                     else if stage'.Fetched? then Src.ExitDirFinal else Src.ExitDir;
            var o := Src.Dispatch(s, a);
            && o.ret.Going? && o.sent == [] && Settled(o.s)
            && SourceForm(preserve, o.s, cur, None, stage')
            && SourceRest(o.s, cur, tail) == SourceActs(cur) + tail
  {
  }

  /** A file opens with its first part read. */
  lemma FetchesFile(preserve: bool, s: Src.Source, was: Item, stage: Stage, cur: Item, mtime: nat, atime: nat,
                    data: seq<byte>, unread: Option<seq<byte>>, tail: Acts)
    requires SourceForm(preserve, s, was, None, stage) && s.state.Transfer? && !s.headerSent
    requires cur.FileItem? && cur.times == (if preserve then Times(mtime, atime) else NoTimes)
    requires data + Left(unread) == cur.content && (unread.Some? ==> unread.value != [])
    ensures var o := Src.Dispatch(s, Src.Fresh(cur.name, cur.mode, mtime, atime, |cur.content|, data));
            && o.ret.Going? && o.sent == [] && Settled(o.s)
            && SourceForm(preserve, o.s, cur, unread, Open)
            && SourceRest(o.s, cur, tail) == SourceActs(cur) + tail
  {
    assert cur.content[0..] == cur.content && [] + data == data;
    assert [] + HeaderOnSource(cur) == HeaderOnSource(cur);
    var hdr, body := Asked(FileControl(cur.mode, |cur.content|, cur.name)), DataOnSource(cur.content);
    assert HeaderOnSource(cur) == hdr + body;
  }

  /** More of the file in hand is read. */
  lemma ReadsMore(preserve: bool, s: Src.Source, cur: Item, unread: Option<seq<byte>>, stage: Stage,
                  data: seq<byte>, unread': Option<seq<byte>>, tail: Acts)
    requires SourceForm(preserve, s, cur, unread, stage) && s.state.Transfer? && s.headerSent
    requires data != [] && data + Left(unread') == Left(unread) && (unread'.Some? ==> unread'.value != [])
    ensures var o := Src.Dispatch(s, Src.More(data));
            && o.ret.Going? && o.sent == [] && Settled(o.s)
            && SourceForm(preserve, o.s, cur, unread', stage)
            && SourceRest(o.s, cur, tail) == SourceRest(s, cur, tail)
  {
    assert [] + Left(unread) == Left(unread) && [] + data == data;
  }

  // -------------------------------------------------------- control lines

  lemma LineIsControl(s: Src.Source)
    requires Src.SendsLine(s.state) && !Src.SendsConfirmation(s.state)
    ensures Src.LineOf(s) == Wire(ControlOf(s))
  {
  }

  lemma ControlCarriable(preserve: bool, s: Src.Source, cur: Item, unread: Option<seq<byte>>, stage: Stage)
    requires CarriableItem(cur) && SourceForm(preserve, s, cur, unread, stage)
    requires Src.SendsLine(s.state) && !Src.SendsConfirmation(s.state)
    ensures CarriableControl(ControlOf(s))
  {
  }

  lemma SendsStamp(preserve: bool, s: Src.Source, cur: Item, unread: Option<seq<byte>>, stage: Stage, tail: Acts)
    requires SourceForm(preserve, s, cur, unread, stage) && s.state.SendTimestamp?
    ensures var s' := Src.AfterLine(s);
            && SourceForm(preserve, s', cur, unread, stage)
            && SourceRest(s, cur, tail) == [Snd(Line(ControlOf(s)))] + SourceRest(s', cur, tail)
  {
    var c, hdr, body := ControlOf(s), Asked(FileControl(s.mode, s.size, s.name)), DataOnSource(cur.content);
    Assoc(Asked(c), hdr, body);
    Assoc(Asked(c), hdr + body, tail);
    AskedThen(c, hdr + body + tail);
  }

  lemma SendsHeader(preserve: bool, s: Src.Source, cur: Item, unread: Option<seq<byte>>, stage: Stage, tail: Acts)
    requires SourceForm(preserve, s, cur, unread, stage) && s.state.SendFileHeader?
    ensures var s' := Src.AfterLine(s);
            && SourceForm(preserve, s', cur, unread, stage)
            && SourceRest(s, cur, tail) == [Snd(Line(ControlOf(s)))] + SourceRest(s', cur, tail)
  {
    assert cur.content[0..] == cur.content;
    var c, body := ControlOf(s), DataOnSource(cur.content);
    Assoc(Asked(c), body, tail);
    AskedThen(c, body + tail);
  }

  lemma SendsControl(preserve: bool, s: Src.Source, cur: Item, unread: Option<seq<byte>>, stage: Stage, tail: Acts)
    requires SourceForm(preserve, s, cur, unread, stage)
    requires Src.SendsLine(s.state) && !Src.SendsConfirmation(s.state)
    requires stage.Fetched? ==> tail == []
    ensures var s' := Src.AfterLine(s);
            && SourceForm(preserve, s', cur, unread, stage)
            && SourceRest(s, cur, tail) == [Snd(Line(ControlOf(s)))] + SourceRest(s', cur, tail)
  {
    if s.state.SendFileHeader? {
      SendsHeader(preserve, s, cur, unread, stage, tail);
    } else if s.state.SendTimestamp? {
      SendsStamp(preserve, s, cur, unread, stage, tail);
    } else {
      AskedThen(ControlOf(s), tail);
    }
  }

  lemma SendsGood(preserve: bool, s: Src.Source, cur: Item, unread: Option<seq<byte>>, stage: Stage, tail: Acts)
    requires SourceForm(preserve, s, cur, unread, stage) && s.state.ConfirmWithReceipt?
    ensures var s' := Src.AfterLine(s);
            && SourceForm(preserve, s', cur, unread, stage)
            && SourceRest(s, cur, tail) == [Snd(Good)] + SourceRest(s', cur, tail)
  {
    ClosingThen(tail);
  }

  // ------------------------------------------------------------ file data

  lemma OctetsSplit(content: seq<byte>, n: nat)
    requires n <= |content|
    ensures Octets(content) == Octets(content[..n]) + Octets(content[n..])
  {
  }

  lemma SendsSplit(a: seq<Token>, b: seq<Token>)
    ensures Sends(a + b) == Sends(a) + Sends(b)
  {
  }

  lemma DataSplits(content: seq<byte>, n: nat, tail: Acts)
    requires n <= |content|
    ensures DataOnSource(content) + tail == Sends(Octets(content[..n])) + (DataOnSource(content[n..]) + tail)
  {
    OctetsSplit(content, n);
    var a, b := Octets(content[..n]), Octets(content[n..]);
    SendsSplit(a, b);
    Assoc(Sends(a), Sends(b), CLOSING);
    Assoc(Sends(a), Sends(b) + CLOSING, tail);
  }

  /** What the channel takes of the buffer is what the file has at the offset. */
  lemma DataShifts(s: Src.Source, cur: Item, unread: Option<seq<byte>>, n: nat)
    requires Matches(cur, s, unread) && n <= |s.buffer|
    ensures Matches(cur, Src.Shifted(s, n), unread)
    ensures cur.content[s.offset..][..n] == s.buffer[..n]
    ensures cur.content[s.offset..][n..] == cur.content[s.offset + n..]
  {
    var left := cur.content[s.offset..];
    assert left[n..] == s.buffer[n..] + Left(unread);
  }

  /** The file in hand between taking data and routing on. */
  predicate Sending(preserve: bool, s: Src.Source, cur: Item, unread: Option<seq<byte>>) {
    && s.state.SendFile? && s.headerSent && !s.aborting && s.recursive && s.preserve == preserve
    && Matches(cur, s, unread) && (s.noProgress ==> s.buffer != [])
  }

  lemma RoutesOn(preserve: bool, s: Src.Source, cur: Item, unread: Option<seq<byte>>, sent: seq<byte>, tail: Acts)
    requires Sending(preserve, s, cur, unread) && (s.buffer != [] || s.offset < s.size)
    ensures var o := Src.Route(s, sent);
            && o.ret.Going? && o.sent == sent
            && SourceForm(preserve, o.s, cur, unread, Open)
            && SourceRest(o.s, cur, tail) == SourceRest(s, cur, tail)
  {
    if s.buffer == [] {
      assert |Left(unread)| == |cur.content[s.offset..]|;
    }
  }

  lemma RoutesEnd(preserve: bool, s: Src.Source, cur: Item, unread: Option<seq<byte>>, sent: seq<byte>, tail: Acts)
    requires Sending(preserve, s, cur, unread) && s.buffer == [] && s.offset >= s.size
    ensures var o := Src.Route(s, sent);
            && o.ret.Going? && o.sent == sent
            && SourceForm(preserve, o.s, cur, unread, Open)
            && SourceRest(o.s, cur, tail) == SourceRest(s, cur, tail)
  {
    var left := cur.content[s.offset..];
    assert left == [] && Left(unread) == [];
    assert DataOnSource(left) == CLOSING;
  }

  lemma FormSends(preserve: bool, s: Src.Source, cur: Item, unread: Option<seq<byte>>, n: nat)
    requires SourceForm(preserve, s, cur, unread, Open) && s.state.SendFile? && n <= |s.buffer|
    ensures Matches(cur, s, unread) && s.headerSent
    ensures Sending(preserve, Src.Shifted(s, n), cur, unread)
  {
    DataShifts(s, cur, unread, n);
  }

  lemma ShiftRest(s: Src.Source, cur: Item, unread: Option<seq<byte>>, n: nat, tail: Acts)
    requires s.state.SendFile? && Matches(cur, s, unread) && n <= |s.buffer|
    ensures SourceRest(s, cur, tail) == Sends(Octets(s.buffer[..n])) + SourceRest(Src.Shifted(s, n), cur, tail)
  {
    hide DataOnSource;
    DataShifts(s, cur, unread, n);
    DataSplits(cur.content[s.offset..], n, tail);
  }

  lemma SendsData(preserve: bool, s: Src.Source, cur: Item, unread: Option<seq<byte>>, n: nat, tail: Acts)
    requires SourceForm(preserve, s, cur, unread, Open) && s.state.SendFile? && n <= |s.buffer|
    ensures var o := Src.SendData(s, if s.buffer == [] then Src.Tick else Src.Took(n));
            && o.ret.Going? && o.sent == s.buffer[..n]
            && (s.buffer == [] ==> o.s.state.Transfer? || o.s.state.ConfirmWithReceipt?)
            && SourceForm(preserve, o.s, cur, unread, Open)
            && SourceRest(s, cur, tail) == Sends(Octets(s.buffer[..n])) + SourceRest(o.s, cur, tail)
  {
    hide SourceForm, SourceRest, Octets, Sends, Matches;
    FormSends(preserve, s, cur, unread, n);
    ShiftRest(s, cur, unread, n, tail);
    var t := Src.Shifted(s, n);
    if t.buffer == [] && t.offset >= t.size {
      RoutesEnd(preserve, t, cur, unread, s.buffer[..n], tail);
    } else {
      RoutesOn(preserve, t, cur, unread, s.buffer[..n], tail);
    }
    if s.buffer == [] {
      assert t == s;
    }
  }

  // -------------------------------------------------------- confirmations

  lemma HearsGood(preserve: bool, s: Src.Source, cur: Item, unread: Option<seq<byte>>, stage: Stage, tail: Acts)
    requires SourceForm(preserve, s, cur, unread, stage) && s.state.RecvConfirmation?
    ensures var s' := s.(state := s.next);
            && SourceForm(preserve, s', cur, unread, stage)
            && SourceRest(s, cur, tail) == [Rcv(Good)] + SourceRest(s', cur, tail)
  {
  }

  /** The passes before the first confirmation, and those after the last. */
  lemma Opens(preserve: bool, s: Src.Source, cur: Item, unread: Option<seq<byte>>, stage: Stage, tail: Acts)
    requires SourceForm(preserve, s, cur, unread, stage)
    requires s.state.Begin? || s.state.Init? || s.state.Done?
    ensures var o := Src.Step(s, if s.state.Begin? then Src.Call(Src.Accept) else Src.Tick);
            && o.ret.Going? && o.sent == []
            && SourceForm(preserve, o.s, cur, unread, stage)
            && SourceRest(o.s, cur, tail) == SourceRest(s, cur, tail)
  {
  }
}
