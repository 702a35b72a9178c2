/**
 * Every pass of the sink side keeps the session's invariant, and brings the end
 * of the transfer nearer unless it is blocked.
 */
module ScpSinkMoves {
  import opened Bytes
  import opened ScpText
  import opened Dialogue
  import opened ScpTree
  import opened ScpWalk
  import opened ScpSession
  import opened ScpSourceSide
  import opened ScpSinkSide
  import opened ScpSourceMoves
  import Snk = ScpSink

  predicate SinkBlocked(x: Session) {
    || x.snk.state.Done?
    || (x.ab == [] && (
        || (x.snk.state.ReceiveMessage? && !x.src.state.Done?)
        || x.snk.state.ReceiveConfirmation?
        || (x.snk.state.ReceiveFile? && Snk.Ask(x.snk) > 0)))
  }

  function SinkLeft(r: Request, g: Place): bool {
    g.i < |AllItems(r)|
  }

  /** What its callbacks have built before the item it is at. */
  function StackAt(r: Request, i: nat): Option<seq<Frame>>
    requires i <= |AllItems(r)|
  {
    PutItems(BASE, AllItems(r)[..i])
  }

  lemma InvSink(r: Request, x: Session, g: Place)
    requires Inv(r, x, g)
    ensures g.i <= |AllItems(r)|
    ensures SinkForm(x.snk, SinkCur(r, g), g.stamped, SinkLeft(r, g))
    ensures StackAt(r, g.i).Some? && Built(x.snk, SinkCur(r, g), StackAt(r, g.i).value)
    ensures SoundQueue(x.snk.msg, x.ab)
    ensures !x.failed
  {
    hide Walking, SourceForm, Coherent, SinkForm, Built, PutItems, SoundQueue, AllItems;
  }

  lemma {:induction false} PutItemsKeepsBase(stack: seq<Frame>, items: seq<Item>)
    requires stack != [] && PutItems(stack, items).Some?
    ensures PutItems(stack, items).value != []
    decreases |items|
  {
    if items != [] {
      PutItemsKeepsBase(PutItem(stack, items[0]).value, items[1..]);
    }
  }

  /** The whole list can be built, so each item can where it stands. */
  lemma NextStack(r: Request, i: nat)
    requires i < |AllItems(r)| && StackAt(r, i).Some?
    ensures StackAt(r, i).value != []
    ensures PutItem(StackAt(r, i).value, AllItems(r)[i]).Some?
    ensures StackAt(r, i + 1) == PutItem(StackAt(r, i).value, AllItems(r)[i])
  {
    hide Items, ItemsOf, PutItem;
    var all := AllItems(r);
    ItemsRebuild(r.tree, r.preserve, BASE);
    assert all == all[..i] + all[i..];
    PutItemsAppend(BASE, all[..i], all[i..]);
    PutItemsKeepsBase(BASE, all[..i]);
    assert all[..i + 1] == all[..i] + [all[i]];
    PutItemsAppend(BASE, all[..i], [all[i]]);
    assert [all[i]][1..] == [];
  }

  // ------------------------------------------------- assembling sink moves

  /** A sink pass that takes nothing of a token and sends nothing; the message
      being read may shrink. */
  lemma QuietSink(r: Request, x: Session, g: Place, s: Snk.Sink, ab: seq<Packet>, g': Place)
    requires Inv(r, x, g)
    requires g' == g.(i := g'.i, stamped := g'.stamped)
    requires SinkWalks(r, s, g') && SinkForm(s, SinkCur(r, g'), g'.stamped, SinkLeft(r, g'))
    requires SoundQueue(s.msg, ab) && Tokens(ab) == Tokens(x.ab)
    requires SinkRest(s, SinkCur(r, g'), g'.stamped, SinkHere(r, g'), SinkTail(r, g')) == SinkTodo(r, x, g)
    ensures Inv(r, x.(snk := s, ab := ab), g')
  {
    hide Coherent, Tokens, SourceScript, SinkScript, Stands, Owed, SinkWalks, SourceForm, SinkForm, SoundQueue,
         AllItems, SourceRest, SinkRest;
    assert ConfigOf(AllItems(r), x.(snk := s, ab := ab), g') == ConfigOf(AllItems(r), x, g);
  }

  /** A sink pass that sends a good confirmation. */
  lemma ConfirmingSink(r: Request, x: Session, g: Place, s: Snk.Sink)
    requires Inv(r, x, g) && s.msg == x.snk.msg
    requires SinkWalks(r, s, g) && SinkForm(s, SinkCur(r, g), g.stamped, SinkLeft(r, g))
    requires SinkTodo(r, x, g) ==
             [Snd(Good)] + SinkRest(s, SinkCur(r, g), g.stamped, SinkHere(r, g), SinkTail(r, g))
    ensures Inv(r, x.(snk := s, ba := x.ba + [Packet([0], GoodMsg)]), g)
  {
    hide Coherent, Tokens, SourceScript, SinkScript, Walking, SinkWalks, SourceForm, SinkForm, AllItems,
         SourceRest, SinkRest;
    var pk := Packet([0], GoodMsg);
    var rest := SinkRest(s, SinkCur(r, g), g.stamped, SinkHere(r, g), SinkTail(r, g));
    InvConfig(r, x, g);
    var c := ConfigOf(AllItems(r), x, g);
    MirrorCoherent(c);
    assert Sends([Good]) == [Snd(Good)];
    SendKeeps(Mirror(c), [Good], rest);
    var c' := Mirror(c).(a := rest, ab := c.ba + [Good]);
    MirrorCoherent(c');
    TokensAppend(x.ba, pk);
    SoundAppend([], x.ba, pk);
    assert ConfigOf(AllItems(r), x.(snk := s, ba := x.ba + [pk]), g) == Mirror(c');
  }

  /** A sink pass that takes the next k tokens of its script. */
  lemma TakingSink(r: Request, x: Session, g: Place, k: nat, s: Snk.Sink, ab: seq<Packet>, g': Place)
    requires Inv(r, x, g)
    requires g' == g.(i := g'.i, stamped := g'.stamped)
    requires k <= |Tokens(x.ab)| && k <= |SinkTodo(r, x, g)|
    requires forall i :: 0 <= i < k ==> SinkTodo(r, x, g)[i].Rcv?
    requires SinkWalks(r, s, g') && SinkForm(s, SinkCur(r, g'), g'.stamped, SinkLeft(r, g'))
    requires SoundQueue(s.msg, ab) && Tokens(ab) == Tokens(x.ab)[k..]
    requires SinkRest(s, SinkCur(r, g'), g'.stamped, SinkHere(r, g'), SinkTail(r, g')) == SinkTodo(r, x, g)[k..]
    ensures Inv(r, x.(snk := s, ab := ab), g')
  {
    hide Coherent, Tokens, SourceScript, SinkScript, Stands, Owed, SinkWalks, SourceForm, SinkForm, SoundQueue,
         AllItems, SourceRest, SinkRest;
    InvConfig(r, x, g);
    var c := ConfigOf(AllItems(r), x, g);
    ReceiveManyKeeps(c, k);
    assert ConfigOf(AllItems(r), x.(snk := s, ab := ab), g') == c.(b := c.b[k..], ab := c.ab[k..]);
  }

  /** What is at the head of the channel is what the script names. */
  lemma HeadIsNamed(r: Request, x: Session, g: Place, k: nat)
    requires Inv(r, x, g)
    requires k <= |Tokens(x.ab)| && k <= |SinkTodo(r, x, g)|
    requires forall i :: 0 <= i < k ==> SinkTodo(r, x, g)[i].Rcv?
    ensures forall i :: 0 <= i < k ==> Tokens(x.ab)[i] == SinkTodo(r, x, g)[i].tok
  {
    hide Coherent, Tokens, SourceScript, SinkScript, Walking, SinkWalks, SourceForm, SinkForm, SoundQueue,
         AllItems, SourceRest, SinkRest;
    InvConfig(r, x, g);
    ReceiveManyKeeps(ConfigOf(AllItems(r), x, g), k);
  }

  lemma Advance(r: Request, x: Session, g: Place, s: Snk.Sink, stamped: bool)
    requires g.i < |AllItems(r)| && StackAt(r, g.i).Some?
    requires PutItem(StackAt(r, g.i).value, SinkCur(r, g)).Some? ==>
               Built(s, ItemAt(AllItems(r), g.i + 1), PutItem(StackAt(r, g.i).value, SinkCur(r, g)).value)
    ensures SinkWalks(r, s, g.(i := g.i + 1, stamped := stamped))
  {
    hide PutItems, AllItems, Built, PutItem;
    NextStack(r, g.i);
  }

  // -------------------------------------------------------- control lines

  /** The script of the items left begins with the line that is awaited. */
  lemma LineNext(r: Request, x: Session, g: Place)
    requires Inv(r, x, g) && x.snk.state.ReceiveMessage? && SinkLeft(r, g)
    ensures SinkTodo(r, x, g) != [] && SinkTodo(r, x, g)[0] == Rcv(Line(Awaited(SinkCur(r, g), g.stamped)))
  {
    hide Inv, AllItems, SinkScript, Built;
    InvSink(r, x, g);
    if !g.stamped {
      ScriptStep(AllItems(r), g.i);
    }
  }

  /** So that line is what has arrived. */
  lemma LineArrived(r: Request, x: Session, g: Place)
    requires Inv(r, x, g) && x.snk.state.ReceiveMessage? && x.ab != []
    ensures SinkLeft(r, g)
    ensures x.ab[0].kind == LineMsg(Awaited(SinkCur(r, g), g.stamped))
    ensures x.ab[0].bytes != [] && x.snk.msg + x.ab[0].bytes == Wire(Awaited(SinkCur(r, g), g.stamped))
    ensures CarriableControl(Awaited(SinkCur(r, g), g.stamped))
    ensures Tokens(x.ab) == [Line(Awaited(SinkCur(r, g), g.stamped))] + Tokens(x.ab[1..])
  {
    hide Inv, AllItems, SinkScript, Built, Wire, CarriableControl, Awaited, SinkRest, SourceRest, SinkCur;
    InvSink(r, x, g);
    HeadTokens(x.snk.msg, x.ab);
    InvConfig(r, x, g);
    UnderWayIsAwaited(ConfigOf(AllItems(r), x, g));
    if !SinkLeft(r, g) {
      NoneLeft(r, x, g);
    }
    LineNext(r, x, g);
    HeadIsNamed(r, x, g, 1);
    if x.ab[0].kind.LineMsg? {
      WireNonempty(x.ab[0].kind.c);
    }
  }

  lemma NoneLeft(r: Request, x: Session, g: Place)
    requires Inv(r, x, g) && x.snk.state.ReceiveMessage? && !SinkLeft(r, g)
    ensures SinkTodo(r, x, g) == []
  {
    hide Inv, AllItems;
    InvSink(r, x, g);
    assert SinkScript([]) == [];
  }

  lemma HeadTokens(msg: seq<byte>, q: seq<Packet>)
    requires SoundQueue(msg, q) && q != []
    ensures Tokens(q) != []
    ensures q[0].kind.LineMsg? ==> Tokens(q)[0] == Line(q[0].kind.c)
    ensures q[0].kind.DataMsg? ==> Tokens(q)[0].Octet?
    ensures q[0].kind.GoodMsg? ==> Tokens(q)[0] == Good
    ensures !q[0].kind.DataMsg? ==> Tokens(q) == [Tokens(q)[0]] + Tokens(q[1..])
  {
    hide Wire, CarriableControl;
  }

  lemma PartOfLine(msg: seq<byte>, head: seq<byte>, line: seq<byte>, k: nat)
    requires msg + head == line && k < |head|
    ensures msg + head[..k] == line[..|msg| + k]
    ensures msg + head[..k] + head[k..] == line
  {
  }

  /** The pass that reads part of a line. */
  lemma GrowIs(x: Session, n: nat, c: Control)
    requires x.snk.state.ReceiveMessage? && x.ab != [] && CarriableControl(c)
    requires x.ab[0].bytes != [] && x.snk.msg + x.ab[0].bytes == Wire(c)
    requires Portion(n, Snk.Ask(x.snk), x.ab) < |x.ab[0].bytes|
    ensures var k := Portion(n, Snk.Ask(x.snk), x.ab);
            k > 0 && SinkStep(x, n) == x.(snk := x.snk.(msg := x.snk.msg + x.ab[0].bytes[..k]), ab := Drop(x.ab, k),
                                          failed := x.failed || x.snk.aborting)
  {
    hide Wire, CarriableControl, Snk.Step, Snk.Fits, Drop;
    var k := Portion(n, Snk.Ask(x.snk), x.ab);
    WireIsShort(c);
    PartOfLine(x.snk.msg, x.ab[0].bytes, Wire(c), k);
    LineGrows(x.snk, c, x.ab[0].bytes[..k]);
  }

  /** A line is read in part. */
  lemma LineInPart(r: Request, x: Session, g: Place, n: nat)
    requires Inv(r, x, g) && x.snk.state.ReceiveMessage? && x.ab != []
    requires Portion(n, Snk.Ask(x.snk), x.ab) < |x.ab[0].bytes|
    ensures Inv(r, SinkStep(x, n), g)
    ensures SinkFuel(r, SinkStep(x, n), g) < SinkFuel(r, x, g)
  {
    hide Inv, AllItems, Built, Wire, CarriableControl, SourceRest, Snk.Step, Awaited, Tokens, SinkCur, SinkStep,
      SinkHere, SinkTail, SinkWalks, StackAt;
    InvSink(r, x, g);
    LineArrived(r, x, g);
    var c, head := Awaited(SinkCur(r, g), g.stamped), x.ab[0].bytes;
    var k := Portion(n, Snk.Ask(x.snk), x.ab);
    GrowIs(x, n, c);
    WireIsShort(c);
    PartOfLine(x.snk.msg, head, Wire(c), k);
    var s := x.snk.(msg := x.snk.msg + head[..k]);
    TokensOfTail(x.ab, k);
    WalksOn(r, x, g, s);
    QuietSink(r, x, g, s, Drop(x.ab, k), g);
  }

  lemma WireIsShort(c: Control)
    requires CarriableControl(c)
    ensures |Wire(c)| < MSG_SZ
  {
    hide Wire, CarriableControl;
    WireRoundTrip(c);
  }

  lemma TokensOfTail(q: seq<Packet>, k: nat)
    requires q != [] && q[0].kind.LineMsg? && k < |q[0].bytes|
    ensures Tokens(Drop(q, k)) == Tokens(q)
  {
    assert Drop(q, k)[1..] == q[1..];
  }

  /** What was built does not depend on the line being read. */
  lemma WalksOn(r: Request, x: Session, g: Place, s: Snk.Sink)
    requires Inv(r, x, g) && s == x.snk.(msg := s.msg)
    ensures SinkWalks(r, s, g)
  {
    hide Walking, SourceForm, Coherent, AllItems, PutItems, Replay, SinkForm;
  }

  /** The pass that completes a line. */
  lemma ObeyIs(x: Session, n: nat, c: Control)
    requires x.snk.state.ReceiveMessage? && x.ab != [] && CarriableControl(c)
    requires x.ab[0].bytes != [] && x.snk.msg + x.ab[0].bytes == Wire(c)
    requires Portion(n, Snk.Ask(x.snk), x.ab) == |x.ab[0].bytes|
    ensures var t := Snk.Obey(x.snk.(msg := []), MessageOf(c), true);
            SinkStep(x, n) == x.(snk := t, ab := x.ab[1..], failed := x.failed || t.aborting)
  {
    hide Wire, CarriableControl, Snk.Step, Snk.Fits, Snk.Obey;
    assert x.ab[0].bytes[..|x.ab[0].bytes|] == x.ab[0].bytes;
    LineEnds(x.snk, c, x.ab[0].bytes);
  }

  /** What reading a whole line comes to: the machine t and the place g' behind
      it, with one act of the script done. */
  predicate Obeyed(r: Request, x: Session, g: Place, t: Snk.Sink, g': Place) {
    && g' == g.(i := g'.i, stamped := g'.stamped)
    && SinkWalks(r, t, g') && SinkForm(t, SinkCur(r, g'), g'.stamped, SinkLeft(r, g')) && t.msg == []
    && SinkTodo(r, x, g) == [Rcv(Line(Awaited(SinkCur(r, g), g.stamped)))]
                            + SinkRest(t, SinkCur(r, g'), g'.stamped, SinkHere(r, g'), SinkTail(r, g'))
  }

  /** Nothing about the sink but the line in hand changes when it is cleared. */
  lemma Cleared(r: Request, x: Session, g: Place)
    requires Inv(r, x, g) && x.snk.state.ReceiveMessage?
    ensures var s := x.snk.(msg := []);
            && SinkForm(s, SinkCur(r, g), g.stamped, SinkLeft(r, g))
            && g.i <= |AllItems(r)| && StackAt(r, g.i).Some? && Built(s, SinkCur(r, g), StackAt(r, g.i).value)
            && SinkTodo(r, x, g) == SinkRest(s, SinkCur(r, g), g.stamped, SinkHere(r, g), SinkTail(r, g))
  {
    hide Inv, AllItems, PutItems, Replay, SinkScript;
    InvSink(r, x, g);
  }

  lemma HereUnfolds(r: Request, g: Place)
    requires SinkLeft(r, g)
    ensures SinkHere(r, g) == SinkActs(SinkCur(r, g)) + SinkTail(r, g)
  {
    hide AllItems, SinkActs;
    ScriptStep(AllItems(r), g.i);
  }

  lemma ObeyBoundary(r: Request, x: Session, g: Place) returns (g': Place)
    requires Inv(r, x, g) && x.snk.state.ReceiveMessage? && SinkLeft(r, g) && !SinkCur(r, g).FileItem?
    ensures Obeyed(r, x, g, Snk.Obey(x.snk.(msg := []), MessageOf(Awaited(SinkCur(r, g), g.stamped)), true), g')
  {
    hide Inv, AllItems, Built, SinkActs, SinkScript, PutItem, Snk.Obey, StackAt, SinkTodo, SinkWalks;
    Cleared(r, x, g);
    HereUnfolds(r, g);
    var s, cur := x.snk.(msg := []), SinkCur(r, g);
    assert !g.stamped by { InvSink(r, x, g); }
    NextStack(r, g.i);
    g' := g.(i := g.i + 1);
    ObeysBoundary(s, cur, SinkHere(r, g), SinkTail(r, g), StackAt(r, g.i).value, SinkCur(r, g'), SinkLeft(r, g'));
    Advance(r, x, g, Snk.Obey(s, MessageOf(Awaited(cur, false)), true), false);
  }

  lemma ObeyStamp(r: Request, x: Session, g: Place) returns (g': Place)
    requires Inv(r, x, g) && x.snk.state.ReceiveMessage? && SinkLeft(r, g)
    requires SinkCur(r, g).FileItem? && SinkCur(r, g).times.Times? && !g.stamped
    ensures Obeyed(r, x, g, Snk.Obey(x.snk.(msg := []), MessageOf(Awaited(SinkCur(r, g), g.stamped)), true), g')
  {
    hide Inv, AllItems, Built, SinkActs, SinkScript, PutItem, Snk.Obey, SinkTodo, SinkForm, SinkRest, PutItems, Awaited;
    Cleared(r, x, g);
    HereUnfolds(r, g);
    g' := g.(stamped := true);
    ObeysStamp(x.snk.(msg := []), SinkCur(r, g), SinkHere(r, g), SinkTail(r, g), StackAt(r, g.i).value);
  }

  lemma ObeyHeader(r: Request, x: Session, g: Place) returns (g': Place)
    requires Inv(r, x, g) && x.snk.state.ReceiveMessage? && SinkLeft(r, g)
    requires SinkCur(r, g).FileItem? && (SinkCur(r, g).times.NoTimes? || g.stamped)
    ensures Obeyed(r, x, g, Snk.Obey(x.snk.(msg := []), MessageOf(Awaited(SinkCur(r, g), g.stamped)), true), g')
  {
    hide Inv, AllItems, Built, SinkActs, SinkScript, PutItem, Snk.Obey, SinkTodo, SinkForm, SinkRest, PutItems, Awaited;
    Cleared(r, x, g);
    HereUnfolds(r, g);
    NextStack(r, g.i);
    g' := g.(stamped := false);
    ObeysHeader(x.snk.(msg := []), SinkCur(r, g), g.stamped, SinkHere(r, g), SinkTail(r, g), StackAt(r, g.i).value);
  }

  /** A line is read to its end. */
  lemma LineWhole(r: Request, x: Session, g: Place, n: nat) returns (g': Place)
    requires Inv(r, x, g) && x.snk.state.ReceiveMessage? && x.ab != []
    requires Portion(n, Snk.Ask(x.snk), x.ab) == |x.ab[0].bytes|
    ensures Inv(r, SinkStep(x, n), g')
    ensures SinkFuel(r, SinkStep(x, n), g') < SinkFuel(r, x, g)
    ensures g' == g.(i := g'.i, stamped := g'.stamped)
  {
    hide Inv, AllItems, Built, Wire, CarriableControl, SourceRest, SinkRest, Snk.Step, Snk.Obey, Awaited, Tokens,
         SinkCur, SinkStep,
      SinkHere, SinkTail, SinkWalks, StackAt, SinkLeft;
    LineArrived(r, x, g);
    var c := Awaited(SinkCur(r, g), g.stamped);
    if !SinkCur(r, g).FileItem? {
      g' := ObeyBoundary(r, x, g);
    } else if SinkCur(r, g).times.Times? && !g.stamped {
      g' := ObeyStamp(r, x, g);
    } else {
      g' := ObeyHeader(r, x, g);
    }
    var t := Snk.Obey(x.snk.(msg := []), MessageOf(c), true);
    ObeyIs(x, n, c);
    assert !x.failed by { InvSink(r, x, g); }
    TailSound(r, x, g);
    TakingSink(r, x, g, 1, t, x.ab[1..], g');
  }

  lemma TailSound(r: Request, x: Session, g: Place)
    requires Inv(r, x, g) && x.ab != []
    ensures SoundQueue([], x.ab[1..])
  {
    hide Walking, SinkWalks, SourceForm, SinkForm, Coherent, Wire, CarriableControl;
  }

  // ------------------------------------------------------------ file data

  /** The file that is open has its data named next in the script. */
  lemma DataNext(r: Request, x: Session, g: Place, k: nat)
    requires Inv(r, x, g) && x.snk.state.ReceiveFile? && k <= x.snk.size - x.snk.offset
    ensures !g.stamped && SinkLeft(r, g) && SinkCur(r, g).FileItem? && x.snk.size == |SinkCur(r, g).content|
    ensures k <= |SinkTodo(r, x, g)| && x.snk.offset + k <= |SinkCur(r, g).content|
    ensures forall i :: 0 <= i < k ==> SinkTodo(r, x, g)[i] == Rcv(Octet(SinkCur(r, g).content[x.snk.offset + i]))
  {
    hide Inv, AllItems, Built, SinkScript;
    InvSink(r, x, g);
  }

  lemma DataTokens(q: seq<Packet>, k: nat)
    requires q != [] && q[0].kind.DataMsg? && Sound(q[0]) && 0 < k <= |q[0].bytes|
    ensures k <= |Tokens(q)|
    ensures forall i :: 0 <= i < k ==> Tokens(q)[i] == Octet(q[0].bytes[i])
    ensures Tokens(Drop(q, k)) == Tokens(q)[k..]
    ensures SoundQueue([], q) ==> SoundQueue([], Drop(q, k))
  {
    var rest := Tokens(q[1..]);
    assert Tokens(q) == Octets(q[0].bytes) + rest;
    if k < |q[0].bytes| {
      assert Drop(q, k)[1..] == q[1..];
      assert Octets(q[0].bytes)[k..] == Octets(q[0].bytes[k..]);
    }
  }

  /** The octets read are the file's at the running offset. */
  lemma DataArrived(r: Request, x: Session, g: Place, n: nat)
    requires Inv(r, x, g) && x.snk.state.ReceiveFile? && x.ab != [] && Snk.Ask(x.snk) > 0
    ensures x.ab[0].kind.DataMsg? && Sound(x.ab[0])
    ensures var k := Portion(n, Snk.Ask(x.snk), x.ab);
            && 0 < k <= x.snk.size - x.snk.offset && x.snk.offset + k <= |ItemContent(SinkCur(r, g))|
            && x.ab[0].bytes[..k] == ItemContent(SinkCur(r, g))[x.snk.offset..x.snk.offset + k]
  {
    hide Inv, AllItems, Built, SinkRest, SourceRest, SinkTodo, SinkScript, Tokens, Wire, CarriableControl;
    InvSink(r, x, g);
    HeadTokens(x.snk.msg, x.ab);
    DataNext(r, x, g, 1);
    HeadIsNamed(r, x, g, 1);
    var k := Portion(n, Snk.Ask(x.snk), x.ab);
    DataTokens(x.ab, k);
    DataNext(r, x, g, k);
    HeadIsNamed(r, x, g, k);
    var a, b := x.ab[0].bytes[..k], SinkCur(r, g).content[x.snk.offset..x.snk.offset + k];
    forall i | 0 <= i < k ensures a[i] == b[i] {
      assert Tokens(x.ab)[i] == SinkTodo(r, x, g)[i].tok;
    }
  }

  function ItemContent(i: Item): seq<byte> {
    if i.FileItem? then i.content else []
  }

  /** The pass that takes a part of a file. */
  lemma PartIs(x: Session, n: nat)
    requires x.snk.state.ReceiveFile?
    requires Snk.Ask(x.snk) > 0 ==> x.ab != [] && x.ab[0].bytes != []
    ensures var data := if Snk.Ask(x.snk) == 0 then [] else x.ab[0].bytes[..Portion(n, Snk.Ask(x.snk), x.ab)];
            var t := Snk.TakePart(x.snk, data, true, true);
            SinkStep(x, n) == x.(snk := t, ab := if Snk.Ask(x.snk) == 0 then x.ab else Drop(x.ab, |data|),
                                 failed := x.failed || t.aborting)
  {
    hide Snk.TakePart;
  }

  /** What taking a part comes to. */
  predicate Took(r: Request, x: Session, g: Place, data: seq<byte>, g': Place) {
    var t := Snk.TakePart(x.snk, data, true, true);
    && g' == g.(i := g'.i, stamped := g'.stamped)
    && SinkWalks(r, t, g') && SinkForm(t, SinkCur(r, g'), g'.stamped, SinkLeft(r, g')) && t.msg == x.snk.msg
    && SinkTodo(r, x, g) == Takes(Octets(data))
                            + SinkRest(t, SinkCur(r, g'), g'.stamped, SinkHere(r, g'), SinkTail(r, g'))
    && (data == [] ==> t.state.SendConfirmation?)
  }

  lemma TakePartOf(r: Request, x: Session, g: Place, data: seq<byte>) returns (g': Place)
    requires Inv(r, x, g) && x.snk.state.ReceiveFile?
    requires x.snk.offset + |data| <= |ItemContent(SinkCur(r, g))|
    requires data == ItemContent(SinkCur(r, g))[x.snk.offset..x.snk.offset + |data|]
    requires data == [] ==> x.snk.offset == x.snk.size
    ensures Took(r, x, g, data, g')
  {
    hide Inv, AllItems, Built, SinkRest, SourceRest, SinkScript, Snk.TakePart, PutItem, StackAt, SinkWalks;
    InvSink(r, x, g);
    DataNext(r, x, g, 0);
    var s, cur, stack := x.snk, SinkCur(r, g), StackAt(r, g.i).value;
    if s.offset + |data| < |cur.content| {
      g' := g;
      TakesPart(s, cur, SinkHere(r, g), SinkTail(r, g), stack, data);
      assert SinkWalks(r, Snk.TakePart(s, data, true, true), g) by { Stays(r, x, g, Snk.TakePart(s, data, true, true)); }
    } else {
      g' := g.(i := g.i + 1);
      NextStack(r, g.i);
      TakesLastPart(s, cur, SinkHere(r, g), SinkTail(r, g), stack, data, SinkCur(r, g'), SinkLeft(r, g'));
      Advance(r, x, g, Snk.TakePart(s, data, true, true), false);
      FileClosed(Snk.TakePart(s, data, true, true), SinkCur(r, g'), SinkHere(r, g'), SinkTail(r, g'));
    }
  }

  lemma FileClosed(t: Snk.Sink, cur: Item, here: Acts, tail: Acts)
    requires t.state.SendConfirmation? && t.next.ReceiveConfirmation?
    ensures SinkRest(t, cur, false, here, tail) == [Snd(Good)] + ([Rcv(Good)] + here)
  {
  }

  lemma Stays(r: Request, x: Session, g: Place, t: Snk.Sink)
    requires g.i <= |AllItems(r)| && StackAt(r, g.i).Some? && Built(t, SinkCur(r, g), StackAt(r, g.i).value)
    ensures SinkWalks(r, t, g)
  {
    hide AllItems, PutItems, Built;
  }

  lemma TakeData(r: Request, x: Session, g: Place, n: nat) returns (g': Place)
    requires Inv(r, x, g) && x.snk.state.ReceiveFile? && (Snk.Ask(x.snk) == 0 || x.ab != [])
    ensures Inv(r, SinkStep(x, n), g')
    ensures SinkFuel(r, SinkStep(x, n), g') < SinkFuel(r, x, g)
    ensures g' == g.(i := g'.i, stamped := g'.stamped)
  {
    hide Inv, AllItems, Built, SinkRest, SourceRest, SinkScript, Snk.TakePart, StackAt, SinkStep, Tokens,
         SinkTodo, Wire,
      CarriableControl, SinkWalks, SinkCur, SinkHere, SinkTail, SinkLeft;
    InvSink(r, x, g);
    DataNext(r, x, g, 0);
    assert x.snk.msg == [];
    if Snk.Ask(x.snk) == 0 {
      g' := TakePartOf(r, x, g, []);
      PartIs(x, n);
      var t := Snk.TakePart(x.snk, [], true, true);
      assert Takes(Octets([])) + SinkRest(t, SinkCur(r, g'), g'.stamped, SinkHere(r, g'), SinkTail(r, g'))
          == SinkRest(t, SinkCur(r, g'), g'.stamped, SinkHere(r, g'), SinkTail(r, g'));
      QuietSink(r, x, g, t, x.ab, g');
      TodoOf(r, x.(snk := t), g');
    } else {
      DataArrived(r, x, g, n);
      var k := Portion(n, Snk.Ask(x.snk), x.ab);
      var data := x.ab[0].bytes[..k];
      g' := TakePartOf(r, x, g, data);
      PartIs(x, n);
      DataTokens(x.ab, k);
      var t := Snk.TakePart(x.snk, data, true, true);
      TakingSink(r, x, g, k, t, Drop(x.ab, k), g');
      TodoOf(r, x.(snk := t, ab := Drop(x.ab, k)), g');
    }
  }

  lemma TodoOf(r: Request, x: Session, g: Place)
    ensures SinkTodo(r, x, g) == SinkRest(x.snk, SinkCur(r, g), g.stamped, SinkHere(r, g), SinkTail(r, g))
  {
  }

  // -------------------------------------------------------- confirmations

  lemma BuiltStays(r: Request, x: Session, g: Place, s: Snk.Sink, stack: seq<Frame>)
    requires g.i <= |AllItems(r)| && StackAt(r, g.i) == Some(stack) && Built(s, SinkCur(r, g), stack)
    ensures SinkWalks(r, s, g)
  {
    hide AllItems, PutItems, Built;
  }

  lemma BeginSink(r: Request, x: Session, g: Place, n: nat)
    requires Inv(r, x, g) && x.snk.state.Begin?
    ensures Inv(r, SinkStep(x, n), g)
    ensures SinkFuel(r, SinkStep(x, n), g) < SinkFuel(r, x, g)
  {
    hide Inv, AllItems, SinkRest, SourceRest, SinkScript, PutItems, Tokens, Wire, CarriableControl, SinkHere, SinkTail;
    InvSink(r, x, g);
    var o := Snk.Step(x.snk, Snk.Call(true));
    Begins(x.snk, SinkCur(r, g), SinkHere(r, g), SinkTail(r, g), SinkLeft(r, g));
    QuietSink(r, x, g, o.s, x.ab, g);
  }

  lemma ConfirmSink(r: Request, x: Session, g: Place, n: nat)
    requires Inv(r, x, g) && x.snk.state.SendConfirmation?
    ensures Inv(r, SinkStep(x, n), g)
    ensures SinkFuel(r, SinkStep(x, n), g) < SinkFuel(r, x, g)
  {
    hide Inv, AllItems, SinkRest, SourceRest, SinkScript, PutItems, Tokens, Wire, CarriableControl, SinkHere,
         SinkTail, Built;
    InvSink(r, x, g);
    var o := Snk.Step(x.snk, Snk.Took(1));
    Confirms(x.snk, SinkCur(r, g), g.stamped, SinkHere(r, g), SinkTail(r, g), StackAt(r, g.i).value, SinkLeft(r, g));
    BuiltStays(r, x, g, o.s, StackAt(r, g.i).value);
    ConfirmingSink(r, x, g, o.s);
  }

  /** The confirmation that closes a file is what is at the head. */
  lemma GoodArrived(r: Request, x: Session, g: Place)
    requires Inv(r, x, g) && x.snk.state.ReceiveConfirmation? && x.ab != []
    ensures !g.stamped && x.ab[0].bytes == [0] && Tokens(x.ab) == [Good] + Tokens(x.ab[1..]) && x.snk.msg == []
    ensures SinkTodo(r, x, g) == [Rcv(Good)] + SinkHere(r, g)
  {
    hide Inv, AllItems, SourceRest, SinkScript, Tokens, Wire, CarriableControl, Built, PutItems, SinkHere, SinkTail;
    InvSink(r, x, g);
    HeadTokens(x.snk.msg, x.ab);
    HeadIsNamed(r, x, g, 1);
  }

  lemma HearSink(r: Request, x: Session, g: Place, n: nat)
    requires Inv(r, x, g) && x.snk.state.ReceiveConfirmation? && x.ab != []
    ensures Inv(r, SinkStep(x, n), g)
    ensures SinkFuel(r, SinkStep(x, n), g) < SinkFuel(r, x, g)
  {
    hide Inv, AllItems, SinkRest, SourceRest, SinkScript, PutItems, Tokens, Wire, CarriableControl, SinkHere,
         SinkTail, Built, SinkTodo;
    InvSink(r, x, g);
    GoodArrived(r, x, g);
    assert Portion(n, MSG_SZ, x.ab) == 1 && x.ab[0].bytes[..1] == [0];
    var o := Snk.Step(x.snk, Snk.Got([0], true, true));
    SinkHearsGood(x.snk, SinkCur(r, g), SinkHere(r, g), SinkTail(r, g), StackAt(r, g.i).value, SinkLeft(r, g));
    BuiltStays(r, x, g, o.s, StackAt(r, g.i).value);
    TodoOf(r, x, g);
    TailSound(r, x, g);
    TakingSink(r, x, g, 1, o.s, x.ab[1..], g);
    TodoOf(r, x.(snk := o.s, ab := x.ab[1..]), g);
  }

  /** The channel's end is only seen once every item is done with. */
  lemma EndIsEnd(r: Request, x: Session, g: Place)
    requires Inv(r, x, g) && x.snk.state.ReceiveMessage? && x.src.state.Done? && x.ab == []
    ensures !SinkLeft(r, g) && SinkTodo(r, x, g) == [] && x.ba == [] && x.snk.msg == [] && !g.stamped
  {
    hide Inv, AllItems, SinkScript, PutItems, Tokens, Wire, CarriableControl, Built, SinkRest;
    InvSink(r, x, g);
    InvConfig(r, x, g);
    assert Tokens([]) == [] by { NoTokens(); }
    DoneTogether(ConfigOf(AllItems(r), x, g));
    if SinkLeft(r, g) {
      LineNext(r, x, g);
    }
    if x.ba != [] {
      InvConfirmation(r, x, g);
    }
  }

  lemma NoTokens()
    ensures Tokens([]) == []
  {
  }

  lemma EndSink(r: Request, x: Session, g: Place, n: nat)
    requires Inv(r, x, g) && x.snk.state.ReceiveMessage? && x.src.state.Done? && x.ab == []
    ensures Inv(r, SinkStep(x, n), g)
    ensures SinkFuel(r, SinkStep(x, n), g) < SinkFuel(r, x, g)
  {
    hide Inv, AllItems, SourceRest, SinkScript, PutItems, Tokens, Wire, CarriableControl, SinkHere, SinkTail, SinkTodo;
    InvSink(r, x, g);
    EndIsEnd(r, x, g);
    var s := x.snk.(state := Snk.Done);
    BuiltStays(r, x, g, s, StackAt(r, g.i).value);
    QuietSink(r, x, g, s, x.ab, g);
    TodoOf(r, x.(snk := s), g);
  }

  /** Every sink pass keeps the invariant, and one that is not blocked brings the
      end nearer. */
  lemma SinkMove(r: Request, x: Session, g: Place, n: nat) returns (g': Place)
    requires Inv(r, x, g)
    ensures Inv(r, SinkStep(x, n), g')
    ensures !SinkBlocked(x) ==> SinkFuel(r, SinkStep(x, n), g') < SinkFuel(r, x, g)
    ensures g' == g.(i := g'.i, stamped := g'.stamped)
    ensures SinkStep(x, n).src == x.src
  {
    hide Inv, AllItems, SinkFuel, Wire, Snk.Obey, Snk.TakePart, SinkStep, Built, StackAt;
    g' := g;
    if SinkBlocked(x) {
      InvSink(r, x, g);
      BlockedSink(x, n);
    } else {
      match x.snk.state
      case Begin => BeginSink(r, x, g, n);
      case SendConfirmation => ConfirmSink(r, x, g, n);
      case ReceiveConfirmation => HearSink(r, x, g, n);
      case ReceiveFile => g' := TakeData(r, x, g, n);
      case ReceiveMessage =>
        if x.ab == [] {
          EndSink(r, x, g, n);
        } else if Portion(n, Snk.Ask(x.snk), x.ab) < |x.ab[0].bytes| {
          LineInPart(r, x, g, n);
        } else {
          g' := LineWhole(r, x, g, n);
        }
    }
    SinkLeavesSource(x, n);
  }

  lemma BlockedSink(x: Session, n: nat)
    requires SinkBlocked(x) && x.snk.msg == [] && !x.snk.aborting
    ensures SinkStep(x, n) == x
  {
  }

  lemma SinkLeavesSource(x: Session, n: nat)
    ensures SinkStep(x, n).src == x.src && SinkStep(x, n).ctx == x.ctx
  {
    hide Snk.Step;
  }
}
