/**
 * Every pass of the source side keeps the session's invariant, and brings the
 * end of the transfer nearer unless it is blocked.
 */
module ScpSourceMoves {
  import opened Bytes
  import opened ScpText
  import opened Dialogue
  import opened ScpTree
  import opened ScpWalk
  import opened ScpSession
  import opened ScpSourceSide
  import opened ScpSinkSide
  import Src = ScpSource
  import Snk = ScpSink

  // -------------------------------------------------------------- queues

  lemma {:induction false} TokensAppend(q: seq<Packet>, pk: Packet)
    ensures Tokens(q + [pk]) == Tokens(q) + TokensOf(pk)
  {
    if q == [] {
      assert q + [pk] == [pk] && [pk][1..] == [];
    } else {
      assert (q + [pk])[1..] == q[1..] + [pk];
      TokensAppend(q[1..], pk);
    }
  }

  lemma SoundAppend(msg: seq<byte>, q: seq<Packet>, pk: Packet)
    requires SoundQueue(msg, q) && Sound(pk)
    ensures SoundQueue(msg, q + [pk])
  {
  }

  function SourceTail(r: Request, g: Place): Acts {
    SourceScript(Behind(AllItems(r), g.j))
  }

  function SourceCur(r: Request, g: Place): Item {
    ItemAt(AllItems(r), g.j - 1)
  }

  function SinkHere(r: Request, g: Place): Acts {
    SinkScript(Behind(AllItems(r), g.i))
  }

  function SinkTail(r: Request, g: Place): Acts {
    SinkScript(Behind(AllItems(r), g.i + 1))
  }

  function SinkCur(r: Request, g: Place): Item {
    ItemAt(AllItems(r), g.i)
  }

  function SourceTodo(r: Request, x: Session, g: Place): Acts {
    SourceRest(x.src, SourceCur(r, g), SourceTail(r, g))
  }

  function SinkTodo(r: Request, x: Session, g: Place): Acts {
    SinkRest(x.snk, SinkCur(r, g), g.stamped, SinkHere(r, g), SinkTail(r, g))
  }

  lemma ScriptStep(all: seq<Item>, k: nat)
    requires k < |all|
    ensures SourceScript(Behind(all, k)) == SourceActs(all[k]) + SourceScript(Behind(all, k + 1))
    ensures SinkScript(Behind(all, k)) == SinkActs(all[k]) + SinkScript(Behind(all, k + 1))
  {
    assert all[k..][1..] == all[k + 1..];
  }

  // ------------------------------------------------------------- progress

  /** Passes that do no act of the script still come to an end: Begin and Init
      are left once, and fetching alternates with sending. */
  function SourceRank(s: Src.Source): nat {
    match s.state
    case Begin => 3
    case Init => 2
    case Transfer => 2
    case SendFile => if s.buffer == [] then 3 else 0
    case _ => 0
  }

  function SinkRank(s: Snk.Sink): nat {
    match s.state
    case Begin => 1
    case ReceiveMessage => 1
    case ReceiveFile => 1
    case _ => 0
  }

  function SourceFuel(r: Request, x: Session, g: Place): nat {
    4 * |SourceTodo(r, x, g)| + SourceRank(x.src)
  }

  function SinkFuel(r: Request, x: Session, g: Place): nat {
    2048 * |SinkTodo(r, x, g)| + SinkRank(x.snk) + if |x.snk.msg| < MSG_SZ then MSG_SZ - |x.snk.msg| else 0
  }

  // ----------------------------------------------- assembling source moves

  /** A source pass that moves nothing between the sides. */
  lemma QuietSource(r: Request, x: Session, g: Place, s: Src.Source, ctx: SendCtx, g': Place)
    requires Inv(r, x, g)
    requires g'.i == g.i && g'.stamped == g.stamped
    requires Walking(r, ctx, g') && SourceForm(r.preserve, s, SourceCur(r, g'), ctx.unread, StageOf(r, g'))
    requires SourceRest(s, SourceCur(r, g'), SourceTail(r, g')) == SourceTodo(r, x, g)
    ensures Inv(r, x.(src := s, ctx := ctx), g')
  {
    hide Matched, Stands, Owed, Holds, HoldsAll, Items, ItemsOf, PutItems, Replay, SourceScript, SinkScript,
         Built, Carriable, CarriableAll;
    assert ConfigOf(AllItems(r), x.(src := s, ctx := ctx), g') == ConfigOf(AllItems(r), x, g);
  }

  /** A source pass that sends one message. */
  lemma PostingSource(r: Request, x: Session, g: Place, s: Src.Source, pk: Packet)
    requires Inv(r, x, g) && Sound(pk)
    requires SourceForm(r.preserve, s, SourceCur(r, g), x.ctx.unread, StageOf(r, g))
    requires SourceTodo(r, x, g) == Sends(TokensOf(pk)) + SourceRest(s, SourceCur(r, g), SourceTail(r, g))
    ensures Inv(r, x.(src := s, ab := x.ab + [pk]), g)
  {
    hide Matched, Stands, Owed, Holds, HoldsAll, Items, ItemsOf, PutItems, Replay, SourceScript, SinkScript,
         Built, Carriable, CarriableAll;
    var c := ConfigOf(AllItems(r), x, g);
    var rest := SourceRest(s, SourceCur(r, g), SourceTail(r, g));
    SendKeeps(c, TokensOf(pk), rest);
    TokensAppend(x.ab, pk);
    SoundAppend(x.snk.msg, x.ab, pk);
    assert ConfigOf(AllItems(r), x.(src := s, ab := x.ab + [pk]), g) == c.(a := rest, ab := c.ab + TokensOf(pk));
  }

  // --------------------------------------------------------- source moves

  predicate SourceBlocked(x: Session) {
    x.src.state.Done? || (x.src.state.RecvConfirmation? && x.ba == [])
  }

  /** A pass through TRANSFER whose answer the machine goes on with. */
  lemma FetchIs(fs: FileSystem, root: Path, x: Session, n: nat)
    requires x.src.state.Transfer?
    requires var a := Callback(fs, root, x.ctx, x.src, n + 1).answer;
             && Src.Fits(x.src, Src.Call(a))
             && Src.Dispatch(x.src, a).ret.Going? && Src.Dispatch(x.src, a).sent == []
    ensures var w := Callback(fs, root, x.ctx, x.src, n + 1);
            SourceStep(fs, root, x, n) == x.(src := Src.Dispatch(x.src, w.answer).s, ctx := w.ctx)
  {
    hide WalkOn, ReadOn, Src.Dispatch;
  }

  /** What the form says of a machine about to fetch. */
  lemma AboutToFetch(preserve: bool, s: Src.Source, cur: Item, unread: Option<seq<byte>>, stage: Stage)
    requires SourceForm(preserve, s, cur, unread, stage) && s.state.Transfer?
    ensures !stage.Fetched?
    ensures if s.headerSent then
              && s.request.Continue? && unread.Some? && unread.value != [] && stage.Open?
              && s.offset + |unread.value| == s.size
            else s.request.Recursive? && unread.None?
  {
    if s.headerSent {
      assert [] + unread.value == cur.content[s.offset..];
    }
  }

  lemma InvSource(r: Request, x: Session, g: Place)
    requires Inv(r, x, g)
    ensures Walking(r, x.ctx, g)
    ensures SourceForm(r.preserve, x.src, SourceCur(r, g), x.ctx.unread, StageOf(r, g))
    ensures !x.failed
  {
  }

  /** A fetch that moves the walk on and changes no act still to be done. */
  lemma FetchKeeps(r: Request, x: Session, g: Place, n: nat, g': Place)
    requires Inv(r, x, g) && x.src.state.Transfer?
    requires g'.i == g.i && g'.stamped == g.stamped
    requires var w := Callback(r.fs, r.root, x.ctx, x.src, n + 1);
             && Src.Fits(x.src, Src.Call(w.answer))
             && var o := Src.Dispatch(x.src, w.answer);
                && o.ret.Going? && o.sent == [] && Settled(o.s)
                && Walking(r, w.ctx, g') && SourceForm(r.preserve, o.s, SourceCur(r, g'), w.ctx.unread, StageOf(r, g'))
                && SourceRest(o.s, SourceCur(r, g'), SourceTail(r, g')) == SourceTodo(r, x, g)
    ensures Inv(r, SourceStep(r.fs, r.root, x, n), g')
    ensures SourceFuel(r, SourceStep(r.fs, r.root, x, n), g') < SourceFuel(r, x, g)
  {
    hide Inv, Walking, SourceForm, SourceRest, SourceTail, SourceCur, StageOf, SourceStep, Callback, Src.Dispatch;
    var w := Callback(r.fs, r.root, x.ctx, x.src, n + 1);
    FetchIs(r.fs, r.root, x, n);
    QuietSource(r, x, g, Src.Dispatch(x.src, w.answer).s, w.ctx, g');
  }

  /** The acts of item j are the first of those still to be done when it is about
      to be fetched. */
  lemma TodoAtFetch(r: Request, x: Session, g: Place)
    requires x.src.state.Transfer? && !x.src.headerSent && g.j < |AllItems(r)|
    ensures SourceTodo(r, x, g) == SourceActs(AllItems(r)[g.j]) + SourceScript(Behind(AllItems(r), g.j + 1))
  {
    hide AllItems, SourceActs;
    ScriptStep(AllItems(r), g.j);
  }

  /** The first fetch opens the root. */
  lemma FetchRoot(r: Request, x: Session, g: Place, n: nat) returns (g': Place)
    requires ValidRequest(r) && Inv(r, x, g)
    requires x.src.state.Transfer? && !x.src.headerSent && g.j == 0
    ensures Inv(r, SourceStep(r.fs, r.root, x, n), g')
    ensures SourceFuel(r, SourceStep(r.fs, r.root, x, n), g') < SourceFuel(r, x, g)
    ensures g'.i == g.i && g'.stamped == g.stamped
  {
    hide Inv, SourceForm, SourceRest, SourceTodo, Stands, Owed, Holds, Carriable, SourceStep, SourceFuel, WalkOn,
         Src.Dispatch, SourceActs, Items, SourceScript;
    InvSource(r, x, g);
    AboutToFetch(r.preserve, x.src, SourceCur(r, g), x.ctx.unread, StageOf(r, g));
    WalkStarts(r.fs, r.root, r.tree, n + 1);
    var all := AllItems(r);
    g' := g.(j := 1, todo := [r.tree.children], p := r.root);
    assert all[0] == DirItem(r.tree.name, r.tree.mode) && all[1..] == Owed(g'.todo, r.preserve);
    TodoAtFetch(r, x, g);
    FetchesBoundary(r.preserve, x.src, SourceCur(r, g), StageOf(r, g), all[0], Open, SourceTail(r, g'));
    FetchKeeps(r, x, g, n, g');
  }

  /** The item owed next is item j of the list. */
  lemma OwedIsNext(r: Request, g: Place)
    requires 0 < g.j <= |AllItems(r)| && g.todo != [] && Owed(g.todo, r.preserve) == AllItems(r)[g.j..]
    ensures g.j < |AllItems(r)| && AllItems(r)[g.j] == NextItem(g.todo, r.preserve)
    ensures Owed(NextTodo(g.todo), r.preserve) == AllItems(r)[g.j + 1..]
  {
    hide AllItems, Owed;
    OwedUnfolds(g.todo, r.preserve);
    var rest := AllItems(r)[g.j..];
    assert rest[0] == AllItems(r)[g.j] && rest[1..] == AllItems(r)[g.j + 1..];
  }

  lemma FetchEnd(r: Request, x: Session, g: Place, n: nat) returns (g': Place)
    requires Inv(r, x, g) && x.src.state.Transfer? && !x.src.headerSent
    requires g.j > 0 && g.todo != [] && g.todo[0] == []
    ensures Inv(r, SourceStep(r.fs, r.root, x, n), g')
    ensures SourceFuel(r, SourceStep(r.fs, r.root, x, n), g') < SourceFuel(r, x, g)
    ensures g'.i == g.i && g'.stamped == g.stamped
  {
    hide Inv, SourceForm, SourceRest, SourceTodo, Stands, Owed, SourceStep, SourceFuel, WalkOn, Src.Dispatch,
         SourceActs, AllItems, SourceScript;
    InvSource(r, x, g);
    AboutToFetch(r.preserve, x.src, SourceCur(r, g), x.ctx.unread, StageOf(r, g));
    WalkPops(r.fs, r.root, x.ctx, g.todo, g.p, n + 1);
    OwedIsNext(r, g);
    TodoAtFetch(r, x, g);
    g' := g.(j := g.j + 1, todo := g.todo[1..], p := PopPath(g.p));
    FetchesBoundary(r.preserve, x.src, SourceCur(r, g), StageOf(r, g), EndItem, StageOf(r, g'), SourceTail(r, g'));
    FetchKeeps(r, x, g, n, g');
  }

  lemma FetchDir(r: Request, x: Session, g: Place, n: nat) returns (g': Place)
    requires Inv(r, x, g) && x.src.state.Transfer? && !x.src.headerSent
    requires g.j > 0 && g.todo != [] && g.todo[0] != [] && g.todo[0][0].Dir?
    ensures Inv(r, SourceStep(r.fs, r.root, x, n), g')
    ensures SourceFuel(r, SourceStep(r.fs, r.root, x, n), g') < SourceFuel(r, x, g)
    ensures g'.i == g.i && g'.stamped == g.stamped
  {
    hide Inv, SourceForm, SourceRest, SourceTodo, Stands, Owed, SourceStep, SourceFuel, WalkOn, Src.Dispatch,
         SourceActs, AllItems, SourceScript;
    InvSource(r, x, g);
    AboutToFetch(r.preserve, x.src, SourceCur(r, g), x.ctx.unread, StageOf(r, g));
    WalkEnters(r.fs, r.root, x.ctx, g.todo, g.p, n + 1);
    OwedIsNext(r, g);
    TodoAtFetch(r, x, g);
    var d := g.todo[0][0];
    g' := g.(j := g.j + 1, todo := NextTodo(g.todo), p := Child(g.p, d.name));
    FetchesBoundary(r.preserve, x.src, SourceCur(r, g), StageOf(r, g), DirItem(d.name, d.mode), Open, SourceTail(r, g'));
    FetchKeeps(r, x, g, n, g');
  }

  function Unread(content: seq<byte>, k: nat): Option<seq<byte>>
    requires k <= |content|
  {
    if k == |content| then None else Some(content[k..])
  }

  lemma UnreadIsRest(content: seq<byte>, k: nat)
    requires k <= |content|
    ensures content[..k] + Left(Unread(content, k)) == content
  {
  }

  lemma FetchFile(r: Request, x: Session, g: Place, n: nat) returns (g': Place)
    requires Inv(r, x, g) && x.src.state.Transfer? && !x.src.headerSent
    requires g.j > 0 && g.todo != [] && g.todo[0] != [] && g.todo[0][0].File?
    ensures Inv(r, SourceStep(r.fs, r.root, x, n), g')
    ensures SourceFuel(r, SourceStep(r.fs, r.root, x, n), g') < SourceFuel(r, x, g)
    ensures g'.i == g.i && g'.stamped == g.stamped
  {
    hide Inv, SourceForm, SourceRest, SourceTodo, Stands, Owed, SourceStep, SourceFuel, WalkOn, Src.Dispatch,
         SourceActs, AllItems, SourceScript;
    InvSource(r, x, g);
    AboutToFetch(r.preserve, x.src, SourceCur(r, g), x.ctx.unread, StageOf(r, g));
    WalkOpens(r.fs, r.root, x.ctx, g.todo, g.p, n + 1);
    OwedIsNext(r, g);
    TodoAtFetch(r, x, g);
    var f := g.todo[0][0];
    var k := Min(n + 1, Min(BUFFER_SZ, |f.content|));
    var unread := Unread(f.content, k);
    g' := g.(j := g.j + 1, todo := NextTodo(g.todo));
    UnreadIsRest(f.content, k);
    FetchesFile(r.preserve, x.src, SourceCur(r, g), StageOf(r, g), FileItemOf(f, r.preserve), f.mtime, f.atime,
                f.content[..k], unread, SourceTail(r, g'));
    FetchKeeps(r, x, g, n, g');
  }

  /** The read answers with part of what is left of the file in hand. */
  lemma ReadAnswers(ctx: SendCtx, offset: nat, size: nat, want: nat)
    requires ctx.unread.Some? && ctx.unread.value != [] && want > 0 && offset + |ctx.unread.value| == size
    ensures var w := ReadOn(ctx, offset, size, want);
            && w.answer.More? && 0 < |w.answer.data| <= BUFFER_SZ
            && w.answer.data + Left(w.ctx.unread) == ctx.unread.value
            && (w.ctx.unread.Some? ==> w.ctx.unread.value != [])
            && w.ctx == ctx.(unread := w.ctx.unread)
  {
  }

  lemma FetchMore(r: Request, x: Session, g: Place, n: nat)
    requires Inv(r, x, g) && x.src.state.Transfer? && x.src.headerSent
    ensures Inv(r, SourceStep(r.fs, r.root, x, n), g)
    ensures SourceFuel(r, SourceStep(r.fs, r.root, x, n), g) < SourceFuel(r, x, g)
  {
    hide Inv, SourceForm, SourceRest, Stands, Owed, SourceStep, SourceFuel, ReadOn, Src.Dispatch, AllItems,
         SourceScript;
    InvSource(r, x, g);
    AboutToFetch(r.preserve, x.src, SourceCur(r, g), x.ctx.unread, StageOf(r, g));
    var w := ReadOn(x.ctx, x.src.offset, x.src.size, n + 1);
    ReadAnswers(x.ctx, x.src.offset, x.src.size, n + 1);
    ReadsMore(r.preserve, x.src, SourceCur(r, g), x.ctx.unread, StageOf(r, g), w.answer.data, w.ctx.unread,
              SourceTail(r, g));
    StandsIgnoresFile(r.fs, r.root, x.ctx, g.todo, g.p, w.ctx.unread);
    FetchKeeps(r, x, g, n, g);
  }

  lemma FetchedAll(r: Request, x: Session, g: Place)
    requires Walking(r, x.ctx, g) && StageOf(r, g).Fetched?
    ensures SourceTail(r, g) == []
  {
    hide Stands;
    assert Owed([], r.preserve) == [];
  }

  /** A pass that sends a control line or a confirmation. */
  lemma LineIs(fs: FileSystem, root: Path, x: Session, n: nat)
    requires Src.SendsLine(x.src.state) && !x.src.aborting && Src.LineOf(x.src) != []
    ensures SourceStep(fs, root, x, n) ==
            x.(src := Src.AfterLine(x.src), ab := x.ab + [Packet(Src.LineOf(x.src), KindOf(x.src))])
  {
    hide Src.LineOf, Src.AfterLine, KindOf;
    var o := Src.SendLine(x.src, Src.Took(|Src.LineOf(x.src)|));
    assert o.ret.Going?;
  }

  lemma ItemCarriable(r: Request, k: int)
    requires ValidRequest(r)
    ensures CarriableItem(ItemAt(AllItems(r), k))
  {
    hide Items, Holds, Carriable, WireName;
    CarriableTreeItems(r.tree, r.preserve);
  }

  lemma SendControl(r: Request, x: Session, g: Place, n: nat)
    requires ValidRequest(r) && Inv(r, x, g)
    requires Src.SendsLine(x.src.state) && !Src.SendsConfirmation(x.src.state)
    ensures Inv(r, SourceStep(r.fs, r.root, x, n), g)
    ensures SourceFuel(r, SourceStep(r.fs, r.root, x, n), g) < SourceFuel(r, x, g)
  {
    hide Inv, Walking, SourceRest, SourceStep, SourceTail, SourceCur, ValidRequest, AllItems, Wire,
         CarriableControl, WholeLine,
      Src.LineOf, KindOf;
    var s, cur, tail := x.src, SourceCur(r, g), SourceTail(r, g);
    InvSource(r, x, g);
    ItemCarriable(r, g.j - 1);
    assert CarriableItem(cur) by { assert cur == ItemAt(AllItems(r), g.j - 1) by { CurIs(r, g); } }
    LineIsControl(s);
    ControlCarriable(r.preserve, s, cur, x.ctx.unread, StageOf(r, g));
    if StageOf(r, g).Fetched? {
      FetchedAll(r, x, g);
    }
    SendsControl(r.preserve, s, cur, x.ctx.unread, StageOf(r, g), tail);
    WireNonempty(ControlOf(s));
    var pk := Packet(Src.LineOf(s), LineMsg(ControlOf(s)));
    assert KindOf(s) == LineMsg(ControlOf(s)) by { KindIs(s); }
    assert Sends(TokensOf(pk)) == [Snd(Line(ControlOf(s)))];
    PostingSource(r, x, g, Src.AfterLine(s), pk);
    LineIs(r.fs, r.root, x, n);
  }

  lemma CurIs(r: Request, g: Place)
    ensures SourceCur(r, g) == ItemAt(AllItems(r), g.j - 1)
  {
  }

  lemma KindIs(s: Src.Source)
    requires Src.SendsLine(s.state) && !Src.SendsConfirmation(s.state)
    ensures KindOf(s) == LineMsg(ControlOf(s))
  {
  }

  lemma WireNonempty(c: Control)
    requires CarriableControl(c)
    ensures Wire(c) != []
  {
    hide Wire, CarriableControl;
    WireRoundTrip(c);
  }

  lemma SendGood(r: Request, x: Session, g: Place, n: nat)
    requires Inv(r, x, g) && x.src.state.ConfirmWithReceipt?
    ensures Inv(r, SourceStep(r.fs, r.root, x, n), g)
    ensures SourceFuel(r, SourceStep(r.fs, r.root, x, n), g) < SourceFuel(r, x, g)
  {
    hide Inv, Walking, SourceRest, SourceStep, SourceTail, SourceCur, AllItems;
    InvSource(r, x, g);
    SendsGood(r.preserve, x.src, SourceCur(r, g), x.ctx.unread, StageOf(r, g), SourceTail(r, g));
    var pk := Packet([0], GoodMsg);
    assert Sends(TokensOf(pk)) == [Snd(Good)];
    PostingSource(r, x, g, Src.AfterLine(x.src), pk);
    LineIs(r.fs, r.root, x, n);
  }

  /** A pass that has the channel take data, or finds none. */
  lemma DataIs(fs: FileSystem, root: Path, x: Session, n: nat)
    requires x.src.state.SendFile?
    requires var o := Src.SendData(x.src, if x.src.buffer == [] then Src.Tick else Src.Took(Min(n, |x.src.buffer|)));
             o.ret.Going?
    ensures var o := Src.SendData(x.src, if x.src.buffer == [] then Src.Tick else Src.Took(Min(n, |x.src.buffer|)));
            SourceStep(fs, root, x, n) == x.(src := o.s, ab := Post(x.ab, o.sent, DataMsg))
  {
    hide Src.SendData;
  }

  lemma SendData(r: Request, x: Session, g: Place, n: nat)
    requires Inv(r, x, g) && x.src.state.SendFile?
    ensures Inv(r, SourceStep(r.fs, r.root, x, n), g)
    ensures n > 0 ==> SourceFuel(r, SourceStep(r.fs, r.root, x, n), g) < SourceFuel(r, x, g)
  {
    hide Inv, Walking, SourceRest, SourceStep, SourceTail, SourceCur, AllItems, Src.SendData;
    InvSource(r, x, g);
    var s, cur, tail := x.src, SourceCur(r, g), SourceTail(r, g);
    var k := Min(n, |s.buffer|);
    var o := Src.SendData(s, if s.buffer == [] then Src.Tick else Src.Took(k));
    assert StageOf(r, g) == Open;
    SendsData(r.preserve, s, cur, x.ctx.unread, k, tail);
    DataIs(r.fs, r.root, x, n);
    if o.sent == [] {
      assert Sends(Octets([])) + SourceRest(o.s, cur, tail) == SourceRest(o.s, cur, tail);
      if s.buffer == [] { assert SourceRank(s) == 3; }
      QuietSource(r, x, g, o.s, x.ctx, g);
    } else {
      PostingSource(r, x, g, o.s, Packet(o.sent, DataMsg));
    }
  }

  lemma InvConfig(r: Request, x: Session, g: Place)
    requires Inv(r, x, g)
    ensures Coherent(ConfigOf(AllItems(r), x, g))
    ensures ConfigOf(AllItems(r), x, g) == Config(SourceTodo(r, x, g), SinkTodo(r, x, g), Tokens(x.ab), Tokens(x.ba))
  {
    hide Walking, SinkWalks, SourceForm, SinkForm, AllItems, Coherent, Tokens, SourceScript, SinkScript,
         SourceRest, SinkRest;
  }

  /** The message at the head of the confirmations is a good one. */
  lemma InvConfirmation(r: Request, x: Session, g: Place)
    requires Inv(r, x, g) && x.ba != []
    ensures x.ba[0] == Packet([0], GoodMsg)
    ensures Tokens(x.ba) == [Good] + Tokens(x.ba[1..])
  {
    hide Walking, SinkWalks, SourceForm, SinkForm, AllItems, Coherent;
    assert TokensOf(x.ba[0]) == [Good];
  }

  /** A good confirmation has been read. */
  lemma HeardKeeps(r: Request, x: Session, g: Place, s: Src.Source)
    requires Inv(r, x, g) && x.ba != []
    requires SourceForm(r.preserve, s, SourceCur(r, g), x.ctx.unread, StageOf(r, g))
    requires SourceTodo(r, x, g) == [Rcv(Good)] + SourceRest(s, SourceCur(r, g), SourceTail(r, g))
    ensures Inv(r, x.(src := s, ba := x.ba[1..]), g)
  {
    hide Walking, SinkWalks, SourceForm, SinkForm, AllItems, Coherent, SourceScript, SinkScript, SourceRest,
         SinkRest, Tokens;
    InvConfig(r, x, g);
    InvConfirmation(r, x, g);
    var rest := SourceRest(s, SourceCur(r, g), SourceTail(r, g));
    var c := ConfigOf(AllItems(r), x, g);
    MirrorCoherent(c);
    ReceiveKeeps(Mirror(c), Good, rest);
    var c' := Mirror(c).(b := rest, ab := c.ba[1..]);
    MirrorCoherent(c');
    assert ConfigOf(AllItems(r), x.(src := s, ba := x.ba[1..]), g) == Mirror(c');
  }

  lemma HearIs(fs: FileSystem, root: Path, x: Session, n: nat)
    requires x.src.state.RecvConfirmation? && x.ba != [] && x.ba[0].bytes == [0]
    ensures SourceStep(fs, root, x, n) == x.(src := x.src.(state := x.src.next), ba := x.ba[1..])
  {
    assert Portion(n, MSG_SZ, x.ba) == 1 && x.ba[0].bytes[..1] == [0];
  }

  lemma HearGood(r: Request, x: Session, g: Place, n: nat)
    requires Inv(r, x, g) && x.src.state.RecvConfirmation? && x.ba != []
    ensures Inv(r, SourceStep(r.fs, r.root, x, n), g)
    ensures SourceFuel(r, SourceStep(r.fs, r.root, x, n), g) < SourceFuel(r, x, g)
  {
    hide Inv, Walking, SourceForm, SourceRest, SourceStep, SourceTail, SourceCur, AllItems;
    InvSource(r, x, g);
    InvConfirmation(r, x, g);
    HearsGood(r.preserve, x.src, SourceCur(r, g), x.ctx.unread, StageOf(r, g), SourceTail(r, g));
    HeardKeeps(r, x, g, x.src.(state := x.src.next));
    HearIs(r.fs, r.root, x, n);
  }

  lemma OpenSource(r: Request, x: Session, g: Place, n: nat)
    requires Inv(r, x, g) && (x.src.state.Begin? || x.src.state.Init? || x.src.state.Done?)
    ensures Inv(r, SourceStep(r.fs, r.root, x, n), g)
    ensures !x.src.state.Done? ==> SourceFuel(r, SourceStep(r.fs, r.root, x, n), g) < SourceFuel(r, x, g)
  {
    hide Coherent, Tokens, Stands, Owed, Holds, HoldsAll, Items, ItemsOf, PutItems, Replay, SourceScript,
         SinkScript, Built, Carriable, CarriableAll;
    Opens(r.preserve, x.src, SourceCur(r, g), x.ctx.unread, StageOf(r, g), SourceTail(r, g));
    QuietSource(r, x, g, Src.Step(x.src, if x.src.state.Begin? then Src.Call(Src.Accept) else Src.Tick).s, x.ctx, g);
  }

  lemma FetchNext(r: Request, x: Session, g: Place, n: nat) returns (g': Place)
    requires ValidRequest(r) && Inv(r, x, g) && x.src.state.Transfer?
    ensures Inv(r, SourceStep(r.fs, r.root, x, n), g')
    ensures SourceFuel(r, SourceStep(r.fs, r.root, x, n), g') < SourceFuel(r, x, g)
    ensures g'.i == g.i && g'.stamped == g.stamped
  {
    hide Coherent, Tokens, Stands, Owed, Holds, HoldsAll, Items, ItemsOf, PutItems, Replay, SourceScript,
         SinkScript, Built, Carriable, CarriableAll;
    if x.src.headerSent {
      FetchMore(r, x, g, n);
      g' := g;
    } else if g.j == 0 {
      g' := FetchRoot(r, x, g, n);
    } else if g.todo[0] == [] {
      g' := FetchEnd(r, x, g, n);
    } else if g.todo[0][0].Dir? {
      g' := FetchDir(r, x, g, n);
    } else {
      g' := FetchFile(r, x, g, n);
    }
  }

  /** Every source pass keeps the invariant, and one that is not blocked and, when
      data is waiting, has some of it taken brings the end nearer. */
  lemma SourceMove(r: Request, x: Session, g: Place, n: nat) returns (g': Place)
    requires ValidRequest(r) && Inv(r, x, g)
    ensures Inv(r, SourceStep(r.fs, r.root, x, n), g')
    ensures !SourceBlocked(x) && n > 0 ==> SourceFuel(r, SourceStep(r.fs, r.root, x, n), g') < SourceFuel(r, x, g)
    ensures g'.i == g.i && g'.stamped == g.stamped
    ensures SourceStep(r.fs, r.root, x, n).snk == x.snk
  {
    hide Coherent, Tokens, Stands, Owed, Holds, HoldsAll, Items, ItemsOf, PutItems, Replay, SourceScript,
         SinkScript, Built, Carriable, CarriableAll;
    g' := g;
    match x.src.state
    case Transfer => g' := FetchNext(r, x, g, n);
    case SendFile => SendData(r, x, g, n);
    case ConfirmWithReceipt => SendGood(r, x, g, n);
    case RecvConfirmation => if x.ba != [] { HearGood(r, x, g, n); }
    case Begin => OpenSource(r, x, g, n);
    case Init => OpenSource(r, x, g, n);
    case Done => OpenSource(r, x, g, n);
    case _ => SendControl(r, x, g, n);
  }
}
