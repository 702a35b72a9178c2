/**
 * A recursive transfer end to end: the source machine with its default callback
 * walking a file system, the sink machine with callbacks that go through, and
 * two in-order channels between them. Every interleaving of their passes, every
 * cut of the data into sends and reads and every want is a schedule.
 *
 * A read never runs past one sent message; ReceiveScpConfirmation needs that,
 * as CoalescedReadLosesLine shows.
 */
module ScpSession {
  import opened Bytes
  import opened ScpText
  import opened Dialogue
  import opened ScpTree
  import opened ScpWalk
  import Src = ScpSource
  import Snk = ScpSink

  /** What a message is is known to the proof only; reads see its octets. */
  datatype Kind = LineMsg(c: Control) | DataMsg | GoodMsg

  datatype Packet = Packet(bytes: seq<byte>, kind: Kind)

  datatype Session =
    Session(src: Src.Source, ctx: SendCtx, snk: Snk.Sink, ab: seq<Packet>, ba: seq<Packet>, failed: bool)

  /** One pass of one side. The number picks how much is read, taken or
      delivered; a pass with nothing to receive is a want. */
  datatype Choice = SourceMoves(n: nat) | SinkMoves(n: nat)

  function Start(preserve: bool): Session {
    Session(Src.Start(true, preserve), NO_CTX, Snk.START, [], [], false)
  }

  // ------------------------------------------------------------- channels

  /** The first k octets of the message at the head. */
  function Drop(q: seq<Packet>, k: nat): seq<Packet>
    requires q != [] && k <= |q[0].bytes|
  {
    if k == |q[0].bytes| then q[1..] else [q[0].(bytes := q[0].bytes[k..])] + q[1..]
  }

  function Portion(n: nat, ask: nat, q: seq<Packet>): (k: nat)
    requires q != []
    ensures k <= ask && k <= |q[0].bytes|
  {
    Min(n + 1, Min(ask, |q[0].bytes|))
  }

  function Post(q: seq<Packet>, bytes: seq<byte>, kind: Kind): seq<Packet> {
    if bytes == [] then q else q + [Packet(bytes, kind)]
  }

  // ---------------------------------------------------------------- moves

  function SourceIo(fs: FileSystem, root: Path, x: Session, n: nat): Src.Io {
    match x.src.state
    case Begin => Src.Call(Src.Accept)
    case Init => Src.Tick
    case Done => Src.Tick
    case Transfer => Src.Call(Callback(fs, root, x.ctx, x.src, n + 1).answer)
    case SendFile => if x.src.buffer == [] then Src.Tick else Src.Took(Min(n, |x.src.buffer|))
    case RecvConfirmation => if x.ba == [] then Src.Want else Src.Got(x.ba[0].bytes[..Portion(n, MSG_SZ, x.ba)])
    case RecvConfirmWithReceipt => if x.ba == [] then Src.Want else Src.Got(x.ba[0].bytes[..Portion(n, MSG_SZ, x.ba)])
    case _ => Src.Took(|Src.LineOf(x.src)|)
  }

  /** The control line a line-sending state sends. */
  function ControlOf(s: Src.Source): Control {
    match s.state
    case SendTimestamp => TimeControl(s.mtime, s.atime)
    case SendEnterDir => DirControl(s.mode, s.name)
    case SendFileHeader => FileControl(s.mode, s.size, s.name)
    case _ => EndControl
  }

  function KindOf(s: Src.Source): Kind {
    if s.state.SendFile? then DataMsg else if Src.SendsConfirmation(s.state) then GoodMsg else LineMsg(ControlOf(s))
  }

  function SourceStep(fs: FileSystem, root: Path, x: Session, n: nat): Session {
    var io := SourceIo(fs, root, x, n);
    if !Src.Fits(x.src, io) then x.(failed := true)
    else
      var o := Src.Step(x.src, io);
      x.(src := o.s, failed := x.failed || o.ret.Fatal?,
         ctx := if x.src.state.Transfer? then Callback(fs, root, x.ctx, x.src, n + 1).ctx else x.ctx,
         ab := Post(x.ab, o.sent, KindOf(x.src)),
         ba := if io.Got? then Drop(x.ba, |io.data|) else x.ba)
  }

  function SinkIo(x: Session, n: nat): Snk.Io {
    match x.snk.state
    case Begin => Snk.Call(true)
    case Done => Snk.Call(true)
    case SendConfirmation => Snk.Took(1)
    case ReceiveMessage =>
      if x.ab == [] then if x.src.state.Done? then Snk.Eof else Snk.Want
      else Snk.Got(x.ab[0].bytes[..Portion(n, Snk.Ask(x.snk), x.ab)], true, true)
    case ReceiveConfirmation =>
      if x.ab == [] then Snk.Want
      else Snk.Got(x.ab[0].bytes[..Portion(n, Snk.Ask(x.snk), x.ab)], true, true)
    case ReceiveFile =>
      if Snk.Ask(x.snk) == 0 then Snk.Got([], true, true)
      else if x.ab == [] then Snk.Want
      else Snk.Got(x.ab[0].bytes[..Portion(n, Snk.Ask(x.snk), x.ab)], true, true)
  }

  function SinkStep(x: Session, n: nat): Session {
    var io := SinkIo(x, n);
    if !Snk.Fits(x.snk, io) then x.(failed := true)
    else
      var o := Snk.Step(x.snk, io);
      x.(snk := o.s, failed := x.failed || o.ret.Fatal? || o.s.aborting,
         ba := Post(x.ba, o.sent, GoodMsg),
         ab := if io.Got? && io.data != [] then Drop(x.ab, |io.data|) else x.ab)
  }

  function Next(fs: FileSystem, root: Path, x: Session, c: Choice): Session {
    match c
    case SourceMoves(n) => SourceStep(fs, root, x, n)
    case SinkMoves(n) => SinkStep(x, n)
  }

  function Play(fs: FileSystem, root: Path, x: Session, schedule: seq<Choice>): Session
    decreases |schedule|
  {
    if schedule == [] then x else Play(fs, root, Next(fs, root, x, schedule[0]), schedule[1..])
  }

  // ------------------------------------------------- what is still to come

  function TokensOf(pk: Packet): seq<Token> {
    match pk.kind
    case LineMsg(c) => [Line(c)]
    case DataMsg => Octets(pk.bytes)
    case GoodMsg => [Good]
  }

  /** A line that has been read in part still counts as under way. */
  function Tokens(q: seq<Packet>): seq<Token> {
    if q == [] then [] else TokensOf(q[0]) + Tokens(q[1..])
  }

  predicate Sound(pk: Packet) {
    match pk.kind
    case LineMsg(c) => pk.bytes == Wire(c) && CarriableControl(c)
    case DataMsg => pk.bytes != []
    case GoodMsg => pk.bytes == [0]
  }

  /** The head as it was sent: msg is what the sink has read of it. */
  predicate SoundHead(msg: seq<byte>, pk: Packet) {
    if msg == [] then Sound(pk)
    else pk.kind.LineMsg? && pk.bytes != [] && msg + pk.bytes == Wire(pk.kind.c) && CarriableControl(pk.kind.c)
  }

  predicate SoundQueue(msg: seq<byte>, q: seq<Packet>) {
    && (msg != [] ==> q != [])
    && (q != [] ==> SoundHead(msg, q[0]))
    && forall k :: 1 <= k < |q| ==> Sound(q[k])
  }

  /** The data of a file still to be sent or received, and how it is closed. */
  function DataOnSource(content: seq<byte>): seq<Act<Token>> {
    Sends(Octets(content)) + CLOSING
  }

  function DataOnSink(content: seq<byte>): seq<Act<Token>> {
    Takes(Octets(content)) + CLOSING
  }

  predicate IsFile(cur: Item, offset: nat) {
    cur.FileItem? && offset <= |cur.content|
  }

  /** What the source still does from a state that is not waiting: cur is the item
      it fetched last, tail its script for the items after that. */
  function SourceGo(st: Src.State, s: Src.Source, cur: Item, tail: seq<Act<Token>>): seq<Act<Token>> {
    match st
    case Transfer =>
      if s.headerSent && IsFile(cur, s.offset) then DataOnSource(cur.content[s.offset..]) + tail else tail
    case SendFile =>
      if IsFile(cur, s.offset) then DataOnSource(cur.content[s.offset..]) + tail else tail
    case SendFileHeader =>
      if IsFile(cur, 0) then Asked(FileControl(s.mode, s.size, s.name)) + DataOnSource(cur.content) + tail else tail
    case SendTimestamp =>
      if IsFile(cur, 0) then
        Asked(TimeControl(s.mtime, s.atime)) + Asked(FileControl(s.mode, s.size, s.name))
        + DataOnSource(cur.content) + tail
      else tail
    case SendEnterDir => Asked(DirControl(s.mode, s.name)) + tail
    case SendExitDir => Asked(EndControl) + tail
    case SendExitDirFinal => Asked(EndControl) + tail
    case ConfirmWithReceipt => CLOSING + tail
    case _ => []
  }

  function SourceRest(s: Src.Source, cur: Item, tail: seq<Act<Token>>): seq<Act<Token>> {
    match s.state
    case Begin => [Rcv(Good)] + tail
    case Init => [Rcv(Good)] + tail
    case RecvConfirmation => [Rcv(Good)] + SourceGo(s.next, s, cur, tail)
    case _ => SourceGo(s.state, s, cur, tail)
  }

  /** What the sink still does from a state that is not confirming: here is its
      script from the item it is at, cur, and tail its script after that; stamped
      says that the item's timestamp is in. */
  function SinkGo(st: Snk.State, s: Snk.Sink, cur: Item, stamped: bool, here: seq<Act<Token>>, tail: seq<Act<Token>>)
    : seq<Act<Token>>
  {
    match st
    case ReceiveMessage => if stamped && cur.FileItem? then HeaderOnSink(cur) + tail else here
    case ReceiveFile => if IsFile(cur, s.offset) then DataOnSink(cur.content[s.offset..]) + tail else here
    case ReceiveConfirmation => [Rcv(Good)] + here
    case _ => []
  }

  function SinkRest(s: Snk.Sink, cur: Item, stamped: bool, here: seq<Act<Token>>, tail: seq<Act<Token>>)
    : seq<Act<Token>>
  {
    match s.state
    case Begin => [Snd(Good)] + here
    case SendConfirmation => [Snd(Good)] + SinkGo(s.next, s, cur, stamped, here, tail)
    case _ => SinkGo(s.state, s, cur, stamped, here, tail)
  }

  // ------------------------------------------------------------ invariant

  predicate InHand(s: Src.Source) {
    Src.BeforeHeader(s) || s.headerSent
  }

  function Left(unread: Option<seq<byte>>): seq<byte> {
    if unread.Some? then unread.value else []
  }

  /** The file in hand is cur: what is buffered and unread is exactly what of it
      has not been sent. */
  predicate Matches(cur: Item, s: Src.Source, unread: Option<seq<byte>>) {
    && IsFile(cur, s.offset)
    && s.name == cur.name && s.mode == cur.mode && s.size == |cur.content|
    && s.buffer + Left(unread) == cur.content[s.offset..]
    && (unread.Some? ==> unread.value != [])
  }

  predicate FileInHand(cur: Item, s: Src.Source, unread: Option<seq<byte>>) {
    && Matches(cur, s, unread)
    && (Src.BeforeHeader(s) ==> s.offset == 0 && !s.headerSent && !s.noProgress)
    && (s.state.SendTimestamp? ==> cur.times == Times(s.mtime, s.atime))
    && (s.headerSent ==>
          s.state.SendFile? || s.state.Transfer? || (s.state.RecvConfirmation? && s.next.SendFile?))
    && (s.state.RecvConfirmation? ==> !s.noProgress)
    && (s.state.Transfer? ==> s.request.Continue? && s.buffer == [] && unread.Some?)
    && (s.state.SendFile? && s.noProgress ==> s.buffer != [])
  }

  predicate NoneInHand(s: Src.Source, unread: Option<seq<byte>>) {
    s.offset == 0 && s.buffer == [] && unread.None? && !s.noProgress && s.request.Recursive?
  }

  predicate Ending(s: Src.Source) {
    s.state.SendExitDirFinal? || s.state.Done? || (s.state.RecvConfirmation? && s.next.Done?)
  }

  /** How far the fetching is: nothing yet, a directory still open, or all. */
  datatype Stage = Unopened | Open | Fetched

  /** The source machine's part. */
  predicate SourceForm(preserve: bool, s: Src.Source, cur: Item, unread: Option<seq<byte>>, stage: Stage) {
    && !s.aborting && s.recursive && s.preserve == preserve
    && !s.state.SendConfirmation? && !s.state.RecvConfirmWithReceipt?
    && (s.state.RecvConfirmation? ==> s.next.Transfer? || s.next.SendFileHeader? || s.next.SendFile? || s.next.Done?)
    && (s.state.SendFile? || (s.state.RecvConfirmation? && s.next.SendFile?) ==> s.headerSent)
    && (s.state.ConfirmWithReceipt? ==> s.next.Transfer?)
    && (if InHand(s) then stage.Open? && FileInHand(cur, s, unread) else NoneInHand(s, unread))
    && (s.state.SendEnterDir? ==> stage.Open? && cur == DirItem(s.name, s.mode))
    && (s.state.Begin? || s.state.Init? ==> stage.Unopened?)
    && (Ending(s) <==> stage.Fetched?)
  }

  datatype Request = Request(fs: FileSystem, root: Path, tree: Node, preserve: bool)

  /** A directory tree in place at the requested path, all of it carriable. */
  predicate ValidRequest(r: Request) {
    && r.tree.Dir? && Carriable(r.tree) && Holds(r.fs, r.root, r.tree) && BaseName(r.root) == r.tree.name
  }

  function AllItems(r: Request): seq<Item> {
    Items(r.tree, r.preserve)
  }

  /** The sink machine's part; left says that items remain. */
  predicate SinkForm(s: Snk.Sink, cur: Item, stamped: bool, left: bool) {
    && !s.aborting
    && (s.state.SendConfirmation? ==> s.next.ReceiveMessage? || s.next.ReceiveFile? || s.next.ReceiveConfirmation?)
    && (s.msg != [] ==> s.state.ReceiveMessage?)
    && (stamped ==> left && cur.FileItem? && cur.times == Times(s.mtime, s.atime))
    && (stamped ==> s.state.ReceiveMessage? || (s.state.SendConfirmation? && s.next.ReceiveMessage?))
    && (s.state.Done? ==> !left)
    && (if Snk.InFile(s) then left && IsFile(cur, s.offset) && s.size == |cur.content|
        else s.offset == 0 && (!stamped ==> s.mtime == s.atime == 0))
  }

  const BASE: seq<Frame> := [Frame([], 0, [])]

  predicate OpenFor(s: Snk.Sink, cur: Item, f: OpenFile) {
    && IsFile(cur, s.offset) && Snk.OpenMatches(s, f)
    && f.name == cur.name && f.mode == cur.mode % MODE_RANGE && f.size == |cur.content|
    && f.content == cur.content[..s.offset]
    && (if cur.times.Times? then cur.times == Times(f.mtime, f.atime) else f.mtime == f.atime == 0)
  }

  /** What its callbacks have built: stack is the destination after the items it
      has done with. */
  predicate Built(s: Snk.Sink, cur: Item, stack: seq<Frame>) {
    var d := Replay(s.log);
    && d.Some?
    && (if s.state.Begin? then s.log == [] && stack == BASE
        else d.value.stack == stack && |stack| == s.depth + 1)
    && (if Snk.InFile(s) then d.value.file.Some? && OpenFor(s, cur, d.value.file.value) else d.value.file.None?)
  }

  /** Where both sides are in the list of items; the walk's directories and their
      path go along. */
  datatype Place = Place(j: nat, todo: seq<seq<Node>>, p: Path, i: nat, stamped: bool)

  function ItemAt(all: seq<Item>, k: int): Item {
    if 0 <= k < |all| then all[k] else EndItem
  }

  function Behind(all: seq<Item>, k: nat): seq<Item> {
    if k <= |all| then all[k..] else []
  }

  function StageOf(r: Request, g: Place): Stage {
    if g.j == 0 then Unopened else if g.todo == [] then Fetched else Open
  }

  /** The walk is somewhere in the tree and owes the items from j on. */
  predicate Walking(r: Request, ctx: SendCtx, g: Place) {
    if g.j == 0 then ctx == NO_CTX
    else
      && g.j <= |AllItems(r)|
      && Stands(r.fs, r.root, ctx, g.todo, g.p) && Owed(g.todo, r.preserve) == AllItems(r)[g.j..]
  }

  predicate SinkWalks(r: Request, snk: Snk.Sink, g: Place) {
    && g.i <= |AllItems(r)|
    && var stack := PutItems(BASE, AllItems(r)[..g.i]);
       stack.Some? && Built(snk, ItemAt(AllItems(r), g.i), stack.value)
  }

  function ConfigOf(all: seq<Item>, x: Session, g: Place): Config<Token> {
    Config(SourceRest(x.src, ItemAt(all, g.j - 1), SourceScript(Behind(all, g.j))),
           SinkRest(x.snk, ItemAt(all, g.i), g.stamped, SinkScript(Behind(all, g.i)), SinkScript(Behind(all, g.i + 1))),
           Tokens(x.ab), Tokens(x.ba))
  }

  ghost predicate Inv(r: Request, x: Session, g: Place) {
    && !x.failed
    && Walking(r, x.ctx, g) && SourceForm(r.preserve, x.src, ItemAt(AllItems(r), g.j - 1), x.ctx.unread, StageOf(r, g))
    && SinkWalks(r, x.snk, g) && SinkForm(x.snk, ItemAt(AllItems(r), g.i), g.stamped, g.i < |AllItems(r)|)
    && SoundQueue(x.snk.msg, x.ab) && SoundQueue([], x.ba)
    && (forall k :: 0 <= k < |x.ba| ==> x.ba[k].kind.GoodMsg?)
    && Coherent(ConfigOf(AllItems(r), x, g))
  }
}
