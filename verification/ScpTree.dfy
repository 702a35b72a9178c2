/**
 * File trees, the flat list of protocol items a tree is walked into, what the
 * receive callbacks build out of such a list, and the dialogue the two ends
 * hold over it.
 */
module ScpTree {
  import opened Bytes
  import opened ScpText
  import opened Dialogue

  type Name = seq<byte>

  datatype Node =
    | File(name: Name, mode: nat, mtime: nat, atime: nat, content: seq<byte>)
    | Dir(name: Name, mode: nat, children: seq<Node>)

  datatype Times = NoTimes | Times(mtime: nat, atime: nat)

  datatype Item =
    | DirItem(name: Name, mode: nat)
    | EndItem
    | FileItem(name: Name, mode: nat, times: Times, content: seq<byte>)

  // ---------------------------------------------------------- serialising

  function FileItemOf(n: Node, preserve: bool): Item
    requires n.File?
  {
    FileItem(n.name, n.mode, if preserve then Times(n.mtime, n.atime) else NoTimes, n.content)
  }

  /** The balanced preorder of a tree: a directory opens, its entries follow in
      reading order, and it closes. */
  function Items(n: Node, preserve: bool): seq<Item>
    decreases n, 0
  {
    match n
    case File(_, _, _, _, _) => [FileItemOf(n, preserve)]
    case Dir(name, mode, children) => [DirItem(name, mode)] + ItemsOf(children, preserve) + [EndItem]
  }

  function ItemsOf(ns: seq<Node>, preserve: bool): seq<Item>
    decreases ns, 1
  {
    if ns == [] then [] else Items(ns[0], preserve) + ItemsOf(ns[1..], preserve)
  }

  /** What arrives: modes cut to 0777 and, without -p, no file times. */
  function Arrived(n: Node, preserve: bool): Node
    decreases n, 0
  {
    match n
    case File(name, mode, mtime, atime, content) =>
      File(name, mode % MODE_RANGE, if preserve then mtime else 0, if preserve then atime else 0, content)
    case Dir(name, mode, children) => Dir(name, mode % MODE_RANGE, ArrivedAll(children, preserve))
  }

  function ArrivedAll(ns: seq<Node>, preserve: bool): seq<Node>
    decreases ns, 1
  {
    if ns == [] then [] else [Arrived(ns[0], preserve)] + ArrivedAll(ns[1..], preserve)
  }

  /** Trees the protocol can carry: component names, sizes and times in range,
      and headers that fit the message buffer. */
  predicate Carriable(n: Node)
    decreases n, 0
  {
    match n
    case File(name, mode, mtime, atime, content) =>
      && WireName(name) && |content| <= MAX_WORD32
      && mtime <= MAX_WORD64 && atime <= MAX_WORD64
      && |RawFileLine(mode, |content|, name)| < MSG_SZ
    case Dir(name, mode, children) =>
      WireName(name) && |RawDirLine(mode, name)| < MSG_SZ && CarriableAll(children)
  }

  predicate CarriableAll(ns: seq<Node>)
    decreases ns, 1
  {
    ns == [] || (Carriable(ns[0]) && CarriableAll(ns[1..]))
  }

  predicate CarriableItem(i: Item) {
    match i
    case EndItem => true
    case DirItem(name, mode) => WireName(name) && |RawDirLine(mode, name)| < MSG_SZ
    case FileItem(name, mode, times, content) =>
      && WireName(name) && |content| <= MAX_WORD32
      && (times.Times? ==> times.mtime <= MAX_WORD64 && times.atime <= MAX_WORD64)
      && |RawFileLine(mode, |content|, name)| < MSG_SZ
  }

  predicate CarriableItems(items: seq<Item>) {
    forall k :: 0 <= k < |items| ==> CarriableItem(items[k])
  }

  lemma {:induction false} CarriableTreeItems(n: Node, preserve: bool)
    requires Carriable(n)
    ensures CarriableItems(Items(n, preserve))
    decreases n, 0
  {
    if n.Dir? {
      CarriableForestItems(n.children, preserve);
    }
  }

  lemma {:induction false} CarriableForestItems(ns: seq<Node>, preserve: bool)
    requires CarriableAll(ns)
    ensures CarriableItems(ItemsOf(ns, preserve))
    decreases ns, 1
  {
    if ns != [] {
      CarriableTreeItems(ns[0], preserve);
      CarriableForestItems(ns[1..], preserve);
    }
  }

  // ------------------------------------------------------------- building

  datatype OpenFile = OpenFile(name: Name, mode: nat, mtime: nat, atime: nat, size: nat, content: seq<byte>)

  datatype Frame = Frame(name: Name, mode: nat, children: seq<Node>)

  /** Destination state: the directories entered, innermost first, and the file
      being written. The last frame stands for the base path. */
  datatype Dest = Dest(stack: seq<Frame>, file: Option<OpenFile>)

  /** One call of the receive callback. */
  datatype Event =
    | NewRequest
    | NewDir(name: Name, mode: nat)
    | EndDir
    | NewFile(name: Name, mode: nat, mtime: nat, atime: nat, size: nat)
    | FilePart(data: seq<byte>, offset: nat)
    | FileDone(mtime: nat, atime: nat)

  function AddChild(stack: seq<Frame>, n: Node): seq<Frame>
    requires stack != []
  {
    [stack[0].(children := stack[0].children + [n])] + stack[1..]
  }

  /** What a callback does to the destination; None is an abort. A part is only
      good at the running offset, and a file is only done once it is whole. */
  function Apply(d: Dest, e: Event): Option<Dest> {
    match e
    case NewRequest => Some(Dest([Frame([], 0, [])], None))
    case NewDir(name, mode) =>
      if d.file.Some? || d.stack == [] then None
      else Some(Dest([Frame(name, mode, [])] + d.stack, None))
    case EndDir =>
      if d.file.Some? || |d.stack| < 2 then None
      else Some(Dest(AddChild(d.stack[1..], Dir(d.stack[0].name, d.stack[0].mode, d.stack[0].children)), None))
    case NewFile(name, mode, mtime, atime, size) =>
      if d.file.Some? || d.stack == [] then None
      else Some(Dest(d.stack, Some(OpenFile(name, mode, mtime, atime, size, []))))
    case FilePart(data, offset) =>
      if d.file.None? || offset != |d.file.value.content| then None
      else Some(d.(file := Some(d.file.value.(content := d.file.value.content + data))))
    case FileDone(mtime, atime) =>
      if d.file.None? || d.stack == [] then None
      else
        var f := d.file.value;
        if |f.content| != f.size || mtime != f.mtime || atime != f.atime then None
        else Some(Dest(AddChild(d.stack, File(f.name, f.mode, f.mtime, f.atime, f.content)), None))
  }

  function Replay(log: seq<Event>): Option<Dest> {
    if log == [] then Some(Dest([], None))
    else
      var d := Replay(log[..|log| - 1]);
      if d.None? then None else Apply(d.value, log[|log| - 1])
  }

  lemma ReplayAppend(log: seq<Event>, e: Event)
    ensures Replay(log + [e]) == if Replay(log).None? then None else Apply(Replay(log).value, e)
  {
    assert (log + [e])[..|log|] == log;
  }

  /** The destination after whole items, item by item. */
  function PutItem(stack: seq<Frame>, i: Item): Option<seq<Frame>> {
    if stack == [] then None
    else match i
      case DirItem(name, mode) => Some([Frame(name, mode % MODE_RANGE, [])] + stack)
      case EndItem =>
        if |stack| < 2 then None
        else Some(AddChild(stack[1..], Dir(stack[0].name, stack[0].mode, stack[0].children)))
      case FileItem(name, mode, times, content) =>
        var m, a := if times.Times? then times.mtime else 0, if times.Times? then times.atime else 0;
        Some(AddChild(stack, File(name, mode % MODE_RANGE, m, a, content)))
  }

  function PutItems(stack: seq<Frame>, items: seq<Item>): Option<seq<Frame>>
    decreases |items|
  {
    if items == [] then Some(stack)
    else
      var s := PutItem(stack, items[0]);
      if s.None? then None else PutItems(s.value, items[1..])
  }

  lemma {:induction false} PutItemsAppend(stack: seq<Frame>, a: seq<Item>, b: seq<Item>)
    ensures PutItems(stack, a + b) ==
            (var s := PutItems(stack, a); if s.None? then None else PutItems(s.value, b))
    decreases |a|
  {
    if a == [] {
      assert a + b == b;
    } else {
      assert (a + b)[0] == a[0] && (a + b)[1..] == a[1..] + b;
      var s := PutItem(stack, a[0]);
      if s.Some? {
        PutItemsAppend(s.value, a[1..], b);
      }
    }
  }

  /** Building from a tree's items adds the tree, as it arrives, to the
      directory that was open. */
  lemma {:induction false} ItemsRebuild(n: Node, preserve: bool, stack: seq<Frame>)
    requires stack != []
    ensures PutItems(stack, Items(n, preserve)) == Some(AddChild(stack, Arrived(n, preserve)))
    decreases n, 0
  {
    match n
    case File(_, _, _, _, _) =>
      assert Items(n, preserve)[1..] == [];
    case Dir(name, mode, children) =>
      var open := [Frame(name, mode % MODE_RANGE, [])] + stack;
      var head, body, tail := [DirItem(name, mode)], ItemsOf(children, preserve), [EndItem];
      ForestRebuild(children, preserve, open);
      var full := [open[0].(children := ArrivedAll(children, preserve))] + open[1..];
      assert [] + ArrivedAll(children, preserve) == ArrivedAll(children, preserve);
      assert PutItem(stack, head[0]) == Some(open) && head[1..] == [];
      assert PutItems(stack, head) == Some(open);
      PutItemsAppend(stack, head, body);
      PutItemsAppend(stack, head + body, tail);
      assert full[1..] == stack;
      assert PutItems(full, tail) == Some(AddChild(stack, Arrived(n, preserve))) by {
        assert tail[1..] == [];
      }
  }

  lemma {:induction false} ForestRebuild(ns: seq<Node>, preserve: bool, stack: seq<Frame>)
    requires stack != []
    ensures PutItems(stack, ItemsOf(ns, preserve)) ==
            Some([stack[0].(children := stack[0].children + ArrivedAll(ns, preserve))] + stack[1..])
    decreases ns, 1
  {
    if ns == [] {
      assert stack[0].children + [] == stack[0].children;
      assert [stack[0]] + stack[1..] == stack;
    } else {
      ItemsRebuild(ns[0], preserve, stack);
      var s := AddChild(stack, Arrived(ns[0], preserve));
      ForestRebuild(ns[1..], preserve, s);
      PutItemsAppend(stack, Items(ns[0], preserve), ItemsOf(ns[1..], preserve));
      assert s[0].children + ArrivedAll(ns[1..], preserve) == stack[0].children + ArrivedAll(ns, preserve);
      assert s[1..] == stack[1..];
    }
  }

  // ------------------------------------------------------------- dialogue

  /** A control line by what it says, and its text. */
  datatype Control =
    | FileControl(mode: nat, size: nat, name: Name)
    | DirControl(mode: nat, name: Name)
    | TimeControl(mtime: nat, atime: nat)
    | EndControl

  function Wire(c: Control): seq<byte> {
    match c
    case FileControl(mode, size, name) => FileLine(mode, size, name)
    case DirControl(mode, name) => DirLine(mode, name)
    case TimeControl(mtime, atime) => TimeLine(mtime, atime)
    case EndControl => END_LINE
  }

  predicate CarriableControl(c: Control) {
    match c
    case FileControl(mode, size, name) =>
      WireName(name) && size <= MAX_WORD32 && |RawFileLine(mode, size, name)| < MSG_SZ
    case DirControl(mode, name) => WireName(name) && |RawDirLine(mode, name)| < MSG_SZ
    case TimeControl(mtime, atime) => mtime <= MAX_WORD64 && atime <= MAX_WORD64
    case EndControl => true
  }

  /** What the sink makes of a control line. */
  function MessageOf(c: Control): Message {
    match c
    case FileControl(mode, size, name) => FileMsg(mode % MODE_RANGE, size, name)
    case DirControl(mode, name) => DirMsg(mode % MODE_RANGE, 0, name)
    case TimeControl(mtime, atime) => TimeMsg(mtime, atime)
    case EndControl => EndDirMsg
  }

  /** Every control line is printed whole and parsed back to what it says. */
  lemma WireRoundTrip(c: Control)
    requires CarriableControl(c)
    ensures WholeLine(Wire(c))
    ensures ParseMessage(Seal(Wire(c))) == Ok(MessageOf(c))
  {
    match c
    case FileControl(mode, size, name) => FileLineRoundTrip(mode, size, name);
    case DirControl(mode, name) => DirLineRoundTrip(mode, name);
    case TimeControl(mtime, atime) => TimeLineRoundTrip(mtime, atime);
    case EndControl => EndLineRoundTrip();
  }

  /** What goes over the wire, apart from how it is cut into packets: a control
      line, one octet of file data, or a good confirmation. */
  datatype Token = Line(c: Control) | Octet(b: byte) | Good

  function Octets(s: seq<byte>): (r: seq<Token>)
    ensures |r| == |s| && forall i :: 0 <= i < |s| ==> r[i] == Octet(s[i])
  {
    seq(|s|, i requires 0 <= i < |s| => Octet(s[i]))
  }

  function Asked(c: Control): seq<Act<Token>> {
    [Snd(Line(c)), Rcv(Good)]
  }

  function Answered(c: Control): seq<Act<Token>> {
    [Rcv(Line(c)), Snd(Good)]
  }

  const CLOSING: seq<Act<Token>> := [Snd(Good), Rcv(Good)]

  /** A file from its header on. */
  function HeaderOnSource(i: Item): seq<Act<Token>>
    requires i.FileItem?
  {
    Asked(FileControl(i.mode, |i.content|, i.name)) + Sends(Octets(i.content)) + CLOSING
  }

  function HeaderOnSink(i: Item): seq<Act<Token>>
    requires i.FileItem?
  {
    Answered(FileControl(i.mode, |i.content|, i.name)) + Takes(Octets(i.content)) + CLOSING
  }

  function SourceActs(i: Item): seq<Act<Token>> {
    match i
    case DirItem(name, mode) => Asked(DirControl(mode, name))
    case EndItem => Asked(EndControl)
    case FileItem(name, mode, times, content) =>
      (if times.Times? then Asked(TimeControl(times.mtime, times.atime)) else []) + HeaderOnSource(i)
  }

  function SinkActs(i: Item): seq<Act<Token>> {
    match i
    case DirItem(name, mode) => Answered(DirControl(mode, name))
    case EndItem => Answered(EndControl)
    case FileItem(name, mode, times, content) =>
      (if times.Times? then Answered(TimeControl(times.mtime, times.atime)) else []) + HeaderOnSink(i)
  }

  function SourceScript(items: seq<Item>): seq<Act<Token>> {
    if items == [] then [] else SourceActs(items[0]) + SourceScript(items[1..])
  }

  function SinkScript(items: seq<Item>): seq<Act<Token>> {
    if items == [] then [] else SinkActs(items[0]) + SinkScript(items[1..])
  }

  lemma ActsMatch(i: Item)
    ensures Matched(SourceActs(i), SinkActs(i))
  {
    if i.FileItem? {
      var toks := Octets(i.content);
      var line := FileControl(i.mode, |i.content|, i.name);
      SendsMatchTakes(toks);
      assert CLOSING[2..] == [];
      assert Matched(CLOSING, CLOSING);
      assert Matched(Asked(line), Answered(line)) by { LineMatches(line); }
      MatchedAppend(Asked(line), Answered(line), Sends(toks), Takes(toks));
      MatchedAppend(Asked(line) + Sends(toks), Answered(line) + Takes(toks), CLOSING, CLOSING);
      if i.times.Times? {
        var t := TimeControl(i.times.mtime, i.times.atime);
        LineMatches(t);
        MatchedAppend(Asked(t), Answered(t), HeaderOnSource(i), HeaderOnSink(i));
      } else {
        assert [] + HeaderOnSource(i) == HeaderOnSource(i) && [] + HeaderOnSink(i) == HeaderOnSink(i);
      }
    } else {
      LineMatches(if i.EndItem? then EndControl else DirControl(i.mode, i.name));
    }
  }

  lemma LineMatches(c: Control)
    ensures Matched(Asked(c), Answered(c))
  {
    assert Asked(c)[1..] == [Rcv(Good)] && Answered(c)[1..] == [Snd(Good)];
    assert [Rcv(Good)][1..] == [] && [Snd(Good)][1..] == [];
  }

  /** The two ends' scripts for the same items answer each other. */
  lemma {:induction false} ScriptsMatch(items: seq<Item>)
    ensures Matched(SourceScript(items), SinkScript(items))
  {
    if items != [] {
      ActsMatch(items[0]);
      ScriptsMatch(items[1..]);
      MatchedAppend(SourceActs(items[0]), SinkActs(items[0]), SourceScript(items[1..]), SinkScript(items[1..]));
    }
  }
}
