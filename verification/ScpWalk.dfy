/**
 * The default send callback's recursive walk, wsScpSendCallback: a stack of open
 * directory handles, the current directory as a path string, and one open file.
 * The walk of a tree answers with exactly the tree's items in order.
 */
module ScpWalk {
  import opened Bytes
  import opened ScpText
  import opened ScpTree
  import opened ScpSource

  /** What lstat and readdir or read find at a path; directories list their
      entries raw, "." and ".." included. */
  datatype Entry =
    | FileEntry(mode: nat, mtime: nat, atime: nat, content: seq<byte>)
    | DirEntry(mode: nat, names: seq<Name>)

  type FileSystem = map<Path, Entry>

  predicate IsDots(n: Name) {
    n == [DOT] || n == [DOT, DOT]
  }

  /** filePath as ScpProcessEntry builds it. */
  function Child(dir: Path, name: Name): Path {
    dir + [SLASH] + name
  }

  // --------------------------------------------------------- path strings

  /** The last separator's position, or none. */
  function LastSeparator(p: Path): (r: Option<nat>)
    ensures r.Some? ==> r.value < |p| && IsSeparator(p[r.value])
    ensures r.Some? ==> forall i :: r.value < i < |p| ==> !IsSeparator(p[i])
    ensures r.None? ==> forall i :: 0 <= i < |p| ==> !IsSeparator(p[i])
  {
    if p == [] then None
    else if IsSeparator(p[|p| - 1]) then Some(|p| - 1)
    else LastSeparator(p[..|p| - 1])
  }

  /** The scan that ScpPopDir and ExtractFileName make. */
  method FindLastSeparator(p: Path) returns (r: Option<nat>)
    ensures r == LastSeparator(p)
  {
    var idx := 0;
    r := None;
    while idx < |p|
      invariant 0 <= idx <= |p| && r == LastSeparator(p[..idx])
    {
      assert p[..idx + 1][..idx] == p[..idx];
      if IsSeparator(p[idx]) {
        r := Some(idx);
      }
      idx := idx + 1;
    }
    assert p[..|p|] == p;
  }

  function BaseName(p: Path): Name {
    match LastSeparator(p)
    case None => p
    case Some(k) => p[k + 1..]
  }

  /** dirName after a pop; a separator at the front is left alone. */
  function PopPath(p: Path): Path {
    match LastSeparator(p)
    case None => p
    case Some(k) => if k == 0 then p else p[..k]
  }

  predicate HasSeparator(name: Name) {
    exists i :: 0 <= i < |name| && IsSeparator(name[i])
  }

  /** Popping undoes entering exactly for the names without a separator. */
  lemma PopUndoesChild(dir: Path, name: Name)
    requires dir != []
    ensures PopPath(Child(dir, name)) == dir <==> !HasSeparator(name)
    ensures !HasSeparator(name) ==> BaseName(Child(dir, name)) == name
  {
    var p := Child(dir, name);
    var k := LastSeparator(p);
    assert p[|dir|] == SLASH;
    assert forall i :: 0 <= i < |name| ==> p[|dir| + 1 + i] == name[i];
    if HasSeparator(name) {
      var i :| 0 <= i < |name| && IsSeparator(name[i]);
      assert IsSeparator(p[|dir| + 1 + i]);
      assert k.value > |dir|;
    } else {
      forall i | |dir| < i < |p| ensures !IsSeparator(p[i]) {
        assert p[i] == name[i - |dir| - 1];
      }
      assert k == Some(|dir|);
    }
  }

  // ------------------------------------------------------------- the walk

  /** ScpSendCtx: open handles innermost first, each the names not read yet. */
  datatype SendCtx = SendCtx(handles: seq<seq<Name>>, dirName: Path, unread: Option<seq<byte>>)

  const NO_CTX := SendCtx([], [], None)   // zeroed

  datatype Walked = Walked(ctx: SendCtx, answer: Answer)

  /** readdir past "." and "..". */
  function SkipDots(names: seq<Name>): (r: seq<Name>)
    ensures r != [] ==> !IsDots(r[0])
  {
    if names != [] && IsDots(names[0]) then SkipDots(names[1..]) else names
  }

  /** Opening the request's root directory. */
  function EnterRoot(fs: FileSystem, root: Path): Walked {
    if |root| >= PATH_SZ || root == [] || root !in fs || fs[root].FileEntry? then Walked(NO_CTX, Abort)
    else
      Walked(SendCtx([fs[root].names], root, None), EnterDir(BaseName(root), fs[root].mode % MODE_RANGE))
  }

  /** One entry of the innermost directory, stat'ed and opened by its path; want
      is how much of a file the first read returns. */
  function ProcessEntry(fs: FileSystem, ctx: SendCtx, name: Name, want: nat): Walked {
    var path := Child(ctx.dirName, name);
    if |path| >= PATH_SZ || path !in fs then Walked(ctx, Abort)
    else match fs[path]
      case DirEntry(mode, names) =>
        Walked(ctx.(handles := [names] + ctx.handles, dirName := path), EnterDir(name, mode % MODE_RANGE))
      case FileEntry(mode, mtime, atime, content) =>
        var k := Min(want, Min(BUFFER_SZ, |content|));
        Walked(ctx.(unread := if k == |content| then None else Some(content[k..])),
               Fresh(name, mode % MODE_RANGE, mtime, atime, |content|, content[..k]))
  }

  /** WOLFSSH_SCP_RECURSIVE_REQUEST */
  function WalkOn(fs: FileSystem, root: Path, ctx: SendCtx, want: nat): Walked {
    if ctx.handles == [] then EnterRoot(fs, root)
    else
      var names := SkipDots(ctx.handles[0]);
      if names == [] then
        var rest := ctx.handles[1..];
        Walked(ctx.(handles := rest, dirName := PopPath(ctx.dirName)), if rest == [] then ExitDirFinal else ExitDir)
      else
        ProcessEntry(fs, ctx.(handles := [names[1..]] + ctx.handles[1..]), names[0], want)
  }

  /** WOLFSSH_SCP_CONTINUE_FILE_TRANSFER, offset being what has been sent. */
  function ReadOn(ctx: SendCtx, offset: nat, size: nat, want: nat): Walked {
    if ctx.unread.None? then Walked(ctx, Abort)
    else
      var k := Min(want, Min(BUFFER_SZ, |ctx.unread.value|));
      if k == 0 then Walked(ctx.(unread := None), Failed)
      else
        Walked(ctx.(unread := if offset + k == size then None else Some(ctx.unread.value[k..])),
               More(ctx.unread.value[..k]))
  }

  /** What the pop does to the walk. A directory entered under dir has been read to
      its end, and next is the entry after it: popped, the walk looks for next under
      dir exactly when the name had no separator, which a backslash in a POSIX name
      is. Otherwise the transfer is aborted, unless that other path exists. */
  lemma PopDecidesWhereNext(fs: FileSystem, root: Path, dir: Path, name: Name, next: Name, rest: seq<Name>,
                            outer: seq<seq<Name>>, unread: Option<seq<byte>>, want: nat)
    requires dir != [] && !IsDots(next)
    ensures var ctx := SendCtx([[], [next] + rest] + outer, Child(dir, name), unread);
            var popped := WalkOn(fs, root, ctx, want).ctx;
            var looked := Child(PopPath(Child(dir, name)), next);
            && WalkOn(fs, root, ctx, want).answer == ExitDir
            && (looked == Child(dir, next) <==> !HasSeparator(name))
            && WalkOn(fs, root, popped, want) ==
               ProcessEntry(fs, SendCtx([rest] + outer, PopPath(Child(dir, name)), unread), next, want)
            && (looked !in fs ==> WalkOn(fs, root, popped, want).answer == Abort)
  {
    PopUndoesChild(dir, name);
    var ctx := SendCtx([[], [next] + rest] + outer, Child(dir, name), unread);
    assert ctx.handles[0] == [] && ctx.handles[1..] == [[next] + rest] + outer;
    var popped := ctx.(handles := [[next] + rest] + outer, dirName := PopPath(ctx.dirName));
    assert WalkOn(fs, root, ctx, want) == Walked(popped, ExitDir);
    assert SkipDots([next] + rest) == [next] + rest && ([next] + rest)[1..] == rest;
    assert popped.handles[1..] == outer;
    var wrong, right := PopPath(Child(dir, name)), dir;
    if wrong != right {
      assert Child(wrong, next)[..|Child(wrong, next)| - 1 - |next|] == wrong;
      assert Child(right, next)[..|Child(right, next)| - 1 - |next|] == right;
    }
  }

  /** One file system on which it goes wrong: "0" holds the empty directory "a\b" and
      the file "c", and after leaving "a\b" the walk looks for "0/a/c". */
  lemma BackslashNameMisleadsWalk(content: seq<byte>, want: nat)
    ensures var a: byte, b: byte, c: byte := 97, 98, 99;
            var fs: FileSystem := map[[ZERO] := DirEntry(0, [[a, BACKSLASH, b], [c]]),
                                      [ZERO, SLASH, a, BACKSLASH, b] := DirEntry(0, []),
                                      [ZERO, SLASH, c] := FileEntry(0, 0, 0, content)];
            var x1 := WalkOn(fs, [ZERO], NO_CTX, want);
            var x2 := WalkOn(fs, [ZERO], x1.ctx, want);
            var x3 := WalkOn(fs, [ZERO], x2.ctx, want);
            && x1.answer.EnterDir? && x2.answer == EnterDir([a, BACKSLASH, b], 0) && x3.answer == ExitDir
            && Child([ZERO], [c]) in fs && WalkOn(fs, [ZERO], x3.ctx, want).answer == Abort
  {
    var a: byte, b: byte, c: byte := 97, 98, 99;
    var fs: FileSystem := map[[ZERO] := DirEntry(0, [[a, BACKSLASH, b], [c]]),
                              [ZERO, SLASH, a, BACKSLASH, b] := DirEntry(0, []),
                              [ZERO, SLASH, c] := FileEntry(0, 0, 0, content)];
    var x1 := WalkOn(fs, [ZERO], NO_CTX, want);
    assert x1.ctx == SendCtx([[[a, BACKSLASH, b], [c]]], [ZERO], None);
    var names: seq<Name> := [[a, BACKSLASH, b], [c]];
    assert names[1..] == [[c]] && x1.ctx.handles[1..] == [];
    var path := Child([ZERO], [a, BACKSLASH, b]);
    assert path == [ZERO, SLASH, a, BACKSLASH, b];
    var x2 := WalkOn(fs, [ZERO], x1.ctx, want);
    assert x2.ctx == SendCtx([[], [[c]]], path, None);
    var none: seq<Name>, outer: seq<seq<Name>> := [], [];
    assert [[c]] + none == [[c]] && [[], [[c]] + none] + outer == [[], [[c]]];
    PopDecidesWhereNext(fs, [ZERO], [ZERO], [a, BACKSLASH, b], [c], none, outer, None, want);
    var looked := Child(PopPath(path), [c]);
    assert |looked| == |PopPath(path)| + 2 && path[..4] == [ZERO, SLASH, a, BACKSLASH];
    assert LastSeparator(path) == LastSeparator(path[..4]) == Some(3);
    assert PopPath(path) == [ZERO, SLASH, a];
    assert looked == [ZERO, SLASH, a, SLASH, c] && looked[3] == SLASH;
    assert looked !in fs;
    assert Child([ZERO], [c]) == [ZERO, SLASH, c];
  }

  /** The callback as the source machine calls it in its TRANSFER state. */
  function Callback(fs: FileSystem, root: Path, ctx: SendCtx, s: Source, want: nat): Walked {
    match s.request
    case Continue => ReadOn(ctx, s.offset, s.size, want)
    case _ => WalkOn(fs, root, ctx, want)
  }

  // ------------------------------------------------ the walk walks a tree

  function NamesOf(ns: seq<Node>): seq<Name> {
    if ns == [] then [] else [ns[0].name] + NamesOf(ns[1..])
  }

  /** What a raw listing shows once dots are skipped. */
  function Listed(names: seq<Name>): seq<Name> {
    if names == [] then []
    else (if IsDots(names[0]) then [] else [names[0]]) + Listed(names[1..])
  }

  /** The file system holds tree n at path p, with every path short enough for
      the walk's buffers. */
  predicate Holds(fs: FileSystem, p: Path, n: Node)
    decreases n, 0
  {
    && 0 < |p| < PATH_SZ && p in fs
    && match n
       case File(_, mode, mtime, atime, content) =>
         && fs[p].FileEntry? && fs[p].mode % MODE_RANGE == mode && fs[p].mtime == mtime && fs[p].atime == atime
         && fs[p].content == content
       case Dir(_, mode, children) =>
         && fs[p].DirEntry? && fs[p].mode % MODE_RANGE == mode
         && Listed(fs[p].names) == NamesOf(children) && HoldsAll(fs, p, children)
  }

  predicate HoldsAll(fs: FileSystem, dir: Path, ns: seq<Node>)
    decreases ns, 1
  {
    ns == [] || (Holds(fs, Child(dir, ns[0].name), ns[0]) && NameAccepted(ns[0].name) && HoldsAll(fs, dir, ns[1..]))
  }

  /** The handles stand for directories whose unread entries are the given
      nodes, innermost first, and dirName names the innermost. */
  predicate Stands(fs: FileSystem, root: Path, ctx: SendCtx, todo: seq<seq<Node>>, p: Path)
    decreases |todo|
  {
    && |ctx.handles| == |todo|
    && (todo != [] ==>
          && ctx.dirName == p && p != []
          && Listed(ctx.handles[0]) == NamesOf(todo[0]) && HoldsAll(fs, p, todo[0])
          && (if |todo| == 1 then p == root
              else Stands(fs, root, ctx.(handles := ctx.handles[1..], dirName := PopPath(p)), todo[1..], PopPath(p))))
  }

  /** The items the walk still owes. */
  function Owed(todo: seq<seq<Node>>, preserve: bool): seq<Item> {
    if todo == [] then [] else ItemsOf(todo[0], preserve) + [EndItem] + Owed(todo[1..], preserve)
  }

  lemma {:induction false} SkipDotsLists(names: seq<Name>)
    ensures Listed(SkipDots(names)) == Listed(names)
    ensures SkipDots(names) == [] <==> Listed(names) == []
    ensures SkipDots(names) != [] ==>
              Listed(names) == [SkipDots(names)[0]] + Listed(SkipDots(names)[1..])
  {
    if names != [] && IsDots(names[0]) {
      SkipDotsLists(names[1..]);
      assert Listed(names) == Listed(names[1..]);
    }
  }

  /** What the walk owes after the item it answers with next. */
  function NextTodo(todo: seq<seq<Node>>): seq<seq<Node>>
    requires todo != []
  {
    if todo[0] == [] then todo[1..]
    else if todo[0][0].Dir? then [todo[0][0].children, todo[0][1..]] + todo[1..]
    else [todo[0][1..]] + todo[1..]
  }

  /** The item it answers with next. */
  function NextItem(todo: seq<seq<Node>>, preserve: bool): Item
    requires todo != []
  {
    if todo[0] == [] then EndItem
    else match todo[0][0]
      case Dir(name, mode, _) => DirItem(name, mode)
      case File(_, _, _, _, _) => FileItemOf(todo[0][0], preserve)
  }

  lemma OwedFirst(todo: seq<seq<Node>>, preserve: bool)
    requires todo != [] && todo[0] != []
    ensures Owed(todo, preserve) == Items(todo[0][0], preserve) + Owed([todo[0][1..]] + todo[1..], preserve)
  {
    var after := [todo[0][1..]] + todo[1..];
    assert after[0] == todo[0][1..] && after[1..] == todo[1..];
  }

  lemma OwedDir(children: seq<Node>, after: seq<seq<Node>>, preserve: bool)
    ensures Owed([children] + after, preserve) == ItemsOf(children, preserve) + [EndItem] + Owed(after, preserve)
  {
    assert ([children] + after)[1..] == after;
  }

  lemma DirUnfolds(n: Node, after: seq<seq<Node>>, preserve: bool)
    requires n.Dir?
    ensures Items(n, preserve) + Owed(after, preserve) ==
            [DirItem(n.name, n.mode)] + Owed([n.children] + after, preserve)
  {
    OwedDir(n.children, after, preserve);
    var body, rest := ItemsOf(n.children, preserve), Owed(after, preserve);
    assert [DirItem(n.name, n.mode)] + body + [EndItem] + rest == [DirItem(n.name, n.mode)] + (body + [EndItem] + rest);
  }

  lemma OwedUnfolds(todo: seq<seq<Node>>, preserve: bool)
    requires todo != []
    ensures Owed(todo, preserve) == [NextItem(todo, preserve)] + Owed(NextTodo(todo), preserve)
  {
    if todo[0] != [] {
      OwedFirst(todo, preserve);
      var after := [todo[0][1..]] + todo[1..];
      if todo[0][0].Dir? {
        DirUnfolds(todo[0][0], after, preserve);
        assert NextTodo(todo) == [todo[0][0].children] + after;
      }
    }
  }

  /** Reading the next name leaves the handle standing for the other entries. */
  lemma NameRead(fs: FileSystem, root: Path, ctx: SendCtx, todo: seq<seq<Node>>, p: Path)
    requires todo != [] && todo[0] != [] && Stands(fs, root, ctx, todo, p)
    ensures var names := SkipDots(ctx.handles[0]);
            && names != [] && names[0] == todo[0][0].name
            && Stands(fs, root, ctx.(handles := [names[1..]] + ctx.handles[1..]), [todo[0][1..]] + todo[1..], p)
            && Holds(fs, Child(p, todo[0][0].name), todo[0][0]) && NameAccepted(todo[0][0].name)
  {
    var names := SkipDots(ctx.handles[0]);
    SkipDotsLists(ctx.handles[0]);
    assert NamesOf(todo[0])[0] == todo[0][0].name && NamesOf(todo[0])[1..] == NamesOf(todo[0][1..]);
    var ctx', after := ctx.(handles := [names[1..]] + ctx.handles[1..]), [todo[0][1..]] + todo[1..];
    assert ctx'.handles[1..] == ctx.handles[1..] && after[1..] == todo[1..];
  }

  /** An exhausted directory is popped. */
  lemma WalkPops(fs: FileSystem, root: Path, ctx: SendCtx, todo: seq<seq<Node>>, p: Path, want: nat)
    requires todo != [] && todo[0] == [] && Stands(fs, root, ctx, todo, p)
    ensures var w := WalkOn(fs, root, ctx, want);
            && Stands(fs, root, w.ctx, todo[1..], PopPath(p))
            && w.answer == (if |todo| == 1 then ExitDirFinal else ExitDir) && w.ctx.unread == ctx.unread
  {
    SkipDotsLists(ctx.handles[0]);
  }

  /** A subdirectory is entered by its path, and dirName follows. */
  lemma WalkEnters(fs: FileSystem, root: Path, ctx: SendCtx, todo: seq<seq<Node>>, p: Path, want: nat)
    requires todo != [] && todo[0] != [] && todo[0][0].Dir? && Stands(fs, root, ctx, todo, p)
    ensures var w := WalkOn(fs, root, ctx, want); var n := todo[0][0];
            && Stands(fs, root, w.ctx, NextTodo(todo), Child(p, n.name))
            && w.answer == EnterDir(n.name, n.mode) && w.ctx.unread == ctx.unread
  {
    NameRead(fs, root, ctx, todo, p);
    var n, names := todo[0][0], SkipDots(ctx.handles[0]);
    var ctx', after := ctx.(handles := [names[1..]] + ctx.handles[1..]), [todo[0][1..]] + todo[1..];
    var path := Child(p, n.name);
    PopUndoesChild(p, n.name);
    var w := ProcessEntry(fs, ctx', n.name, want);
    assert WalkOn(fs, root, ctx, want) == w;
    assert w.ctx.handles[1..] == ctx'.handles && NextTodo(todo)[1..] == after;
    assert w.ctx.(handles := w.ctx.handles[1..], dirName := p) == ctx';
  }

  /** A regular file is opened and its first part read. */
  lemma WalkOpens(fs: FileSystem, root: Path, ctx: SendCtx, todo: seq<seq<Node>>, p: Path, want: nat)
    requires todo != [] && todo[0] != [] && todo[0][0].File? && Stands(fs, root, ctx, todo, p)
    ensures var w := WalkOn(fs, root, ctx, want); var n := todo[0][0];
            var k := Min(want, Min(BUFFER_SZ, |n.content|));
            && Stands(fs, root, w.ctx, NextTodo(todo), p)
            && w.answer == Fresh(n.name, n.mode, n.mtime, n.atime, |n.content|, n.content[..k])
            && w.ctx.unread == (if k == |n.content| then None else Some(n.content[k..]))
  {
    NameRead(fs, root, ctx, todo, p);
    var n, names := todo[0][0], SkipDots(ctx.handles[0]);
    var ctx', after := ctx.(handles := [names[1..]] + ctx.handles[1..]), [todo[0][1..]] + todo[1..];
    var w := ProcessEntry(fs, ctx', n.name, want);
    assert WalkOn(fs, root, ctx, want) == w;
    StandsIgnoresFile(fs, root, ctx', after, p, w.ctx.unread);
  }

  lemma {:induction false} StandsIgnoresFile(fs: FileSystem, root: Path, ctx: SendCtx, todo: seq<seq<Node>>, p: Path,
                                             unread: Option<seq<byte>>)
    requires Stands(fs, root, ctx, todo, p)
    ensures Stands(fs, root, ctx.(unread := unread), todo, p)
    decreases |todo|
  {
    if |todo| > 1 {
      StandsIgnoresFile(fs, root, ctx.(handles := ctx.handles[1..], dirName := PopPath(p)), todo[1..], PopPath(p),
                        unread);
    }
  }

  /** The first call: the root opens, and everything below it is owed. */
  lemma WalkStarts(fs: FileSystem, root: Path, n: Node, want: nat)
    requires n.Dir? && Holds(fs, root, n) && BaseName(root) == n.name
    ensures var w := WalkOn(fs, root, NO_CTX, want);
            && w.answer == EnterDir(n.name, n.mode)
            && w.ctx.unread == None
            && Stands(fs, root, w.ctx, [n.children], root)
    ensures forall preserve :: Items(n, preserve) == [DirItem(n.name, n.mode)] + Owed([n.children], preserve)
  {
    forall preserve
      ensures Items(n, preserve) == [DirItem(n.name, n.mode)] + Owed([n.children], preserve)
    {
      assert Owed([n.children], preserve) == ItemsOf(n.children, preserve) + [EndItem];
    }
  }
}
