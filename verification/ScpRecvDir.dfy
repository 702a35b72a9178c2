/**
 * Where the default receive callback writes: a path string edited in place and a
 * directory descriptor with a record of the parents it was entered from. Other
 * processes may move directories between any two steps, so what each system call
 * returns is the outside's choice.
 */
module ScpRecvDir {
  import opened Bytes
  import opened ScpText
  import opened ScpTree

  /** Device and inode number. */
  type Identity = nat

  datatype Status = Success | BadArgument | PathTooLong | InvalidPath | InvalidState | StackEmpty

  // --------------------------------------------------------- path strings

  function NeedsSeparator(p: Path): bool {
    p != [] && !IsSeparator(p[|p| - 1])
  }

  function Joined(p: Path, name: Name): Path {
    (if NeedsSeparator(p) then p + [SLASH] else p) + name
  }

  /** The base with names entered one below the other. */
  function JoinedAll(base: Path, names: seq<Name>): Path {
    if names == [] then base else Joined(JoinedAll(base, names[..|names| - 1]), names[|names| - 1])
  }

  /** How much of the path is left when its last component is dropped. */
  function UpTo(p: Path, baseSz: nat, i: nat): (r: nat)
    requires i <= |p|
    ensures r <= i
  {
    if i > baseSz && !IsSeparator(p[i - 1]) then UpTo(p, baseSz, i - 1)
    else if i > baseSz then i - 1
    else i
  }

  function Up(p: Path, baseSz: nat): Path {
    p[..UpTo(p, baseSz, |p|)]
  }

  lemma {:induction false} UpStops(p: Path, baseSz: nat, i: nat, stop: nat)
    requires baseSz <= stop <= i <= |p|
    requires forall k :: stop <= k < i ==> !IsSeparator(p[k])
    requires stop == baseSz || IsSeparator(p[stop - 1])
    ensures UpTo(p, baseSz, i) == if stop > baseSz then stop - 1 else stop
    decreases i
  {
    if i > stop {
      UpStops(p, baseSz, i - 1, stop);
    }
  }

  lemma {:induction false} UpCuts(p: Path, baseSz: nat, i: nat, sep: nat)
    requires baseSz <= sep < i <= |p| && IsSeparator(p[sep])
    ensures UpTo(p, baseSz, i) >= sep
    decreases i
  {
    if !IsSeparator(p[i - 1]) {
      UpCuts(p, baseSz, i - 1, sep);
    }
  }

  /** A separator behind which the path may be cut without leaving a trace: the
      first octet of a name that needs no separator put before it. */
  predicate Joins(p: Path, name: Name) {
    forall i :: 0 <= i < |name| && IsSeparator(name[i]) ==> i == 0 && !NeedsSeparator(p)
  }

  /** Where the name stands in the joined path. */
  lemma JoinedHolds(p: Path, name: Name) returns (at: nat)
    ensures at == |p| + (if NeedsSeparator(p) then 1 else 0) && |Joined(p, name)| == at + |name|
    ensures Joined(p, name)[..|p|] == p
    ensures forall k :: 0 <= k < |name| ==> Joined(p, name)[at + k] == name[k]
    ensures at > |p| ==> Joined(p, name)[at - 1] == SLASH
  {
    at := |Joined(p, name)| - |name|;
  }

  /** Going up undoes a join for exactly these names, wherever the path is the base
      itself or ends in a name. */
  lemma UpUndoesJoinExactly(p: Path, baseSz: nat, name: Name)
    requires baseSz <= |p| && (|p| == baseSz || NeedsSeparator(p))
    ensures Up(Joined(p, name), baseSz) == p <==> Joins(p, name)
  {
    hide Joined, UpTo, NeedsSeparator;
    var q := Joined(p, name);
    var at := JoinedHolds(p, name);
    if i :| 0 <= i < |name| && IsSeparator(name[i]) && !(i == 0 && !NeedsSeparator(p)) {
      UpCuts(q, baseSz, |q|, at + i);
    } else {
      assert forall k :: at < k < |q| ==> q[k] == name[k - at];
      var stop := if name != [] && IsSeparator(name[0]) then at + 1 else at;
      assert stop == at < |q| ==> q[at] == name[0];
      UpStops(q, baseSz, |q|, stop);
    }
  }

  /** So it does for every name the sink lets through. */
  lemma UpUndoesJoin(p: Path, baseSz: nat, name: Name)
    requires baseSz <= |p| && NameAccepted(name)
    requires |p| == baseSz || NeedsSeparator(p)
    ensures Up(Joined(p, name), baseSz) == p
  {
    UpUndoesJoinExactly(p, baseSz, name);
  }

  /** Going up never cuts the base. */
  lemma UpKeepsBase(p: Path, baseSz: nat)
    requires baseSz <= |p|
    ensures Up(p, baseSz)[..|Up(p, baseSz)|] == Up(p, baseSz) && baseSz <= |Up(p, baseSz)|
    ensures Up(p, baseSz)[..baseSz] == p[..baseSz]
  {
    UpNotBelow(p, baseSz, |p|);
  }

  lemma {:induction false} UpNotBelow(p: Path, baseSz: nat, i: nat)
    requires baseSz <= i <= |p|
    ensures baseSz <= UpTo(p, baseSz, i)
  {
    if i > baseSz && !IsSeparator(p[i - 1]) {
      UpNotBelow(p, baseSz, i - 1);
    }
  }

  lemma {:induction false} NamesJoin(base: Path, names: seq<Name>)
    requires forall k :: 0 <= k < |names| ==> NameAccepted(names[k])
    ensures |base| <= |JoinedAll(base, names)| && JoinedAll(base, names)[..|base|] == base
    ensures names != [] ==> NeedsSeparator(JoinedAll(base, names))
    decreases |names|
  {
    if names != [] {
      NamesJoin(base, names[..|names| - 1]);
      var name := names[|names| - 1];
      var q := JoinedAll(base, names);
      assert q[|q| - 1] == name[|name| - 1];
    }
  }

  /** Dropping the last component of the joined path leaves the path of the names
      before it. */
  lemma UpLeaves(base: Path, names: seq<Name>)
    requires names != [] && forall k :: 0 <= k < |names| ==> NameAccepted(names[k])
    ensures Up(JoinedAll(base, names), |base|) == JoinedAll(base, names[..|names| - 1])
  {
    var before := names[..|names| - 1];
    NamesJoin(base, before);
    UpUndoesJoin(JoinedAll(base, before), |base|, names[|names| - 1]);
  }

  // ------------------------------------------------------------ the state

  /** What the outside answers while a directory is entered or left. */
  datatype EnterIo = EnterIo(made: bool, found: Option<Identity>, usable: bool)
  datatype LeaveIo = LeaveIo(parent: Option<Identity>, statted: bool)

  /** The descriptor and the parent records name what each depth was when it was
      entered. */
  predicate Records(fd: Option<Identity>, dirs: seq<Identity>, entered: seq<Identity>, depth: nat) {
    && |entered| == depth + 1 && fd == Some(entered[depth])
    && |dirs| == depth && forall k :: 0 <= k < depth ==> dirs[k] == entered[depth - 1 - k]
  }

  lemma RecordsPush(fd: Option<Identity>, dirs: seq<Identity>, entered: seq<Identity>, depth: nat, d: Identity)
    requires Records(fd, dirs, entered, depth)
    ensures Records(Some(d), [fd.value] + dirs, entered + [d], depth + 1)
  {
  }

  lemma RecordsPop(fd: Option<Identity>, dirs: seq<Identity>, entered: seq<Identity>, depth: nat)
    requires Records(fd, dirs, entered, depth) && depth > 0
    ensures dirs[0] == entered[depth - 1]
    ensures Records(Some(dirs[0]), dirs[1..], entered[..depth], depth - 1)
  {
  }

  lemma RecordsOpen(fd: Option<Identity>, dirs: seq<Identity>, entered: seq<Identity>, depth: nat)
    requires Records(fd, dirs, entered, depth)
    ensures fd.Some? && |entered| == depth + 1 && |dirs| == depth
  {
  }

  lemma NoNamesJoin(base: Path)
    ensures JoinedAll(base, []) == base
  {
  }

  predicate GoodNames(names: seq<Name>) {
    forall k :: 0 <= k < |names| ==> NameAccepted(names[k]) && NUL !in names[k]
  }

  lemma JoinedOneMore(base: Path, names: seq<Name>, name: Name)
    ensures JoinedAll(base, names + [name]) == Joined(JoinedAll(base, names), name)
  {
    assert (names + [name])[..|names|] == names;
  }

  class Receiver {
    const path: array<byte>            // scpRecvPath, a C string
    var baseSz: nat                    // scpRecvBaseSz
    var fd: Option<Identity>           // what scpRecvDirFd refers to
    var dirs: seq<Identity>            // scpRecvDirs, innermost parent first
    var depth: nat                     // scpDirDepth
    ghost var base: Path
    ghost var names: seq<Name>         // the names entered and not left
    ghost var entered: seq<Identity>   // what each depth was when it was entered

    /** The path is the base joined with the names entered; the descriptor and the
        parent records are what each depth was when it was entered. */
    ghost predicate Valid()
      reads this, path
    {
      && path.Length == PATH_SZ
      && Holds(JoinedAll(base, names)) && baseSz == |base|
      && GoodNames(names) && depth == |names| && Records(fd, dirs, entered, depth)
    }

    /** The C string in the path buffer. */
    ghost predicate Holds(p: Path)
      reads this, path
    {
      && |p| < path.Length && path[..|p|] == p && NUL !in p && path[|p|] == NUL
    }

    /** ScpRecvPathSet and ScpRecvDirOpen on a base directory that opens. */
    constructor (basePath: Path, dir: Identity)
      requires |basePath| < PATH_SZ && NUL !in basePath
      ensures Valid() && base == basePath && names == [] && entered == [dir]
      ensures fresh(path)
    {
      path := new byte[PATH_SZ](i => if 0 <= i < |basePath| then basePath[i] else NUL);
      baseSz, fd, dirs, depth := |basePath|, Some(dir), [], 0;
      base, names, entered := basePath, [], [dir];
      new;
      assert path[..|basePath|] == basePath;
    }

    method StrLen(ghost p: Path) returns (n: nat)
      requires Holds(p)
      ensures n == |p|
    {
      n := 0;
      while path[n] != NUL
        invariant n <= |p|
        decreases |p| - n
      {
        assert n < |p| ==> path[n] == path[..|p|][n];
        n := n + 1;
      }
    }

    /** The WMEMCPY of a name and its terminator. */
    method CopyName(name: Name, at: nat)
      requires at + |name| < path.Length && NUL !in name && NUL !in path[..at]
      modifies path
      ensures Holds(old(path[..at]) + name)
    {
      for i := 0 to |name|
        invariant path[..at] == old(path[..at]) && path[at..at + i] == name[..i]
      {
        path[at + i] := name[i];
      }
      path[at + |name|] := NUL;
      assert path[..at + |name|] == path[..at] + path[at..at + |name|];
    }

    /** ScpRecvPathJoin */
    method PathJoin(name: Name, ghost p: Path) returns (ret: Status)
      requires path.Length == PATH_SZ && Holds(p) && NUL !in name
      modifies path
      ensures ret == Success || ret == PathTooLong
      ensures ret == Success <==> |Joined(p, name)| < PATH_SZ
      ensures ret == Success ==> Holds(Joined(p, name))
      ensures ret != Success ==> Holds(p)
    {
      var pathSz := StrLen(p);
      assert pathSz > 0 ==> path[pathSz - 1] == p[pathSz - 1];
      var delim := if pathSz > 0 && !IsSeparator(path[pathSz - 1]) then 1 else 0;
      if pathSz + delim + |name| >= PATH_SZ {
        return PathTooLong;
      }
      ghost var head := if NeedsSeparator(p) then p + [SLASH] else p;
      if delim == 1 {
        path[pathSz] := SLASH;
        pathSz := pathSz + 1;
      }
      assert path[..pathSz] == head;
      CopyName(name, pathSz);
      return Success;
    }

    /** ScpRecvPathUp */
    method PathUp(ghost p: Path)
      requires path.Length == PATH_SZ && Holds(p)
      modifies path
      ensures Holds(Up(p, baseSz))
    {
      var i := StrLen(p);
      while i > baseSz && !IsSeparator(path[i - 1])
        invariant 0 <= i <= |p| && UpTo(p, baseSz, i) == UpTo(p, baseSz, |p|)
      {
        assert path[i - 1] == p[i - 1];
        i := i - 1;
      }
      assert i > 0 ==> path[i - 1] == p[i - 1];
      if i > baseSz {
        i := i - 1;
      }
      assert i == UpTo(p, baseSz, |p|);
      assert path[..i] == p[..i];
      path[i] := NUL;
    }

    /** What a step that does not go through leaves alone. */
    twostate predicate Untouched()
      reads this, path
    {
      && Valid() && fd == old(fd) && dirs == old(dirs) && depth == old(depth)
      && base == old(base) && names == old(names) && entered == old(entered)
    }

    /** ScpRecvDirEnter: a name is entered, and its directory's identity is what
        the open found; or nothing changes. */
    method Enter(name: Name, io: EnterIo) returns (ret: Status)
      requires Valid() && NameAccepted(name) && NUL !in name
      modifies this, path
      ensures ret == Success <==>
              |Joined(old(JoinedAll(base, names)), name)| < PATH_SZ && io.made && io.found.Some? && io.usable
      ensures ret == Success ==>
                && Valid() && base == old(base) && names == old(names) + [name]
                && entered == old(entered) + [io.found.value]
      ensures ret != Success ==> Untouched()
    {
      hide JoinedAll, Joined, Records, NameAccepted, Up;
      ghost var p := JoinedAll(base, names);
      ret := PathJoin(name, p);
      if ret != Success {
        return;
      }
      if !io.made || io.found.None? || !io.usable {
        PathUp(Joined(p, name));
        NamesJoin(base, names);
        assert names == [] ==> p == base by { NoNamesJoin(base); }
        UpUndoesJoin(p, baseSz, name);
        return InvalidPath;
      }
      JoinedOneMore(base, names, name);
      RecordsPush(fd, dirs, entered, depth, io.found.value);
      assert fd.Some? by { RecordsOpen(fd, dirs, entered, depth); }
      dirs := [fd.value] + dirs;
      fd := io.found;
      depth := depth + 1;
      names, entered := names + [name], entered + [io.found.value];
    }

    /** ScpRecvDirLeave: the parent is only taken when it is the directory that was
        entered from, so the descriptor is again what that depth was. */
    method Leave(io: LeaveIo) returns (ret: Status)
      requires Valid()
      modifies this, path
      ensures ret == Success <==>
              old(depth) > 0 && io.statted && io.parent == Some(old(entered[if depth == 0 then 0 else depth - 1]))
      ensures ret == Success ==>
                && Valid() && base == old(base)
                && names == old(names)[..|old(names)| - 1] && entered == old(entered)[..|old(names)|]
      ensures ret != Success ==> Untouched()
    {
      hide JoinedAll, Up, Records;
      RecordsOpen(fd, dirs, entered, depth);
      if depth == 0 {
        return StackEmpty;
      }
      RecordsPop(fd, dirs, entered, depth);
      if io.parent.None? || !io.statted || io.parent.value != dirs[0] {
        return InvalidPath;
      }
      dirs := dirs[1..];
      fd := io.parent;
      UpLeaves(base, names);
      PathUp(JoinedAll(base, names));
      depth := depth - 1;
      names, entered := names[..|names| - 1], entered[..|names|];
      return Success;
    }

    /** Any sequence of enters and leaves, whatever the outside does in between:
        each depth that was there at the start and is not left is still what it
        was, and so is the base. */
    method Drive(ops: seq<Op>)
      requires Valid()
      requires forall k :: 0 <= k < |ops| ==> ops[k].Into? ==> NameAccepted(ops[k].name) && NUL !in ops[k].name
      modifies this, path
      ensures Valid() && base == old(base) && entered[0] == old(entered[0])
      ensures Holds(JoinedAll(base, names)) && fd == Some(entered[depth])
    {
      for i := 0 to |ops|
        invariant Valid() && base == old(base) && entered[0] == old(entered[0])
      {
        var ret;
        match ops[i] {
          case Into(name, io) => ret := Enter(name, io);
          case Out(io) => ret := Leave(io);
        }
      }
    }
  }

  datatype Op = Into(name: Name, enter: EnterIo) | Out(leave: LeaveIo)
}
