/**
 * The transfer as a whole: for every directory tree and every schedule of the
 * two sides' passes, neither side fails, the transfer can always be driven to
 * its end, and what the receive callbacks built by then is the tree.
 */
module ScpRoundTrip {
  import opened Bytes
  import opened ScpText
  import opened Dialogue
  import opened ScpTree
  import opened ScpSession
  import opened ScpSourceSide
  import opened ScpSourceMoves
  import opened ScpSinkMoves
  import Snk = ScpSink
  import Walk = ScpWalk

  const AT_START := Place(0, [], [], 0, false)

  /** Nothing is under way, and the two scripts answer each other. */
  lemma StartCoherent(all: seq<Item>, x: Session)
    requires x.src.state.Begin? && x.snk.state.Begin? && x.ab == [] && x.ba == []
    ensures Coherent(ConfigOf(all, x, AT_START))
  {
    hide Matched, SourceScript, SinkScript;
    ScriptsMatch(all);
    var a, b := [Rcv(Good)] + SourceScript(all), [Snd(Good)] + SinkScript(all);
    GreetingMatches();
    MatchedAppend([Rcv(Good)], [Snd(Good)], SourceScript(all), SinkScript(all));
    assert all[0..] == all;
    var c := ConfigOf(all, x, AT_START);
    assert c == Config(a, b, [], []);
    assert Sends(c.ab) + c.a == a && Sends(c.ba) + c.b == b;
  }

  lemma StartBuilt(r: Request)
    ensures SinkWalks(r, Snk.START, AT_START)
  {
    hide Items, AllItems;
    assert AllItems(r)[..0] == [];
    assert Replay([]) == Some(Dest([], None));
  }

  lemma StartInv(r: Request)
    requires ValidRequest(r)
    ensures Inv(r, Start(r.preserve), AT_START)
  {
    hide Coherent, Items, Walk.Holds, Carriable, SinkWalks, AllItems, SourceScript, SinkScript;
    StartCoherent(AllItems(r), Start(r.preserve));
    StartBuilt(r);
    assert 0 < |AllItems(r)| by { TreeHasItems(r); }
  }

  lemma TreeHasItems(r: Request)
    ensures 0 < |AllItems(r)|
  {
  }

  lemma GreetingMatches()
    ensures Matched<Token>([Rcv(Good)], [Snd(Good)])
  {
    assert [Rcv(Good)][1..] == [] && [Snd(Good)][1..] == [];
  }

  function Fuel(r: Request, x: Session, g: Place): nat {
    SourceFuel(r, x, g) + SinkFuel(r, x, g)
  }

  lemma SourceMoveKeepsSinkFuel(r: Request, x: Session, y: Session, g: Place, g': Place)
    requires y.snk == x.snk && g'.i == g.i && g'.stamped == g.stamped
    ensures SinkFuel(r, y, g') == SinkFuel(r, x, g)
  {
    hide AllItems, SinkScript, SinkRest;
  }

  lemma SinkMoveKeepsSourceFuel(r: Request, x: Session, y: Session, g: Place, g': Place)
    requires y.src == x.src && g'.j == g.j
    ensures SourceFuel(r, y, g') == SourceFuel(r, x, g)
  {
    hide AllItems, SourceScript, SourceRest;
  }

  predicate Blocked(x: Session, c: Choice) {
    if c.SourceMoves? then SourceBlocked(x) else SinkBlocked(x)
  }

  lemma Move(r: Request, x: Session, g: Place, c: Choice) returns (g': Place)
    requires ValidRequest(r) && Inv(r, x, g)
    ensures Inv(r, Next(r.fs, r.root, x, c), g')
    ensures !Blocked(x, c) && c.n > 0 ==> Fuel(r, Next(r.fs, r.root, x, c), g') < Fuel(r, x, g)
  {
    hide Inv, SourceStep, SinkStep, SourceFuel, SinkFuel, ValidRequest;
    if c.SourceMoves? {
      g' := SourceMove(r, x, g, c.n);
      SourceMoveKeepsSinkFuel(r, x, SourceStep(r.fs, r.root, x, c.n), g, g');
    } else {
      g' := SinkMove(r, x, g, c.n);
      SinkMoveKeepsSourceFuel(r, x, SinkStep(x, c.n), g, g');
    }
  }

  lemma {:induction false} PlayKeeps(r: Request, x: Session, g: Place, schedule: seq<Choice>) returns (g': Place)
    requires ValidRequest(r) && Inv(r, x, g)
    ensures Inv(r, Play(r.fs, r.root, x, schedule), g')
    decreases |schedule|
  {
    hide Inv, Next, ValidRequest;
    g' := g;
    if schedule != [] {
      var g1 := Move(r, x, g, schedule[0]);
      g' := PlayKeeps(r, Next(r.fs, r.root, x, schedule[0]), g1, schedule[1..]);
    }
  }

  predicate Finished(x: Session) {
    x.src.state.Done? && x.snk.state.Done? && !x.failed
  }

  /** What the receive callbacks have built when the sink is done. */
  lemma DoneBuildsTree(r: Request, x: Session, g: Place)
    requires Inv(r, x, g) && x.snk.state.Done?
    ensures Replay(x.snk.log) == Some(Dest([Frame([], 0, [Arrived(r.tree, r.preserve)])], None))
  {
    hide Inv, Items, PutItems, Replay, Arrived;
    InvSink(r, x, g);
    assert AllItems(r)[..g.i] == AllItems(r);
    ItemsRebuild(r.tree, r.preserve, BASE);
    assert [] + [Arrived(r.tree, r.preserve)] == [Arrived(r.tree, r.preserve)];
    assert BASE[1..] == [];
    assert AddChild(BASE, Arrived(r.tree, r.preserve)) == [Frame([], 0, [Arrived(r.tree, r.preserve)])];
  }

  /** The round trip: on every schedule neither side fails, and once the sink is
      done its callbacks have rebuilt the tree, with the same names and contents,
      modes cut to 0777 and, with -p, the same file times. */
  lemma RoundTrip(r: Request, schedule: seq<Choice>)
    requires ValidRequest(r)
    ensures var x := Play(r.fs, r.root, Start(r.preserve), schedule);
            && !x.failed
            && (x.snk.state.Done? ==>
                  Replay(x.snk.log) == Some(Dest([Frame([], 0, [Arrived(r.tree, r.preserve)])], None)))
  {
    hide Inv, Replay, Arrived, ValidRequest, Play;
    StartInv(r);
    var g := PlayKeeps(r, Start(r.preserve), AT_START, schedule);
    var x := Play(r.fs, r.root, Start(r.preserve), schedule);
    InvSource(r, x, g);
    if x.snk.state.Done? {
      DoneBuildsTree(r, x, g);
    }
  }

  // ----------------------------------------------------------- no deadlock

  /** A source with nothing more to do is done. */
  lemma SourceIdle(r: Request, x: Session, g: Place)
    requires Inv(r, x, g) && SourceTodo(r, x, g) == []
    ensures x.src.state.Done?
  {
    hide Inv, AllItems, SourceScript;
    InvSource(r, x, g);
    if x.src.state.Transfer? && !x.src.headerSent {
      AboutToFetch(r.preserve, x.src, SourceCur(r, g), x.ctx.unread, StageOf(r, g));
      StillOwes(r, x, g);
      TodoAtFetch(r, x, g);
    }
  }

  lemma StillOwes(r: Request, x: Session, g: Place)
    requires Walking(r, x.ctx, g) && !StageOf(r, g).Fetched?
    ensures g.j < |AllItems(r)|
  {
    if g.j > 0 {
      hide Walk.Stands;
      Walk.OwedUnfolds(g.todo, r.preserve);
    }
  }

  /** A source blocked short of its end waits for a confirmation that is not
      there; a blocked sink likewise. */
  lemma BlockedWaits(r: Request, x: Session, g: Place)
    requires Inv(r, x, g)
    ensures SourceBlocked(x) ==> !CanAct(SourceTodo(r, x, g), Tokens(x.ba))
    ensures SinkBlocked(x) ==> !CanAct(SinkTodo(r, x, g), Tokens(x.ab))
    ensures SinkBlocked(x) && SinkTodo(r, x, g) == [] ==> x.snk.state.Done? || !x.src.state.Done?
  {
    hide Inv, AllItems, SourceScript, SinkScript, Built, PutItems;
    InvSource(r, x, g);
    InvSink(r, x, g);
    if x.snk.state.ReceiveMessage? && x.ab == [] {
      if SinkLeft(r, g) { LineNext(r, x, g); } else { NoneLeft(r, x, g); }
    }
    if x.snk.state.ReceiveFile? && Snk.Ask(x.snk) > 0 {
      DataNext(r, x, g, 1);
    }
  }

  /** No schedule leads to a point where both sides wait: short of the end, one of
      them can go on. */
  lemma SomeSideMoves(r: Request, x: Session, g: Place)
    requires Inv(r, x, g) && !Finished(x)
    ensures !SourceBlocked(x) || !SinkBlocked(x)
  {
    hide Inv, AllItems, SourceRest, SinkRest, SourceScript, SinkScript, SourceBlocked, SinkBlocked, Tokens,
         CanAct, SourceTodo, SinkTodo;
    assert !x.failed by { InvSource(r, x, g); }
    InvConfig(r, x, g);
    BlockedWaits(r, x, g);
    if SourceTodo(r, x, g) != [] || SinkTodo(r, x, g) != [] {
      NeverStuck(ConfigOf(AllItems(r), x, g));
    } else {
      SourceIdle(r, x, g);
    }
  }

  /** From every point of every run the transfer can be driven to its end. */
  lemma {:induction false} CanFinishFrom(r: Request, x: Session, g: Place) returns (schedule: seq<Choice>)
    requires ValidRequest(r) && Inv(r, x, g)
    ensures Finished(Play(r.fs, r.root, x, schedule))
    decreases Fuel(r, x, g)
  {
    hide Inv, ValidRequest, Fuel, SourceStep, SinkStep, SourceBlocked, SinkBlocked;
    if Finished(x) {
      schedule := [];
    } else {
      SomeSideMoves(r, x, g);
      var c := if !SourceBlocked(x) then SourceMoves(1) else SinkMoves(1);
      var g' := Move(r, x, g, c);
      var more := CanFinishFrom(r, Next(r.fs, r.root, x, c), g');
      schedule := [c] + more;
      assert schedule[1..] == more;
    }
  }

  lemma {:induction false} PlayAppend(r: Request, x: Session, a: seq<Choice>, b: seq<Choice>)
    ensures Play(r.fs, r.root, x, a + b) == Play(r.fs, r.root, Play(r.fs, r.root, x, a), b)
    decreases |a|
  {
    hide Next;
    if a == [] {
      assert a + b == b;
    } else {
      assert (a + b)[0] == a[0] && (a + b)[1..] == a[1..] + b;
      PlayAppend(r, Next(r.fs, r.root, x, a[0]), a[1..], b);
    }
  }

  /** Every run can be completed, and then both sides are done. */
  lemma EveryRunCanFinish(r: Request, schedule: seq<Choice>)
    requires ValidRequest(r)
    ensures exists more :: Finished(Play(r.fs, r.root, Start(r.preserve), schedule + more))
  {
    hide Inv, ValidRequest, Finished, Play;
    StartInv(r);
    var g := PlayKeeps(r, Start(r.preserve), AT_START, schedule);
    var more := CanFinishFrom(r, Play(r.fs, r.root, Start(r.preserve), schedule), g);
    PlayAppend(r, Start(r.preserve), schedule, more);
  }

  // ------------------------------------------------------- the assumption

  /** What a read returns on a stream that does not keep messages apart. */
  function Coalesced(q: seq<Packet>): seq<byte> {
    if q == [] then [] else q[0].bytes + Coalesced(q[1..])
  }

  /** After a file, the source may send its next control line as soon as the
      sink's confirmation is in, so that line can stand right behind the source's
      own confirmation. The sink's confirmation read asks for up to MSG_SZ octets
      and uses the first: a read that runs past the confirmation is taken for a
      good one and the line behind it is gone, so the sink waits for a line that
      will not come. */
  lemma CoalescedReadLosesLine(s: Snk.Sink, line: seq<byte>)
    requires s.state.ReceiveConfirmation? && |line| < MSG_SZ
    ensures var read := Coalesced([Packet([0], GoodMsg), Packet(line, LineMsg(EndControl))]);
            && Snk.Fits(s, Snk.Got(read, true, true))
            && Snk.Step(s, Snk.Got(read, true, true)) == Snk.Step(s, Snk.Got([0], true, true))
            && Snk.Step(s, Snk.Got(read, true, true)).s.state.ReceiveMessage?
            && Snk.Step(s, Snk.Got(read, true, true)).s.msg == s.msg
  {
    var q := [Packet([0], GoodMsg), Packet(line, LineMsg(EndControl))];
    assert q[1..] == [q[1]] && [q[1]][1..] == [];
    assert Coalesced([q[1]]) == line + Coalesced([]) == line;
    assert Coalesced(q) == [0] + line;
  }
}
