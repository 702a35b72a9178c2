/**
 * The server's and the client's handshake drivers (sections 4.2, 7.1 and 10 of
 * RFC 4253), each called again and again until it stops asking for more. A call
 * left with output queued flushes it first, and that flush may advance the state.
 */
module Handshake {

  datatype Msg =
    | Version | KexInit | KexDhInit
    | ServiceRequest | ServiceAccept
    | UserAuthRequest | UserAuthSuccess
    | ChannelOpen | AgentOpen | AgentRequest | TerminalRequest | ChannelRequest
    | Reply   // framed while a received message was handled

  datatype Error = NoError | WantRead | WantWrite | AuthPending | Hard {
    /** What a caller answers by calling again. */
    predicate Retry() {
      !Hard?
    }
  }

  /** A call's answer; SftpAccept is whatever wolfSSH_SFTP_accept answers, to which
      the call goes on. */
  datatype Ret = Success | Fatal | InvalidState | ScpInit | ScpComplete | SftpAccept

  /** The driver's own messages, in the order they were framed. */
  ghost function Mine(framed: seq<Msg>): seq<Msg> {
    if framed == [] then []
    else
      var n := |framed| - 1;
      Mine(framed[..n]) + if framed[n].Reply? then [] else [framed[n]]
  }

  lemma MineSnoc(framed: seq<Msg>, m: Msg)
    ensures Mine(framed + [m]) == Mine(framed) + if m.Reply? then [] else [m]
  {
    assert (framed + [m])[..|framed|] == framed;
  }

  lemma {:induction false} MineSplits(a: seq<Msg>, b: seq<Msg>)
    ensures Mine(a + b) == Mine(a) + Mine(b)
    decreases |b|
  {
    if b == [] {
      assert a + b == a;
    } else {
      var n := |b| - 1;
      MineSplits(a, b[..n]);
      assert a + b == (a + b[..n]) + [b[n]] && b == b[..n] + [b[n]];
      MineSnoc(a + b[..n], b[n]);
    }
  }

  /** What becomes of one flush of the output buffer: everything leaves, only the
      first packets do, or the connection is broken. */
  datatype FlushIo = All | Part(n: nat) | Broken

  /** The output buffer: packets leave it for the wire in the order they came. */
  class Output {
    var wire: seq<Msg>
    var queued: seq<Msg>         // the first of these may be out in part
    var outcomes: seq<FlushIo>   // of the flushes to come; all that follow take everything

    ghost function Framed(): seq<Msg>
      reads `wire, `queued
    {
      wire + queued
    }

    constructor ()
      ensures wire == queued == [] && outcomes == []
    {
      wire, queued, outcomes := [], [], [];
    }

    /** wolfSSH_SendPacket, which never asks for a read. */
    method Flush() returns (err: Error)
      modifies this
      ensures err.NoError? || err.WantWrite? || err.Hard?
      ensures err.Retry() ==> Framed() == old(Framed()) && (err.NoError? <==> queued == [])
      ensures old(outcomes) == [] ==> err.NoError? && outcomes == []
      ensures outcomes == if old(outcomes) == [] then [] else old(outcomes)[1..]
      ensures err.WantWrite? ==>
              && old(outcomes) != [] && old(outcomes)[0].Part? && old(outcomes)[0].n < |old(queued)|
              && wire == old(wire) + old(queued)[..old(outcomes)[0].n]
    {
      var io := if outcomes == [] then All else outcomes[0];
      outcomes := if outcomes == [] then [] else outcomes[1..];
      if io.Broken? {
        wire, queued := *, *;
        return Hard;
      }
      if io.Part? && io.n < |queued| {
        assert wire + queued[..io.n] + queued[io.n..] == wire + queued;
        wire, queued := wire + queued[..io.n], queued[io.n..];
        return WantWrite;
      }
      wire, queued := wire + queued, [];
      return NoError;
    }

    /** A Send function: the packet is framed before the flush, so an answer of
        want-write has it queued. */
    method Send(m: Msg) returns (err: Error)
      modifies this
      ensures err.NoError? || err.WantWrite? || err.Hard?
      ensures err.Retry() ==> Framed() == old(Framed()) + [m] && (err.NoError? <==> queued == [])
      ensures old(outcomes) == [] ==> err.NoError? && outcomes == []
    {
      assert wire + (queued + [m]) == wire + queued + [m];
      queued := queued + [m];
      err := Flush();
    }
  }

  /** The session the peer has been granted on the first channel, as far as the
      server goes its own way for it. */
  datatype Grant = NoSession | Scp | Sftp | OtherSession {
    predicate Diverts() {
      Scp? || Sftp?
    }
  }

  /** What the peer's messages have led to. */
  datatype Peer = Peer(state: nat, isKeying: bool, granted: Grant)

  /** One message of the peer, by what handling it leads to: besides, it may end the
      session, ask for the agent, have replies framed, or leave the user's
      authentication pending. */
  datatype Arrival = Arrival(peer: Peer, disconnected: bool, useAgent: bool, replies: nat, pends: bool)

  /** What can be read before a call, what becomes of its flushes, and whether
      DoScpRequest, where it comes to that, goes through. */
  datatype Turn = Turn(inbox: seq<Arrival>, outcomes: seq<FlushIo>, scpDone: bool)

  /** How things stand once all there is to read has been read. */
  function Outlook(now: Peer, inbox: seq<Arrival>): Peer {
    if inbox == [] then now else inbox[|inbox| - 1].peer
  }

  /** No message ends the session or leaves the authentication pending. */
  predicate Calm(inbox: seq<Arrival>) {
    forall a <- inbox :: !a.disconnected && !a.pends
  }

  /** The client is not done before its last message. */
  predicate DoneLast(inbox: seq<Arrival>) {
    forall k :: 0 <= k < |inbox| - 1 ==> inbox[k].peer.state < CLIENT_DONE
  }

  lemma FirstHandled(now: Peer, inbox: seq<Arrival>)
    requires inbox != []
    ensures Outlook(inbox[0].peer, inbox[1..]) == Outlook(now, inbox)
    ensures Calm(inbox) ==> Calm(inbox[1..]) && !inbox[0].disconnected && !inbox[0].pends
    ensures DoneLast(inbox) && inbox[1..] != [] ==> DoneLast(inbox[1..]) && inbox[0].peer.state < CLIENT_DONE
  {
  }

  /** What both endpoints keep about the peer, and DoReceive's part in it. */
  class Session {
    const output: Output
    var error: Error
    var peerState: nat        // clientState on the server, serverState on the client
    var isKeying: bool
    var granted: Grant
    var useAgent: bool
    var disconnected: bool
    var inbox: seq<Arrival>   // what can be read before a read would block
    ghost var heard: nat      // the furthest the peer has ever been
    ghost var keyed: bool     // a key exchange has come to its end

    constructor ()
      ensures error == NoError && peerState == heard == 0 && !keyed && fresh(output) && output.Framed() == []
      ensures Smooth() && inbox == []
    {
      output := new Output();
      error, peerState, isKeying, granted, useAgent, disconnected := NoError, 0, false, NoSession, false, false;
      inbox, heard, keyed := [], 0, false;
    }

    ghost function Ahead(): Peer
      reads `inbox, `peerState, `isKeying, `granted
    {
      Outlook(Peer(peerState, isKeying, granted), inbox)
    }

    /** All output leaves at once, and the peer's messages are calm. */
    ghost predicate Smooth()
      reads `inbox, `disconnected, output`outcomes
    {
      output.outcomes == [] && !disconnected && Calm(inbox)
    }

    ghost predicate Undone()
      reads `inbox, `peerState
    {
      inbox != [] ==> peerState < CLIENT_DONE && DoneLast(inbox)
    }

    /** A Send function of a driver, its result recorded. Keying starts once the
        KEXINIT is framed. */
    method Send(m: Msg) returns (ok: bool)
      requires !m.Reply?
      modifies `error, `isKeying, output
      ensures isKeying == (old(isKeying) || (m.KexInit? && error.Retry()))
      ensures error.NoError? || error.WantWrite? || error.Hard?
      ensures error.Retry() ==> Mine(output.Framed()) == Mine(old(output.Framed())) + [m]
      ensures ok <==> error.NoError?
      ensures error.WantWrite? ==> output.queued != []
      ensures ok ==> output.queued == []
      ensures old(output.outcomes) == [] ==> ok && output.outcomes == []
    {
      MineSnoc(output.Framed(), m);
      hide Mine;
      error := output.Send(m);
      ok := error.NoError?;
      if m.KexInit? && (ok || error.WantWrite?) {
        isKeying := true;
      }
    }

    /** DoReceive and DoProtoId: the peer's next message may change what is known
        of it and have replies framed; a read or a reply's write may not finish.
        A key exchange that was on its way and no longer is has agreed keys. */
    method Receive() returns (ok: bool)
      requires peerState <= heard
      modifies this, output
      ensures if ok then error == old(error) else error != NoError
      ensures ok ==> |inbox| < |old(inbox)|
      ensures old(heard) <= heard && peerState <= heard
      ensures (old(keyed) ==> keyed) && (old(isKeying || keyed) ==> isKeying || keyed)
      ensures error.Retry() || ok ==> Mine(output.Framed()) == Mine(old(output.Framed()))
      ensures Ahead() == old(Ahead()) && (old(Undone()) ==> Undone())
      ensures !ok && error.WantRead? ==> inbox == [] && peerState == old(peerState) && isKeying == old(isKeying)
      ensures old(Smooth()) ==> Smooth() && (ok || error.WantRead?)
      ensures ok ==> old(inbox) != [] && !old(inbox)[0].pends
      ensures ok && old(output.queued) == [] ==> output.queued == []
    {
      hide Mine, Calm, Ahead, Undone;
      if inbox == [] {
        error := WantRead;
        return false;
      }
      var a := Handle();
      var err := Replies(a.replies);
      if err.NoError? && a.pends {
        err := AuthPending;
      }
      ok := err.NoError?;
      if !ok {
        error := err;
      }
    }

    /** The next message and what handling it leads to. */
    method Handle() returns (a: Arrival)
      requires peerState <= heard && inbox != []
      modifies this
      ensures error == old(error)
      ensures |inbox| < |old(inbox)| && Ahead() == old(Ahead()) && (old(Undone()) ==> Undone())
      ensures old(heard) <= heard && peerState <= heard
      ensures (old(keyed) ==> keyed) && (old(isKeying || keyed) ==> isKeying || keyed)
      ensures old(Smooth()) ==> Smooth() && !a.pends
      ensures a == old(inbox)[0] && useAgent == (old(useAgent) || a.useAgent)
    {
      hide Ahead, Undone, Smooth;
      var wasKeying := isKeying;
      a := Next();
      useAgent := useAgent || a.useAgent;
      heard, keyed := if peerState > heard then peerState else heard, keyed || (wasKeying && !isKeying);
    }

    method Next() returns (a: Arrival)
      requires inbox != []
      modifies `inbox, `peerState, `isKeying, `granted, `disconnected
      ensures |inbox| < |old(inbox)| && Ahead() == old(Ahead()) && (old(Undone()) ==> Undone())
      ensures old(Smooth()) ==> Smooth() && !a.pends
      ensures a == old(inbox)[0]
    {
      hide Outlook, Calm, DoneLast;
      FirstHandled(Peer(peerState, isKeying, granted), inbox);
      a := inbox[0];
      inbox, peerState, isKeying, granted, disconnected :=
        inbox[1..], a.peer.state, a.peer.isKeying, a.peer.granted, disconnected || a.disconnected;
    }

    /** The replies to one message, until one cannot be written. */
    method Replies(n: nat) returns (err: Error)
      modifies output
      ensures err.NoError? || err.WantWrite? || err.Hard?
      ensures err.Retry() ==> Mine(output.Framed()) == Mine(old(output.Framed()))
      ensures old(output.outcomes) == [] ==> err.NoError? && output.outcomes == []
      ensures err.NoError? && old(output.queued) == [] ==> output.queued == []
    {
      err := NoError;
      var i := 0;
      while i < n && err.NoError?
        modifies output
        invariant err.NoError? || err.WantWrite? || err.Hard?
        invariant err.Retry() ==> Mine(output.Framed()) == Mine(old(output.Framed()))
        invariant old(output.outcomes) == [] ==> err.NoError? && output.outcomes == []
        invariant err.NoError? && old(output.queued) == [] ==> output.queued == []
      {
        MineSnoc(output.Framed(), Reply);
        err := output.Send(Reply);
        i := i + 1;
      }
    }
  }

  // -------------------------------------------------------------- accept

  // AcceptStates
  const ACCEPT_BEGIN := 0
  const ACCEPT_SERVER_VERSION_SENT := 1
  const ACCEPT_CLIENT_VERSION_DONE := 2
  const ACCEPT_SERVER_KEXINIT_SENT := 3
  const ACCEPT_KEYED := 4
  const ACCEPT_CLIENT_USERAUTH_REQUEST_DONE := 5
  const ACCEPT_SERVER_USERAUTH_ACCEPT_SENT := 6
  const ACCEPT_CLIENT_USERAUTH_DONE := 7
  const ACCEPT_SERVER_USERAUTH_SENT := 8
  const ACCEPT_SERVER_CHANNEL_ACCEPT_SENT := 9
  const ACCEPT_CLIENT_SESSION_ESTABLISHED := 10
  const ACCEPT_INIT_SCP_TRANSFER := 11
  const ACCEPT_INIT_SFTP := 12

  // ClientStates
  const CLIENT_VERSION_DONE := 1
  const CLIENT_USERAUTH_REQUEST_DONE := 4
  const CLIENT_USERAUTH_DONE := 5
  const CLIENT_CHANNEL_OPEN_DONE := 6
  const CLIENT_DONE := 7

  const SERVER_SCRIPT: seq<Msg> := [Version, KexInit, ServiceAccept, UserAuthSuccess]

  /** The states of the server whose step is a send. */
  predicate ServerSends(state: nat) {
    || state == ACCEPT_BEGIN || state == ACCEPT_CLIENT_VERSION_DONE
    || state == ACCEPT_CLIENT_USERAUTH_REQUEST_DONE || state == ACCEPT_CLIENT_USERAUTH_DONE
  }

  /** How many of the handshake's messages come before a state. */
  function ServerSent(state: nat): (n: nat)
    ensures n <= 4 && (ServerSends(state) ==> n < 4)
  {
    if state <= 0 then 0 else if state <= 2 then 1 else if state <= 5 then 2 else if state <= 7 then 3 else 4
  }

  /** How far the client must have been for the server to be in a state; a flush
      may leave SERVER_USERAUTH_SENT before the channel open has come. */
  function ClientNeeded(state: nat): nat {
    if state < ACCEPT_CLIENT_VERSION_DONE then 0
    else if state < ACCEPT_CLIENT_USERAUTH_REQUEST_DONE then CLIENT_VERSION_DONE
    else if state < ACCEPT_CLIENT_USERAUTH_DONE then CLIENT_USERAUTH_REQUEST_DONE
    else if state < ACCEPT_CLIENT_SESSION_ESTABLISHED then CLIENT_USERAUTH_DONE
    else CLIENT_DONE
  }

  /** How far the client must be for a wait of the server to end. */
  function WaitsFor(state: nat): nat {
    if state == ACCEPT_SERVER_VERSION_SENT then CLIENT_VERSION_DONE
    else if state == ACCEPT_KEYED then CLIENT_USERAUTH_REQUEST_DONE
    else if state == ACCEPT_SERVER_USERAUTH_ACCEPT_SENT then CLIENT_USERAUTH_DONE
    else if state == ACCEPT_SERVER_USERAUTH_SENT then CLIENT_CHANNEL_OPEN_DONE
    else if state == ACCEPT_SERVER_CHANNEL_ACCEPT_SENT then CLIENT_DONE
    else 0
  }

  /** Where the session that was granted takes the last state. */
  function Destination(granted: Grant): nat {
    match granted
    case Scp => ACCEPT_INIT_SCP_TRANSFER
    case Sftp => ACCEPT_INIT_SFTP
    case _ => ACCEPT_CLIENT_SESSION_ESTABLISHED
  }

  /** What the call that gets there answers. */
  function Answer(granted: Grant): Ret {
    match granted
    case Scp => ScpInit
    case Sftp => SftpAccept
    case _ => Success
  }

  /** Where a call is to stop: with the application driving the channels, as soon
      as the user is authenticated, unless the session has gone by that. */
  function StopState(appChannels: bool, acceptState: nat): nat {
    if appChannels && acceptState <= ACCEPT_SERVER_USERAUTH_SENT then ACCEPT_SERVER_USERAUTH_SENT
    else ACCEPT_CLIENT_SESSION_ESTABLISHED
  }

  class Server {
    const ssh: Session
    var acceptState: nat
    var agentOpen: bool      // ssh->agent is set: the agent channel was opened
    var scpDone: bool        // what DoScpRequest will come to

    ghost function Repr(): set<object>
    {
      {this, ssh, ssh.output}
    }

    /** n of the handshake's messages have been framed, once each and in order, and
        then, once it is open, the agent channel's. With the KEXINIT among them, keys
        are being agreed or have been. */
    ghost predicate Framed(n: nat)
      reads `agentOpen, ssh`isKeying, ssh`keyed, ssh.output`wire, ssh.output`queued
    {
      && n <= 4 && (n >= 2 ==> ssh.isKeying || ssh.keyed)
      && Mine(ssh.output.Framed()) == SERVER_SCRIPT[..n] + if agentOpen then [AgentOpen] else []
    }

    ghost predicate Sane()
      reads this, ssh
    {
      && acceptState <= ACCEPT_INIT_SFTP
      && (agentOpen ==> acceptState >= ACCEPT_SERVER_CHANNEL_ACCEPT_SENT)
      && (acceptState >= ACCEPT_CLIENT_SESSION_ESTABLISHED ==> ssh.peerState >= CLIENT_DONE)
      && ssh.peerState <= ssh.heard && ssh.heard >= ClientNeeded(acceptState)
      && (acceptState >= ACCEPT_KEYED ==> ssh.keyed)
    }

    /** Between calls: a state that sends is only ever left waiting for the rest of
        its own message to go out, except at the very start. */
    ghost predicate InStep()
      reads Repr()
    {
      && Sane()
      && (ssh.error.Retry() ==>
            if !ServerSends(acceptState) then Framed(ServerSent(acceptState))
            else if ssh.error.WantWrite? then
              ssh.output.queued != [] && Framed(ServerSent(acceptState) + 1)
            else acceptState == ACCEPT_BEGIN && ssh.output.queued == [] && Framed(0))
    }

    /** Within a call: what the state says has been framed. */
    ghost predicate InCall()
      reads Repr()
    {
      Sane() && ssh.error == NoError && Framed(ServerSent(acceptState))
    }

    /** And is out. */
    ghost predicate AtState()
      reads Repr()
    {
      && InCall()
      && (acceptState < ACCEPT_CLIENT_SESSION_ESTABLISHED ==> ssh.output.queued == [])
    }

    /** The state's wait is not over, and there is nothing left to read. */
    predicate Waiting()
      reads this, ssh
    {
      && ssh.inbox == []
      && (ssh.peerState < WaitsFor(acceptState) || (acceptState == ACCEPT_SERVER_KEXINIT_SENT && ssh.isKeying))
    }

    /** What may stop a call: a read is only asked for in a wait that is not over,
        and where all goes smoothly nothing else does. How things will stand is for
        the peer, but for the server's own KEXINIT. */
    twostate predicate Follows()
      reads this, ssh, ssh.output
    {
      && (ssh.error.WantRead? ==> Waiting())
      && (old(ssh.Smooth()) ==> ssh.Smooth() && (ssh.error.NoError? || ssh.error.WantRead?))
      && (old(ssh.Undone()) ==> ssh.Undone())
      && (agentOpen ==> old(agentOpen) || ssh.useAgent) && old(ssh.heard) <= ssh.heard
      && (|| ssh.Ahead() == old(ssh.Ahead())
          || (old(acceptState) < ACCEPT_SERVER_KEXINIT_SENT && ssh.Ahead() == old(ssh.Ahead()).(isKeying := true)))
    }

    constructor ()
      ensures InStep() && acceptState == ACCEPT_BEGIN && fresh(ssh) && fresh(ssh.output)
      ensures ssh.error == NoError && ssh.output.Framed() == [] && !agentOpen && ssh.Smooth() && ssh.peerState == 0
    {
      ssh := new Session();
      acceptState, agentOpen, scpDone := ACCEPT_BEGIN, false, false;
    }

    /** One of the driver's sends. */
    method SendStep(m: Msg) returns (ok: bool)
      requires AtState() && ServerSends(acceptState) && m == SERVER_SCRIPT[ServerSent(acceptState)]
      modifies this`acceptState, ssh`error, ssh`isKeying, ssh.output
      ensures if ok then AtState() && acceptState == old(acceptState) + 1
              else InStep() && acceptState == old(acceptState)
      ensures Follows() && (ok <==> ssh.error.NoError?)
    {
      hide Mine;
      var n := ServerSent(acceptState);
      assert SERVER_SCRIPT[..n] + [] + [m] == SERVER_SCRIPT[..n + 1] + [];
      ok := ssh.Send(m);
      if ok {
        acceptState := acceptState + 1;
      }
    }

    /** One of the driver's waits: it ends only with the peer far enough, and keys
        agreed where that is what is waited for, and reads nothing if it is over. */
    method Await(peerState: nat, keys: bool) returns (ok: bool)
      requires AtState() && !ServerSends(acceptState) && acceptState < ACCEPT_CLIENT_SESSION_ESTABLISHED
      requires peerState == WaitsFor(acceptState) && keys == (acceptState == ACCEPT_SERVER_KEXINIT_SENT)
      modifies ssh, ssh.output
      ensures if ok then AtState() && ssh.peerState >= peerState && (keys ==> !ssh.isKeying && ssh.keyed) else InStep()
      ensures Follows() && (ok <==> ssh.error.NoError?)
      ensures old(ssh.peerState >= peerState && !(keys && ssh.isKeying)) ==> ok && ssh.granted == old(ssh.granted)
    {
      hide Mine;
      ok := true;
      while ok && (ssh.peerState < peerState || (keys && ssh.isKeying))
        modifies ssh, ssh.output
        invariant if ok then AtState() else InStep()
        invariant ok <==> ssh.error.NoError?
        invariant Follows()
        invariant old(ssh.peerState >= peerState && !(keys && ssh.isKeying)) ==>
                    ok && ssh.granted == old(ssh.granted) && ssh.peerState >= peerState && !(keys && ssh.isKeying)
        decreases ok, |ssh.inbox|
      {
        ok := ssh.Receive();
      }
    }

    /** The head of wolfSSH_accept: what is queued goes out first, and if that was
        a step's own message, the step is done. */
    method FlushFirst(stopState: nat) returns (ok: bool)
      requires InStep() && ssh.error.Retry()
      requires acceptState <= stopState || acceptState > ACCEPT_CLIENT_SESSION_ESTABLISHED
      requires stopState == ACCEPT_SERVER_USERAUTH_SENT || stopState == ACCEPT_CLIENT_SESSION_ESTABLISHED
      modifies this`acceptState, ssh`error, ssh.output
      ensures old(acceptState) <= acceptState && (acceptState <= stopState || acceptState == old(acceptState))
      ensures acceptState <= old(acceptState) + 1
      ensures old(ssh.output.queued == [] || acceptState >= ACCEPT_CLIENT_SESSION_ESTABLISHED) ==>
              ok && acceptState == old(acceptState)
      ensures !ok ==> acceptState == old(acceptState)
      ensures if ok then AtState() else InStep()
      ensures acceptState > old(acceptState) ==>
              (ServerSends(old(acceptState)) || old(acceptState) == ACCEPT_SERVER_USERAUTH_SENT != stopState)
      ensures Follows() && (ok <==> ssh.error.NoError?)
    {
      ssh.error := NoError;
      if |ssh.output.queued| > 0 && acceptState < ACCEPT_CLIENT_SESSION_ESTABLISHED {
        ssh.error := ssh.output.Flush();
        if ssh.error != NoError {
          return false;
        }
        if acceptState != ACCEPT_SERVER_VERSION_SENT && acceptState != ACCEPT_SERVER_USERAUTH_ACCEPT_SENT
           && acceptState != ACCEPT_SERVER_KEXINIT_SENT && acceptState != ACCEPT_KEYED
           && acceptState != ACCEPT_SERVER_CHANNEL_ACCEPT_SENT && acceptState != stopState {
          acceptState := acceptState + 1;
        }
      }
      ok := true;
    }

    /** wolfSSH_AGENT_ChannelOpen: a retry finds the agent set and flushes. */
    method OpenAgentChannel() returns (ok: bool)
      requires InCall() && acceptState == ACCEPT_SERVER_CHANNEL_ACCEPT_SENT && ssh.useAgent
      modifies this`agentOpen, ssh`error, ssh`isKeying, ssh.output
      ensures if ok then AtState() && agentOpen else InStep()
      ensures Follows() && (ok <==> ssh.error.NoError?)
    {
      if ssh.disconnected {
        ssh.error := Hard;
        return false;
      }
      if !agentOpen {
        ok := ssh.Send(AgentOpen);
        agentOpen := ssh.error == NoError || ssh.error == WantWrite;
      } else if |ssh.output.queued| > 0 {
        ssh.error := ssh.output.Flush();
      }
      ok := ssh.error == NoError;
    }

    /** The last wait of the handshake and what it leads to: an SCP or SFTP session
        that was granted goes its own way. */
    method Establish() returns (ret: Ret)
      requires AtState() && acceptState == ACCEPT_SERVER_CHANNEL_ACCEPT_SENT
      modifies Repr()
      ensures InStep() && Follows()
      ensures acceptState == if ssh.error.NoError? then Destination(ssh.granted) else old(acceptState)
      ensures ret == Success && ssh.useAgent ==> agentOpen
      ensures ret == if ssh.error.NoError? then Answer(ssh.granted) else Fatal
      ensures ret == Success ==> AtState() && acceptState == ACCEPT_CLIENT_SESSION_ESTABLISHED
      ensures ssh.error.NoError? ==> ssh.output.queued == []
      ensures old(ssh.peerState >= CLIENT_DONE) ==>
              ssh.granted == old(ssh.granted) && (ssh.granted.Diverts() ==> ssh.error.NoError?)
    {
      var ok := Await(CLIENT_DONE, false);
      if !ok {
        return Fatal;
      }
      if ssh.granted.Scp? {
        acceptState := ACCEPT_INIT_SCP_TRANSFER;
        return ScpInit;
      }
      if ssh.granted.Sftp? {
        acceptState := ACCEPT_INIT_SFTP;
        return SftpAccept;
      }
      if ssh.useAgent {
        ok := OpenAgentChannel();
        if !ok {
          return Fatal;
        }
      }
      acceptState := ACCEPT_CLIENT_SESSION_ESTABLISHED;
      return Success;
    }

    /** The cases of the switch up to the first keys. */
    method Agree() returns (ok: bool)
      requires AtState() && acceptState <= ACCEPT_KEYED
      modifies Repr()
      ensures InStep() && old(acceptState) <= acceptState <= ACCEPT_KEYED
      ensures ok ==> AtState() && acceptState == ACCEPT_KEYED
      ensures Follows() && (ok <==> ssh.error.NoError?)
    {
      hide Framed;
      ok := true;
      if acceptState == ACCEPT_BEGIN {
        ok := SendStep(Version);
        if !ok {
          return;
        }
      }
      if acceptState == ACCEPT_SERVER_VERSION_SENT {
        ok := Await(CLIENT_VERSION_DONE, false);
        if !ok {
          return;
        }
        acceptState := ACCEPT_CLIENT_VERSION_DONE;
      }
      if acceptState == ACCEPT_CLIENT_VERSION_DONE {
        ok := SendStep(KexInit);
        if !ok {
          return;
        }
      }
      if acceptState == ACCEPT_SERVER_KEXINIT_SENT {
        ok := Await(0, true);
        if ok {
          acceptState := ACCEPT_KEYED;
        }
      }
    }

    /** The cases up to an authenticated user. */
    method Authenticate() returns (ok: bool)
      requires AtState() && ACCEPT_KEYED <= acceptState <= ACCEPT_SERVER_USERAUTH_SENT
      modifies Repr()
      ensures InStep() && old(acceptState) <= acceptState <= ACCEPT_SERVER_USERAUTH_SENT
      ensures if ok then AtState() && acceptState == ACCEPT_SERVER_USERAUTH_SENT
              else acceptState < ACCEPT_SERVER_USERAUTH_SENT
      ensures Follows() && (ok <==> ssh.error.NoError?)
    {
      hide Framed;
      ok := true;
      if acceptState == ACCEPT_KEYED {
        ok := Await(CLIENT_USERAUTH_REQUEST_DONE, false);
        if !ok {
          return;
        }
        acceptState := ACCEPT_CLIENT_USERAUTH_REQUEST_DONE;
      }
      if acceptState == ACCEPT_CLIENT_USERAUTH_REQUEST_DONE {
        ok := SendStep(ServiceAccept);
        if !ok {
          return;
        }
      }
      if acceptState == ACCEPT_SERVER_USERAUTH_ACCEPT_SENT {
        ok := Await(CLIENT_USERAUTH_DONE, false);
        if !ok {
          return;
        }
        acceptState := ACCEPT_CLIENT_USERAUTH_DONE;
      }
      if acceptState == ACCEPT_CLIENT_USERAUTH_DONE {
        ok := SendStep(UserAuthSuccess);
      }
    }

    /** One pass through the switch: every case falls through to the next. */
    method Pass(stopState: nat) returns (ret: Ret)
      requires AtState() && acceptState != stopState
      requires stopState == ACCEPT_SERVER_USERAUTH_SENT || stopState == ACCEPT_CLIENT_SESSION_ESTABLISHED
      requires stopState == ACCEPT_SERVER_USERAUTH_SENT ==> acceptState <= stopState
      modifies Repr()
      ensures InStep() && old(acceptState) <= acceptState
      ensures Follows()
      ensures old(acceptState) < stopState ==> Ends(stopState)
      ensures old(acceptState == ACCEPT_SERVER_CHANNEL_ACCEPT_SENT && ssh.peerState >= CLIENT_DONE) ==>
              (acceptState > stopState <==> old(ssh.granted).Diverts())
      ensures ret == Success ==> AtState() && acceptState == stopState
      ensures old(acceptState) < stopState ==> ret == Answers(stopState)
      ensures old(acceptState) < stopState && ssh.error.NoError? ==> ssh.output.queued == []
      ensures old(acceptState) <= ACCEPT_SERVER_USERAUTH_SENT < acceptState ==> ssh.heard >= CLIENT_CHANNEL_OPEN_DONE
      ensures old(acceptState) > stopState ==> acceptState == old(acceptState) && ret == Resumed()
    {
      hide Framed;
      if acceptState == ACCEPT_INIT_SCP_TRANSFER {
        return if scpDone then ScpComplete else Fatal;
      }
      if acceptState == ACCEPT_INIT_SFTP {
        return SftpAccept;
      }
      var ok := true;
      if acceptState < ACCEPT_KEYED {
        ok := Agree();
      }
      if ok && ACCEPT_KEYED <= acceptState < ACCEPT_SERVER_USERAUTH_SENT {
        ok := Authenticate();
      }
      if !ok {
        return Fatal;
      }
      if acceptState == stopState {
        return Success;
      }
      if acceptState == ACCEPT_SERVER_USERAUTH_SENT {
        ok := Await(CLIENT_CHANNEL_OPEN_DONE, false);
        if !ok {
          return Fatal;
        }
        acceptState := ACCEPT_SERVER_CHANNEL_ACCEPT_SENT;
      }
      ret := Establish();
    }

    /** How a call that has not yet got to its stop ends. Either it cannot go on and
        is not past the stop, or it is there, or it is past it, in the session that
        was granted: that exactly if this is where the handshake was to end and the
        session is an SCP or SFTP one. An established session has the agent channel
        that was asked for. */
    predicate Ends(stopState: nat)
      reads this, ssh
    {
      if !ssh.error.NoError? then acceptState < stopState
      else
        && acceptState == (if stopState == ACCEPT_SERVER_USERAUTH_SENT then stopState else Destination(ssh.granted))
        && (acceptState == ACCEPT_CLIENT_SESSION_ESTABLISHED && ssh.useAgent ==> agentOpen)
    }

    /** What a call answers that was not past its stop. */
    function Answers(stopState: nat): Ret
      reads this, ssh
    {
      if !ssh.error.NoError? then Fatal else if acceptState == stopState then Success else Answer(ssh.granted)
    }

    /** What a call answers that finds the session in its SCP or SFTP state. */
    function Resumed(): Ret
      reads this
    {
      if acceptState == ACCEPT_INIT_SFTP then SftpAccept else if scpDone then ScpComplete else Fatal
    }

    /** wolfSSH_accept. With no error left, all that was framed is out; a new channel
        is waited for, unless a flush has gone by that wait. A call for an application
        that drives its channels stops once the user is authenticated. The state
        never goes back, and is past where the call was to stop exactly when it ends
        in a granted SCP or SFTP session. Before the call that can be told in two
        cases: in the last wait, when it is over, by the session granted so far; and,
        with all the client's messages there to be read, by the session they lead
        to. */
    method Accept(appChannels: bool) returns (ret: Ret)
      requires InStep()
      modifies Repr()
      ensures InStep() && old(acceptState) <= acceptState
      ensures ret == Success ==> AtState() && acceptState == StopState(appChannels, old(acceptState))
      ensures ret == if old(ssh.disconnected) then Fatal
                     else if !old(ssh.error).Retry() then InvalidState
                     else if old(acceptState) > StopState(appChannels, old(acceptState)) then Resumed()
                     else Answers(StopState(appChannels, old(acceptState)))
      ensures appChannels && old(acceptState) <= ACCEPT_SERVER_USERAUTH_SENT ==>
              && acceptState <= ACCEPT_SERVER_USERAUTH_SENT
              && (ret == Success ==> acceptState == ACCEPT_SERVER_USERAUTH_SENT)
      ensures !appChannels || old(acceptState) > ACCEPT_SERVER_USERAUTH_SENT ==>
              (ret == Success ==> acceptState == ACCEPT_CLIENT_SESSION_ESTABLISHED)
      ensures old(ssh.error).Retry() && !old(ssh.disconnected) ==> Follows()
      ensures old(acceptState) < ACCEPT_CLIENT_SESSION_ESTABLISHED && ssh.error.NoError? ==>
              ssh.output.queued == []
      ensures old(acceptState < ACCEPT_SERVER_USERAUTH_SENT
                  || (acceptState == ACCEPT_SERVER_USERAUTH_SENT && ssh.output.queued == []))
              && acceptState > ACCEPT_SERVER_USERAUTH_SENT ==>
              ssh.heard >= CLIENT_CHANNEL_OPEN_DONE
      ensures var stop := StopState(appChannels, old(acceptState));
              && (old(acceptState) >= stop ==> acceptState == old(acceptState))
              && (old(acceptState) < stop ==>
                    && Ends(stop)
                    && (acceptState > stop <==>
                          && stop == ACCEPT_CLIENT_SESSION_ESTABLISHED
                          && ssh.error == NoError && ssh.granted.Diverts()))
      ensures old(acceptState == ACCEPT_SERVER_CHANNEL_ACCEPT_SENT && ssh.peerState >= CLIENT_DONE
                  && ssh.output.queued == [] && ssh.error.Retry() && !ssh.disconnected) ==>
              (acceptState > StopState(appChannels, old(acceptState)) <==> old(ssh.granted).Diverts())
      ensures old(ACCEPT_SERVER_KEXINIT_SENT <= acceptState < ACCEPT_CLIENT_SESSION_ESTABLISHED
                  && ssh.error.Retry() && ssh.Smooth() && ssh.Undone()
                  && ssh.Ahead().state >= CLIENT_DONE && !ssh.Ahead().isKeying) ==>
              acceptState == if StopState(appChannels, old(acceptState)) == ACCEPT_SERVER_USERAUTH_SENT
                             then ACCEPT_SERVER_USERAUTH_SENT else Destination(old(ssh.Ahead()).granted)
    {
      hide Framed;
      if ssh.disconnected {
        ssh.error := Hard;
        return Fatal;
      }
      if ssh.error == Hard {
        return InvalidState;
      }
      var stopState := StopState(appChannels, acceptState);
      var ok := FlushFirst(stopState);
      if !ok {
        return Fatal;
      }
      if acceptState == stopState {
        return Success;
      }
      ret := Pass(stopState);
    }

    /** What there is to read before a call, and what becomes of its flushes. */
    method Supply(turn: Turn)
      requires InStep()
      modifies `scpDone, ssh`inbox, ssh.output`outcomes
      ensures InStep() && ssh.inbox == turn.inbox && ssh.output.outcomes == turn.outcomes && scpDone == turn.scpDone
    {
      scpDone, ssh.inbox, ssh.output.outcomes := turn.scpDone, turn.inbox, turn.outcomes;
    }

    /** A run: calls with what can be read before each. A handshake that gets
        through has framed its messages and heard all of the peer's. */
    method Run(calls: seq<(bool, Turn)>) returns (ret: Ret)
      requires InStep()
      modifies Repr()
      ensures InStep() && old(acceptState) <= acceptState
      ensures ret == Success && acceptState == ACCEPT_CLIENT_SESSION_ESTABLISHED ==>
              && ssh.peerState >= CLIENT_DONE
              && Mine(ssh.output.Framed()) == SERVER_SCRIPT + if agentOpen then [AgentOpen] else []
    {
      hide ServerSends, StopState;
      ret := Fatal;
      for i := 0 to |calls|
        invariant InStep() && old(acceptState) <= acceptState
        invariant ret == Success ==> AtState()
      {
        Supply(calls[i].1);
        ret := Accept(calls[i].0);
      }
      assert SERVER_SCRIPT[..4] == SERVER_SCRIPT;
    }

    /** No message goes out before what it answers has come: no key exchange before
        the client's version, no service before keys and the client's request, and
        no authentication success before the client has authenticated. */
    lemma MessagesAreEarned()
      requires InStep() && ssh.error.Retry()
      ensures KexInit in Mine(ssh.output.Framed()) ==> ssh.heard >= CLIENT_VERSION_DONE
      ensures ServiceAccept in Mine(ssh.output.Framed()) ==>
              ssh.keyed && ssh.heard >= CLIENT_USERAUTH_REQUEST_DONE
      ensures UserAuthSuccess in Mine(ssh.output.Framed()) ==> ssh.heard >= CLIENT_USERAUTH_DONE
    {
      var sent := ServerSent(acceptState);
      var n := if ServerSends(acceptState) && ssh.error.WantWrite? then sent + 1 else sent;
      assert Framed(n);
      assert forall m <- SERVER_SCRIPT[..n] :: exists i :: 0 <= i < n && m == SERVER_SCRIPT[i];
    }

    /** What has left the server, looked at between any two calls, is a beginning
        of the script: the peer never sees a message twice or out of order. */
    lemma PeerSeesScript()
      requires InStep() && ssh.error.Retry()
      ensures Mine(ssh.output.wire) <= SERVER_SCRIPT + [AgentOpen]
    {
      MineSplits(ssh.output.wire, ssh.output.queued);
      var all := Mine(ssh.output.Framed());
      assert Mine(ssh.output.wire) <= all;
      var sent := ServerSent(acceptState);
      var n := if ServerSends(acceptState) && ssh.error.WantWrite? then sent + 1 else sent;
      assert Framed(n) && (agentOpen ==> n == 4);
      if agentOpen {
        assert all == SERVER_SCRIPT + [AgentOpen];
      } else {
        assert all == SERVER_SCRIPT[..n] + [] == SERVER_SCRIPT[..n];
      }
    }
  }

  /** That a call never passes its stop is not guaranteed: a client whose messages
      all arrive and that is granted an SCP or SFTP session takes it past. */
  method GrantPassesStop(granted: Grant, useAgent: bool) returns (s: Server, ret: Ret)
    ensures fresh(s) && s.InStep() && s.ssh.error.NoError? && s.ssh.peerState == CLIENT_DONE
    ensures match granted
            case Scp => s.acceptState == ACCEPT_INIT_SCP_TRANSFER && ret == ScpInit
            case Sftp => s.acceptState == ACCEPT_INIT_SFTP && ret == SftpAccept
            case _ => s.acceptState == ACCEPT_CLIENT_SESSION_ESTABLISHED && ret == Success
  {
    hide Server.Framed, ServerSent, ServerSends;
    s := AwaitsKeys(useAgent);
    s.Supply(Turn([ Calmly(CLIENT_VERSION_DONE, NoSession, useAgent),
                    Calmly(CLIENT_USERAUTH_REQUEST_DONE, NoSession, useAgent),
                    Calmly(CLIENT_USERAUTH_DONE, NoSession, useAgent),
                    Calmly(CLIENT_CHANNEL_OPEN_DONE, NoSession, useAgent),
                    Calmly(CLIENT_DONE, granted, useAgent) ], [], false));
    ret := s.Accept(false);
    assert s.ssh.peerState == CLIENT_DONE;
  }

  /** The first call of such a run: the client's version has come. */
  method AwaitsKeys(useAgent: bool) returns (s: Server)
    ensures fresh(s) && fresh(s.ssh) && fresh(s.ssh.output) && s.InStep() && s.ssh.Smooth()
    ensures s.ssh.error == WantRead && s.ssh.inbox == [] && s.ssh.peerState == CLIENT_VERSION_DONE
    ensures ACCEPT_SERVER_KEXINIT_SENT <= s.acceptState < ACCEPT_CLIENT_SESSION_ESTABLISHED
  {
    s := new Server();
    s.Supply(Turn([Calmly(CLIENT_VERSION_DONE, NoSession, useAgent)], [], false));
    var ret := s.Accept(false);
  }

  function Calmly(state: nat, granted: Grant, useAgent: bool): Arrival {
    Arrival(Peer(state, false, granted), false, useAgent, 0, false)
  }

  // ------------------------------------------------------------- connect

  // ConnectStates
  const CONNECT_BEGIN := 0
  const CONNECT_CLIENT_VERSION_SENT := 1
  const CONNECT_SERVER_VERSION_DONE := 2
  const CONNECT_CLIENT_KEXINIT_SENT := 3
  const CONNECT_SERVER_KEXINIT_DONE := 4
  const CONNECT_CLIENT_KEXDH_INIT_SENT := 5
  const CONNECT_KEYED := 6
  const CONNECT_CLIENT_USERAUTH_REQUEST_SENT := 7
  const CONNECT_SERVER_USERAUTH_REQUEST_DONE := 8
  const CONNECT_CLIENT_USERAUTH_SENT := 9
  const CONNECT_SERVER_USERAUTH_ACCEPT_DONE := 10
  const CONNECT_CLIENT_CHANNEL_OPEN_SESSION_SENT := 11
  const CONNECT_SERVER_CHANNEL_OPEN_SESSION_DONE := 12
  const CONNECT_CLIENT_CHANNEL_AGENT_REQUEST_SENT := 13
  const CONNECT_CLIENT_CHANNEL_TERMINAL_REQUEST_SENT := 14
  const CONNECT_CLIENT_CHANNEL_REQUEST_SENT := 15
  const CONNECT_SERVER_CHANNEL_REQUEST_DONE := 16

  // ServerStates
  const SERVER_VERSION_DONE := 1
  const SERVER_KEXINIT_DONE := 2
  const SERVER_USERAUTH_REQUEST_DONE := 3
  const SERVER_USERAUTH_ACCEPT_DONE := 4
  const SERVER_CHANNEL_OPEN_DONE := 5
  const SERVER_DONE := 6

  /** What a client asks for besides the session itself. */
  datatype Wants = Wants(agent: bool, terminal: bool)

  /** How far the server must have been for the client to be in a state. */
  function ServerNeeded(state: nat): nat {
    if state < CONNECT_SERVER_VERSION_DONE then 0
    else if state < CONNECT_SERVER_KEXINIT_DONE then SERVER_VERSION_DONE
    else if state < CONNECT_SERVER_USERAUTH_REQUEST_DONE then SERVER_KEXINIT_DONE
    else if state < CONNECT_SERVER_USERAUTH_ACCEPT_DONE then SERVER_USERAUTH_REQUEST_DONE
    else if state < CONNECT_SERVER_CHANNEL_OPEN_SESSION_DONE then SERVER_USERAUTH_ACCEPT_DONE
    else if state < CONNECT_SERVER_CHANNEL_REQUEST_DONE then SERVER_CHANNEL_OPEN_DONE
    else SERVER_DONE
  }

  /** How far the server must be for a wait of the client to end. */
  function ClientWaitsFor(state: nat): nat {
    if state == CONNECT_CLIENT_VERSION_SENT then SERVER_VERSION_DONE
    else if state == CONNECT_CLIENT_KEXINIT_SENT then SERVER_KEXINIT_DONE
    else if state == CONNECT_CLIENT_USERAUTH_REQUEST_SENT then SERVER_USERAUTH_REQUEST_DONE
    else if state == CONNECT_CLIENT_USERAUTH_SENT then SERVER_USERAUTH_ACCEPT_DONE
    else if state == CONNECT_CLIENT_CHANNEL_OPEN_SESSION_SENT then SERVER_CHANNEL_OPEN_DONE
    else if state == CONNECT_CLIENT_CHANNEL_REQUEST_SENT then SERVER_DONE
    else 0
  }

  /** The states a pending flush does not advance, as wolfSSH_connect lists them. */
  predicate NotAdvanced(state: nat) {
    || state == CONNECT_CLIENT_VERSION_SENT || state == CONNECT_CLIENT_KEXINIT_SENT
    || state == CONNECT_CLIENT_KEXDH_INIT_SENT || state == CONNECT_CLIENT_USERAUTH_REQUEST_SENT
    || state == CONNECT_CLIENT_USERAUTH_SENT || state == CONNECT_CLIENT_CHANNEL_OPEN_SESSION_SENT
    || state == CONNECT_CLIENT_CHANNEL_REQUEST_SENT
  }

  /** What the step out of a state sends. */
  function Sends(state: nat, w: Wants): seq<Msg> {
    if state == CONNECT_BEGIN then [Version]
    else if state == CONNECT_SERVER_VERSION_DONE then [KexInit]
    else if state == CONNECT_SERVER_KEXINIT_DONE then [KexDhInit]
    else if state == CONNECT_KEYED then [ServiceRequest]
    else if state == CONNECT_SERVER_USERAUTH_REQUEST_DONE then [UserAuthRequest]
    else if state == CONNECT_SERVER_USERAUTH_ACCEPT_DONE then [ChannelOpen]
    else if state == CONNECT_SERVER_CHANNEL_OPEN_SESSION_DONE && w.agent then [AgentRequest]
    else if state == CONNECT_CLIENT_CHANNEL_AGENT_REQUEST_SENT && w.terminal then [TerminalRequest]
    else if state == CONNECT_CLIENT_CHANNEL_TERMINAL_REQUEST_SENT then [ChannelRequest]
    else []
  }

  /** All that precedes a state. */
  function Due(state: nat, w: Wants): seq<Msg> {
    if state == 0 then [] else Due(state - 1, w) + Sends(state - 1, w)
  }

  /** The client's messages in the order of section 10 of RFC 4253 and section 6
      of RFC 4254. */
  function ClientScript(w: Wants): seq<Msg> {
    [Version, KexInit, KexDhInit, ServiceRequest, UserAuthRequest, ChannelOpen]
    + (if w.agent then [AgentRequest] else []) + (if w.terminal then [TerminalRequest] else [])
    + [ChannelRequest]
  }

  lemma DueGrows(state: nat, w: Wants)
    ensures Due(state + 1, w) == Due(state, w) + Sends(state, w)
  {
  }

  /** A send and the wait behind it. */
  lemma DueGrowsPastWait(state: nat, w: Wants, m: Msg)
    requires Sends(state, w) == [m] && Sends(state + 1, w) == []
    ensures Due(state + 2, w) == Due(state, w) + [m]
  {
    DueGrows(state, w);
    DueGrows(state + 1, w);
    hide Due;
  }

  lemma DueIsScript(w: Wants)
    ensures Due(CONNECT_SERVER_CHANNEL_REQUEST_DONE, w) == ClientScript(w)
  {
    DueGrowsPastWait(0, w, Version);
    DueGrowsPastWait(2, w, KexInit);
    DueGrowsPastWait(4, w, KexDhInit);
    DueGrowsPastWait(6, w, ServiceRequest);
    DueGrowsPastWait(8, w, UserAuthRequest);
    DueGrowsPastWait(10, w, ChannelOpen);
    DueGrows(12, w);
    DueGrows(13, w);
    DueGrowsPastWait(14, w, ChannelRequest);
    assert Due(0, w) == [];
    hide Due, Sends;
    assert Due(12, w) == [Version, KexInit, KexDhInit, ServiceRequest, UserAuthRequest, ChannelOpen];
  }

  /** The states left out of the advance are exactly those a call can be left in
      with no message of its own on the way. */
  lemma NotAdvancedAreTheWaits(state: nat, w: Wants)
    requires state < CONNECT_SERVER_CHANNEL_REQUEST_DONE
    requires w.agent || state != CONNECT_SERVER_CHANNEL_OPEN_SESSION_DONE
    requires w.terminal || state != CONNECT_CLIENT_CHANNEL_AGENT_REQUEST_SENT
    ensures NotAdvanced(state) <==> Sends(state, w) == []
  {
  }

  lemma {:induction false} DueIsBeginning(state: nat, last: nat, w: Wants)
    requires state <= last
    ensures Due(state, w) <= Due(last, w)
    decreases last
  {
    if state < last {
      DueIsBeginning(state, last - 1, w);
      DueGrows(last - 1, w);
    }
  }

  /** A message that is there comes from a step that has been left. */
  lemma {:induction false} DueSends(state: nat, m: Msg, w: Wants) returns (from: nat)
    requires m in Due(state, w)
    ensures from < state && Sends(from, w) == [m]
  {
    if m in Due(state - 1, w) {
      from := DueSends(state - 1, m, w);
    } else {
      from := state - 1;
    }
  }

  /** The state whose step sends a message. */
  function StepOf(m: Msg): nat {
    match m
    case KexInit => CONNECT_SERVER_VERSION_DONE
    case KexDhInit => CONNECT_SERVER_KEXINIT_DONE
    case ServiceRequest => CONNECT_KEYED
    case UserAuthRequest => CONNECT_SERVER_USERAUTH_REQUEST_DONE
    case ChannelOpen => CONNECT_SERVER_USERAUTH_ACCEPT_DONE
    case AgentRequest => CONNECT_SERVER_CHANNEL_OPEN_SESSION_DONE
    case TerminalRequest => CONNECT_CLIENT_CHANNEL_AGENT_REQUEST_SENT
    case ChannelRequest => CONNECT_CLIENT_CHANNEL_TERMINAL_REQUEST_SENT
    case _ => CONNECT_BEGIN
  }

  lemma DueAfterStep(state: nat, m: Msg, w: Wants)
    requires m in Due(state, w)
    ensures StepOf(m) < state
  {
    var from := DueSends(state, m, w);
    hide Due;
  }

  lemma SendingStates(state: nat, w: Wants)
    requires Sends(state, w) != []
    ensures !NotAdvanced(state) && state < CONNECT_SERVER_CHANNEL_REQUEST_DONE
    ensures ServerNeeded(state + 1) == ServerNeeded(state) && state + 1 != CONNECT_KEYED
    ensures !Sends(state, w)[0].Reply? && (state == CONNECT_SERVER_VERSION_DONE <==> Sends(state, w)[0] == KexInit)
  {
  }

  class Client {
    const ssh: Session
    const wants: Wants
    var connectState: nat
    var channels: nat        // session channels appended
    var agents: nat          // agents created

    ghost function Repr(): set<object>
    {
      {this, ssh, ssh.output}
    }

    /** The messages of the steps before a state have been framed, once each and in
        order, with one channel and at most one agent to go with them. */
    ghost predicate Through(state: nat)
      reads `channels, `agents, ssh`isKeying, ssh`keyed, ssh.output`wire, ssh.output`queued
    {
      && (state > CONNECT_SERVER_VERSION_DONE ==> ssh.isKeying || ssh.keyed)
      && Mine(ssh.output.Framed()) == Due(state, wants)
      && channels == (if state > CONNECT_SERVER_USERAUTH_ACCEPT_DONE then 1 else 0)
      && agents == (if state > CONNECT_SERVER_USERAUTH_REQUEST_DONE && wants.agent then 1 else 0)
    }

    ghost predicate Sane()
      reads this, ssh
    {
      && connectState <= CONNECT_SERVER_CHANNEL_REQUEST_DONE && channels <= 1 && agents <= 1
      && ssh.peerState <= ssh.heard && ssh.heard >= ServerNeeded(connectState)
      && (connectState >= CONNECT_KEYED ==> ssh.keyed)
    }

    ghost predicate AtState()
      reads Repr()
    {
      && Sane() && Through(connectState)
      && (connectState < CONNECT_SERVER_CHANNEL_REQUEST_DONE ==> ssh.output.queued == [])
    }

    /** Between calls: in a waiting state, or with the state's own message queued,
        or at the very start. */
    ghost predicate InStep()
      reads Repr()
    {
      && Sane()
      && (ssh.error.Retry() ==>
            if NotAdvanced(connectState) || connectState == CONNECT_SERVER_CHANNEL_REQUEST_DONE
            then Through(connectState)
            else if ssh.output.queued != [] then Sends(connectState, wants) != [] && Through(connectState + 1)
            else connectState == CONNECT_BEGIN && Through(0))
    }

    /** The state's wait is not over, and there is nothing left to read. */
    predicate Waiting()
      reads this, ssh
    {
      && ssh.inbox == []
      && (ssh.peerState < ClientWaitsFor(connectState)
          || (connectState == CONNECT_CLIENT_KEXDH_INIT_SENT && ssh.isKeying))
    }

    /** What may stop a call, as for the server. */
    twostate predicate Follows(ok: bool)
      reads this, ssh, ssh.output
    {
      && (!ok && ssh.error.WantRead? ==> Waiting())
      && (!ok ==> ssh.error != NoError)
      && (old(ssh.Smooth()) ==> ssh.Smooth() && (ok || ssh.error.WantRead?))
      && (|| ssh.Ahead() == old(ssh.Ahead())
          || (old(connectState) < CONNECT_CLIENT_KEXINIT_SENT
              && ssh.Ahead() == old(ssh.Ahead()).(isKeying := true)))
    }

    constructor (wants: Wants)
      ensures InStep() && connectState == CONNECT_BEGIN && fresh(ssh) && fresh(ssh.output)
      ensures ssh.error == NoError && ssh.output.Framed() == [] && this.wants == wants
    {
      ssh := new Session();
      this.wants, connectState, channels, agents := wants, CONNECT_BEGIN, 0, 0;
    }

    /** One of the driver's sends. The agent is made before its message is framed,
        and the channel is kept whether or not the send finishes. */
    method SendStep(m: Msg) returns (ok: bool)
      requires AtState() && Sends(connectState, wants) == [m]
      modifies this, ssh`error, ssh`isKeying, ssh.output
      ensures if ok then AtState() && connectState == old(connectState) + 1
              else InStep() && connectState == old(connectState)
      ensures Follows(ok) && (ssh.error.Hard? ==> channels == old(channels))
    {
      hide Mine, Due, Sends, NotAdvanced, ServerNeeded;
      DueGrows(connectState, wants);
      SendingStates(connectState, wants);
      assert Sends(connectState, wants)[0] == m;
      if connectState == CONNECT_SERVER_USERAUTH_REQUEST_DONE && wants.agent {
        agents := agents + 1;
      }
      ok := ssh.Send(m);
      if connectState == CONNECT_SERVER_USERAUTH_ACCEPT_DONE && (ok || ssh.error == WantWrite) {
        channels := channels + 1;
      }
      if ok {
        connectState := connectState + 1;
      }
    }

    /** One of the driver's waits: it ends only with the peer far enough. */
    method AwaitStep(peerState: nat, keys: bool) returns (ok: bool)
      requires AtState() && NotAdvanced(connectState)
      requires peerState == ClientWaitsFor(connectState) && (connectState == CONNECT_CLIENT_KEXDH_INIT_SENT <==> keys)
      modifies this`connectState, ssh, ssh.output
      ensures if ok then AtState() && connectState == old(connectState) + 1 && ssh.peerState >= peerState
                         && (keys ==> !ssh.isKeying && ssh.keyed)
              else InStep() && connectState == old(connectState)
      ensures Follows(ok) && (ok ==> ssh.output.queued == [])
    {
      hide Mine;
      ok := true;
      while ok && (ssh.peerState < peerState || (keys && ssh.isKeying))
        modifies ssh, ssh.output
        invariant if ok then AtState() else InStep()
        invariant Follows(ok)
        decreases ok, |ssh.inbox|
      {
        ok := ssh.Receive();
      }
      if ok {
        connectState := connectState + 1;
      }
    }

    /** The head of wolfSSH_connect. */
    method FlushFirst() returns (ok: bool)
      requires InStep() && ssh.error.Retry()
      modifies this`connectState, ssh`error, ssh.output
      ensures old(connectState) <= connectState
      ensures if ok then AtState() else InStep()
      ensures connectState > old(connectState) ==> Sends(old(connectState), wants) != []
      ensures Follows(ok) && (old(connectState) == CONNECT_SERVER_CHANNEL_REQUEST_DONE ==> ok)
      ensures connectState <= old(connectState) + 1 && (!ok ==> connectState == old(connectState))
    {
      if |ssh.output.queued| > 0 && connectState < CONNECT_SERVER_CHANNEL_REQUEST_DONE {
        ssh.error := ssh.output.Flush();
        if ssh.error != NoError {
          return false;
        }
        if !NotAdvanced(connectState) {
          connectState := connectState + 1;
        }
      }
      ok := true;
    }

    /** The cases of the switch up to the first keys. */
    method Agree() returns (ok: bool)
      requires AtState() && connectState <= CONNECT_KEYED
      modifies Repr()
      ensures (InStep() || ok) && Follows(ok)
      ensures old(connectState) <= connectState <= CONNECT_KEYED
      ensures ok ==> AtState() && connectState == CONNECT_KEYED
    {
      hide Through, Due;
      ok := true;
      if connectState == CONNECT_BEGIN {
        ok := SendStep(Version);
      }
      if ok && connectState == CONNECT_CLIENT_VERSION_SENT {
        ok := AwaitStep(SERVER_VERSION_DONE, false);
      }
      if ok && connectState == CONNECT_SERVER_VERSION_DONE {
        ok := SendStep(KexInit);
      }
      if ok && connectState == CONNECT_CLIENT_KEXINIT_SENT {
        ok := AwaitStep(SERVER_KEXINIT_DONE, false);
      }
      if ok && connectState == CONNECT_SERVER_KEXINIT_DONE {
        ok := SendStep(KexDhInit);
      }
      if ok && connectState == CONNECT_CLIENT_KEXDH_INIT_SENT {
        ok := AwaitStep(0, true);
      }
    }

    /** The cases up to an open session channel. */
    method OpenSession() returns (ok: bool)
      requires AtState() && CONNECT_KEYED <= connectState <= CONNECT_SERVER_CHANNEL_OPEN_SESSION_DONE
      modifies Repr()
      ensures (InStep() || ok) && Follows(ok)
      ensures old(connectState) <= connectState <= CONNECT_SERVER_CHANNEL_OPEN_SESSION_DONE
      ensures ok ==> AtState() && connectState == CONNECT_SERVER_CHANNEL_OPEN_SESSION_DONE
    {
      hide Through, Due;
      ok := true;
      if connectState == CONNECT_KEYED {
        ok := SendStep(ServiceRequest);
      }
      if ok && connectState == CONNECT_CLIENT_USERAUTH_REQUEST_SENT {
        ok := AwaitStep(SERVER_USERAUTH_REQUEST_DONE, false);
      }
      if ok && connectState == CONNECT_SERVER_USERAUTH_REQUEST_DONE {
        ok := SendStep(UserAuthRequest);
      }
      if ok && connectState == CONNECT_CLIENT_USERAUTH_SENT {
        ok := AwaitStep(SERVER_USERAUTH_ACCEPT_DONE, false);
      }
      if ok && connectState == CONNECT_SERVER_USERAUTH_ACCEPT_DONE {
        ok := SendStep(ChannelOpen);
      }
      if ok && connectState == CONNECT_CLIENT_CHANNEL_OPEN_SESSION_SENT {
        ok := AwaitStep(SERVER_CHANNEL_OPEN_DONE, false);
      }
    }

    /** The cases that make the channel's requests. */
    method MakeRequests() returns (ok: bool)
      requires AtState() && CONNECT_SERVER_CHANNEL_OPEN_SESSION_DONE <= connectState
      modifies Repr()
      ensures InStep() && old(connectState) <= connectState && Follows(ok)
      ensures ok <==> connectState == CONNECT_SERVER_CHANNEL_REQUEST_DONE
      ensures ok ==> AtState() && (old(connectState) < CONNECT_SERVER_CHANNEL_REQUEST_DONE ==> ssh.output.queued == [])
      ensures ok && old(connectState) < CONNECT_SERVER_CHANNEL_REQUEST_DONE ==> ssh.peerState >= SERVER_DONE
    {
      hide Due;
      ok := true;
      if connectState == CONNECT_SERVER_CHANNEL_OPEN_SESSION_DONE {
        if wants.agent {
          ok := SendStep(AgentRequest);
        } else {
          SkipStep();
        }
      }
      if ok && connectState == CONNECT_CLIENT_CHANNEL_AGENT_REQUEST_SENT {
        if wants.terminal {
          ok := SendStep(TerminalRequest);
        } else {
          SkipStep();
        }
      }
      if ok && connectState == CONNECT_CLIENT_CHANNEL_TERMINAL_REQUEST_SENT {
        ok := SendStep(ChannelRequest);
      }
      if ok && connectState == CONNECT_CLIENT_CHANNEL_REQUEST_SENT {
        ok := AwaitStep(SERVER_DONE, false);
      }
    }

    /** A request that is not wanted. */
    method SkipStep()
      requires AtState() && Sends(connectState, wants) == []
      requires CONNECT_SERVER_CHANNEL_OPEN_SESSION_DONE <= connectState < CONNECT_CLIENT_CHANNEL_REQUEST_SENT
      modifies `connectState
      ensures AtState() && connectState == old(connectState) + 1
    {
      connectState := connectState + 1;
    }

    /** wolfSSH_connect. It answers success exactly when it gets to the end, and it
        gets there if all the server's messages are there to be read. */
    method Connect() returns (ret: Ret)
      requires InStep() && ssh.error.Retry()
      modifies Repr()
      ensures InStep() && old(connectState) <= connectState
      ensures ret == Success ==> AtState()
      ensures ret == Success && old(connectState) < CONNECT_SERVER_CHANNEL_REQUEST_DONE ==> ssh.output.queued == []
      ensures ret == if connectState == CONNECT_SERVER_CHANNEL_REQUEST_DONE && !old(ssh.disconnected)
                     then Success else Fatal
      ensures !old(ssh.disconnected) ==> Follows(ret == Success)
      ensures old(connectState >= CONNECT_CLIENT_KEXINIT_SENT && ssh.Smooth()
                  && ssh.Ahead().state >= SERVER_DONE && !ssh.Ahead().isKeying) ==>
              ret == Success
    {
      hide Through, Due;
      if ssh.disconnected {
        ssh.error := Hard;
        return Fatal;
      }
      var ok := FlushFirst();
      if ok && connectState < CONNECT_KEYED {
        ok := Agree();
      }
      if ok && CONNECT_KEYED <= connectState < CONNECT_SERVER_CHANNEL_OPEN_SESSION_DONE {
        ok := OpenSession();
      }
      if ok {
        ok := MakeRequests();
      }
      return if ok then Success else Fatal;
    }

    /** No message goes out before what it answers has come, and from the service
        request on only with a key exchange come to its end. */
    lemma MessagesAreEarned()
      requires InStep() && ssh.error.Retry()
      ensures var framed := Mine(ssh.output.Framed());
              && (KexInit in framed ==> ssh.heard >= SERVER_VERSION_DONE)
              && (KexDhInit in framed ==> ssh.heard >= SERVER_KEXINIT_DONE)
              && (ServiceRequest in framed ==> ssh.keyed && ssh.heard >= SERVER_KEXINIT_DONE)
              && (UserAuthRequest in framed ==> ssh.keyed && ssh.heard >= SERVER_USERAUTH_REQUEST_DONE)
              && (ChannelOpen in framed ==> ssh.keyed && ssh.heard >= SERVER_USERAUTH_ACCEPT_DONE)
              && (AgentRequest in framed || TerminalRequest in framed || ChannelRequest in framed ==>
                    ssh.keyed && ssh.heard >= SERVER_CHANNEL_OPEN_DONE)
    {
      hide Due, Mine, Sends, NotAdvanced, InStep;
      var k := FramedThrough();
      forall m | m in Due(k, wants) ensures StepOf(m) < k {
        DueAfterStep(k, m, wants);
      }
    }

    /** The steps whose messages have been framed: those before the state, and the
        state's own if it is still on its way. */
    lemma FramedThrough() returns (k: nat)
      requires InStep() && ssh.error.Retry()
      ensures Sane() && Mine(ssh.output.Framed()) == Due(k, wants) && connectState <= k <= connectState + 1
    {
      hide Due, Mine, Sends;
      k := if NotAdvanced(connectState) || connectState == CONNECT_SERVER_CHANNEL_REQUEST_DONE
              || ssh.output.queued == [] then connectState else connectState + 1;
      assert Through(k);
    }

    /** What has left the client is a beginning of its script. */
    lemma PeerSeesScript()
      requires InStep() && ssh.error.Retry()
      ensures Mine(ssh.output.wire) <= ClientScript(wants)
    {
      MineSplits(ssh.output.wire, ssh.output.queued);
      DueIsScript(wants);
      DueIsBeginning(connectState, 16, wants);
      if connectState < 16 {
        DueIsBeginning(connectState + 1, 16, wants);
      }
      hide Due, ClientScript, Mine, Sends;
      assert Mine(ssh.output.wire) <= Mine(ssh.output.Framed());
    }

    /** A run: calls with what can be read before each, until one succeeds or ends
        with something a further call cannot answer. */
    method Run(calls: seq<Turn>) returns (ret: Ret)
      requires InStep() && ssh.error.Retry()
      modifies Repr()
      ensures InStep() && old(connectState) <= connectState && channels <= 1 && agents <= 1
      ensures ret == Success ==> Mine(ssh.output.Framed()) == ClientScript(wants) && channels == 1
                                 && agents == if wants.agent then 1 else 0
    {
      DueIsScript(wants);
      hide Due, ClientScript, Mine;
      ret := Fatal;
      var i := 0;
      while i < |calls| && ret == Fatal && ssh.error.Retry()
        invariant InStep() && old(connectState) <= connectState
        invariant ret == Success ==> AtState() && connectState == CONNECT_SERVER_CHANNEL_REQUEST_DONE
      {
        ssh.inbox, ssh.output.outcomes := calls[i].inbox, calls[i].outcomes;
        ret := Connect();
        i := i + 1;
      }
    }
  }
}
