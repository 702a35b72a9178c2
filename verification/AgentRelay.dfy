/**
 * The agent relay: channel bytes arriving in any pieces are reframed into whole
 * agent messages (section 3 of draft-miller-ssh-agent), each is written to the
 * agent and its reply is sent back, in pieces over as many calls as that takes,
 * before the next one is framed.
 */
module AgentRelay {
  import opened Bytes
  import opened Buffers

  const MAX_MSG_SZ := 262144
  const RELAY_CHUNK_SZ := 512
  const LENGTH_SZ := 4

  datatype Ret = Success | WantWrite | WindowFull | Rekeying | CxnFail | BufferError | Other {
    /** What a caller answers by calling again. */
    predicate Benign() {
      Success? || WantWrite? || WindowFull? || Rekeying?
    }
  }

  /** What a channel send came to: some bytes framed, none because something holds
      them back, or a failure. */
  datatype SendResult = Took(n: nat) | Held(why: Ret) | Failed(delivered: bool)

  /** A whole length-prefixed agent message of allowed size. */
  ghost predicate Whole(m: seq<byte>) {
    |m| > LENGTH_SZ && |m| == LENGTH_SZ + FromBytes32(m[..LENGTH_SZ]) && |m| <= LENGTH_SZ + MAX_MSG_SZ
  }

  /** A whole message stands at the front. */
  ghost predicate StartsWhole(s: seq<byte>) {
    |s| >= LENGTH_SZ && |s| >= LENGTH_SZ + FromBytes32(s[..LENGTH_SZ])
  }

  /** A length no message may have stands at the front. */
  ghost predicate StartsBad(s: seq<byte>) {
    |s| >= LENGTH_SZ && (FromBytes32(s[..LENGTH_SZ]) == 0 || FromBytes32(s[..LENGTH_SZ]) > MAX_MSG_SZ)
  }

  /** What a caller is told of a reply: a failure, and then what is queued, come
      before what holds the rest of it back. */
  function Answered(txd: Option<SendResult>, flush: Ret, owed: bool): Ret {
    if txd.Some? && txd.value.Failed? then (if txd.value.delivered then CxnFail else Other)
    else if txd == Some(Took(0)) then CxnFail
    else if txd == Some(Held(WantWrite)) then WantWrite
    else if flush != Success then flush
    else if txd.Some? && txd.value.Held? then txd.value.why
    else if owed then WantWrite
    else Success
  }

  /** The last connection carried some more bytes. */
  ghost function Carried<T>(conns: seq<seq<T>>, more: seq<T>): seq<seq<T>>
    requires |conns| > 0
  {
    conns[..|conns| - 1] + [conns[|conns| - 1] + more]
  }

  class Agent {
    const hasAgentCb: bool
    var connected: bool               // AGENT_STATE_CONNECTED rather than INIT
    var relayActive: bool
    var relayChannel: nat
    var relayBuf: Buffer
    var rxBuf: Buffer
    var buffered: seq<byte>           // in the channel's own input buffer

    ghost var chanRead: seq<byte>          // taken from this channel so far
    ghost var requests: seq<seq<byte>>     // written to the agent
    ghost var replies: seq<seq<byte>>      // read from it
    ghost var heard: seq<byte>             // the octets its reads gave, in order
    ghost var accepted: seq<byte>          // taken by the channel's sends
    ghost var faults: nat                  // calls to the outside that did not go through in full
    ghost var wire: seq<seq<byte>>         // what each agent connection carried
    ghost var carried: seq<seq<seq<byte>>> // the messages on each

    ghost predicate Ok()
      reads `relayBuf, `rxBuf, `wire
    {
      relayBuf.Ok() && rxBuf.Ok() && |wire| > 0
    }

    /** What came after the messages written has a length no message may have. */
    ghost predicate Misframed()
      reads `chanRead, `requests
    {
      Flatten(requests) <= chanRead && StartsBad(chanRead[|Flatten(requests)|..])
    }

    /** The agent's next reply has a length no message may have. */
    ghost predicate AgentMisframed()
      reads `heard, `replies
    {
      Flatten(replies) <= heard && StartsBad(heard[|Flatten(replies)|..])
    }

    /** What may end a call otherwise than with everything relayed. */
    ghost predicate Spoilt(was: nat)
      reads `faults, `chanRead, `requests, `heard, `replies
    {
      faults > was || Misframed() || AgentMisframed()
    }

    ghost predicate Owed()
      reads `rxBuf
    {
      rxBuf.idx < rxBuf.length
    }

    /** The messages written, and what is not framed yet, are the bytes read. */
    ghost predicate RequestsFramed()
      reads `relayBuf, `chanRead, `requests
    {
      && relayBuf.Ok()
      && chanRead == Flatten(requests) + relayBuf.Unread()
      && (forall m <- requests :: Whole(m))
    }

    /** The replies in order are what the agent sent, and what the channel has taken
        and what is held. */
    ghost predicate RepliesInOrder()
      reads `rxBuf, `replies, `heard, `accepted
    {
      && rxBuf.Ok()
      && Flatten(replies) == heard == accepted + rxBuf.Unread()
      && (forall m <- replies :: Whole(m))
    }

    /** Each connection carried whole messages only, and no message twice. */
    ghost predicate WireWhole()
      reads `wire, `carried, `requests
    {
      && |wire| == |carried| > 0
      && (forall i :: 0 <= i < |wire| ==> wire[i] == Flatten(carried[i]))
      && Flatten(carried) == requests
    }

    /** The books of one channel's relay: every request written has its reply. */
    ghost predicate Sound()
      reads `relayBuf, `rxBuf, `wire, `carried, `chanRead, `requests, `replies, `heard, `accepted
    {
      Ok() && RequestsFramed() && RepliesInOrder() && WireWhole() && |replies| == |requests|
    }

    constructor (hasAgentCb: bool)
      ensures Ok() && !relayActive && buffered == []
    {
      this.hasAgentCb, connected, relayActive, relayChannel := hasAgentCb, false, false, 0;
      relayBuf, rxBuf, buffered := EMPTY, EMPTY, [];
      chanRead, requests, replies, heard, accepted, wire, carried := [], [], [], [], [], [[]], [[]];
      faults := 0;
    }

    /** WOLFSSH_AGENT_LOCAL_SETUP: a new connection, or a failure. */
    method Connect() returns (ok: bool)
      modifies `wire, `carried, `faults
      ensures wire == if ok then old(wire) + [[]] else old(wire)
      ensures carried == if ok then old(carried) + [[]] else old(carried)
      ensures faults == old(faults) + if ok then 0 else 1
    {
      ok := *;
      if ok {
        wire, carried := wire + [[]], carried + [[]];
      } else {
        faults := faults + 1;
      }
    }

    /** WOLFSSH_AGENT_IO_WRITE: the connection carries a part of what it is given. */
    method AgentWrite(msg: seq<byte>) returns (sz: int)
      requires |wire| > 0
      modifies `wire, `faults
      ensures wire == if 0 < sz <= |msg| then Carried(old(wire), msg[..sz]) else old(wire)
      ensures faults == old(faults) + if 0 < sz <= |msg| then 0 else 1
    {
      sz := *;
      if 0 < sz <= |msg| {
        wire := Carried(wire, msg[..sz]);
      } else {
        faults := faults + 1;
      }
    }

    /** WOLFSSH_AGENT_IO_READ: the next octets the agent has sent. */
    method AgentRead(room: nat) returns (sz: int, bytes: seq<byte>)
      modifies `heard, `faults
      ensures heard == old(heard) + bytes && (0 < sz <= room ==> |bytes| == sz)
      ensures faults == old(faults) + if 0 < sz <= room then 0 else 1
    {
      sz, bytes := *, *;
      if 0 < sz <= room {
        if |bytes| != sz {
          bytes := seq(sz, i => 0);
        }
      } else {
        faults := faults + 1;
      }
      heard := heard + bytes;
    }

    /** wolfSSH_ChannelIdSend: the channel takes a part of what it is given, holds it
        back or fails, maybe with some of it on its way. */
    method ChannelSend(data: seq<byte>) returns (txd: SendResult)
      requires data != []
      modifies `accepted, `faults
      ensures old(accepted) <= accepted
      ensures txd.Took? ==> txd.n <= |data| && accepted == old(accepted) + data[..txd.n]
      ensures txd.Held? || (txd.Failed? && !txd.delivered) ==> accepted == old(accepted)
      ensures txd.Held? ==> txd.why == WantWrite || txd.why == WindowFull || txd.why == Rekeying
      ensures faults == old(faults) + if txd.Took? && txd.n == |data| then 0 else 1
    {
      txd := *;
      var more: seq<byte> := *;
      if txd.Took? && !(0 <= txd.n <= |data|) {
        txd := Took(|data|);
      }
      if txd.Held? && txd.why != WantWrite && txd.why != WindowFull {
        txd := Held(Rekeying);
      }
      faults := faults + if txd.Took? && txd.n == |data| then 0 else 1;
      accepted := accepted + if txd.Took? then data[..txd.n] else if txd.Failed? && txd.delivered then more else [];
    }

    /** AgentWriteAll */
    method WriteAll(msg: seq<byte>) returns (ret: Ret, wroteSz: nat)
      requires |wire| > 0
      modifies `wire, `faults
      ensures ret == (if wroteSz == |msg| then Success else CxnFail)
      ensures wroteSz <= |msg| && wire == Carried(old(wire), msg[..wroteSz])
      ensures faults == old(faults) + if ret == Success then 0 else 1
    {
      ret, wroteSz := Success, 0;
      CarriedNothing(wire);
      while ret == Success && wroteSz < |msg|
        invariant wroteSz <= |msg| && |wire| > 0 && wire == Carried(old(wire), msg[..wroteSz])
        invariant ret == Success || (ret == CxnFail && wroteSz < |msg|)
        invariant faults == old(faults) + if ret == Success then 0 else 1
        decreases ret == Success, |msg| - wroteSz
      {
        var sz := AgentWrite(msg[wroteSz..]);
        if sz <= 0 || sz > |msg| - wroteSz {
          ret := CxnFail;
        } else {
          assert msg[wroteSz..][..sz] == msg[wroteSz..wroteSz + sz];
          assert msg[..wroteSz] + msg[wroteSz..wroteSz + sz] == msg[..wroteSz + sz];
          CarriedTwice(old(wire), msg[..wroteSz], msg[wroteSz..wroteSz + sz]);
          wroteSz := wroteSz + sz;
        }
      }
    }

    /** AgentWriteMessage: on success the whole message is on one connection, the
        old one or, only if nothing went out on that, a new one. */
    method WriteMessage(msg: seq<byte>) returns (ret: Ret)
      requires |wire| > 0 && |carried| == |wire| && |msg| > 0
      modifies `wire, `carried, `faults
      ensures ret == Success || ret == CxnFail
      ensures faults == old(faults) ==> ret == Success && |wire| == |old(wire)|
      // a dead connection is given up only once another one has failed too
      ensures ret == CxnFail && faults == old(faults) + 1 ==>
              hasAgentCb ==> exists k :: 0 < k < |msg| && wire == Carried(old(wire), msg[..k])
      ensures old(faults) <= faults <= old(faults) + 2
      ensures ret == Success ==>
              || (wire == Carried(old(wire), msg) && carried == Carried(old(carried), [msg]))
              || (hasAgentCb && wire == old(wire) + [msg] && carried == old(carried) + [[msg]])
      ensures ret == CxnFail ==> (exists k ::
        0 <= k < |msg| && (wire == Carried(old(wire), msg[..k]) || wire == old(wire) + [msg[..k]]))
    {
      var wroteSz;
      ret, wroteSz := WriteAll(msg);
      assert msg[..|msg|] == msg;
      if ret == Success {
        carried := Carried(carried, [msg]);
      } else if wroteSz == 0 && hasAgentCb {
        CarriedNothing(old(wire));
        assert msg[..0] == [];
        var ok := Connect();
        if !ok {
          ret := CxnFail;
        } else {
          ret, wroteSz := WriteAll(msg);
          CarriedAfresh(old(wire), msg[..wroteSz]);
          if ret == Success {
            carried := Carried(carried, [msg]);
            CarriedAfresh(old(carried), [msg]);
          }
        }
      }
    }

    /** AgentReadFull: exactly sz octets as the agent sent them, however the reads
        come. */
    method ReadFull(sz: nat) returns (ret: Ret, data: seq<byte>)
      modifies `heard, `faults
      ensures ret == Success || (ret == CxnFail && faults > old(faults))
      ensures ret == Success ==> |data| == sz && heard == old(heard) + data && faults == old(faults)
    {
      ret, data := Success, [];
      while ret == Success && |data| < sz
        invariant |data| <= sz && (ret == Success || (ret == CxnFail && faults > old(faults)))
        invariant ret == Success ==> heard == old(heard) + data && faults == old(faults)
        decreases ret == Success, sz - |data|
      {
        var got, bytes := AgentRead(sz - |data|);
        if got <= 0 || got > sz - |data| {
          ret := CxnFail;
        } else {
          Assoc(old(heard), data, bytes);
          data := data + bytes;
        }
      }
    }

    /** AgentReadMessage: one whole reply into rxBuf. The reset drops nothing,
        because it is only ever called with the last reply sent. */
    method ReadMessage() returns (ret: Ret)
      requires RepliesInOrder() && !Owed()
      modifies `rxBuf, `replies, `heard, `faults
      ensures rxBuf.Ok() && (ret == Success ==> RepliesInOrder() && |replies| == |old(replies)| + 1)
      ensures ret.Benign() ==> ret == Success
      ensures old(faults) <= faults
      ensures ret != Success ==> faults > old(faults) || (ret == Ret.BufferError && AgentMisframed())
    {
      hide Grow, Put;
      var hdr: seq<byte>;
      ret, hdr := ReadFull(LENGTH_SZ);
      if ret != Success {
        return;
      }
      var payloadSz := FromBytes32(hdr);
      if payloadSz == 0 || payloadSz > MAX_MSG_SZ {
        assert heard == Flatten(replies) + hdr && hdr[..LENGTH_SZ] == hdr;
        return Ret.BufferError;
      }
      assert rxBuf.Unread() == [] && accepted + [] == accepted;
      rxBuf := Grow(Reset(rxBuf), payloadSz + LENGTH_SZ);
      var payload: seq<byte>;
      ret, payload := ReadFull(payloadSz);
      if ret == Success {
        assert (hdr + payload)[..LENGTH_SZ] == hdr;
        rxBuf := Put(rxBuf, hdr + payload);
        FlattenSnoc(replies, hdr + payload);
        assert [] + (hdr + payload) == hdr + payload;
        Assoc(old(heard), hdr, payload);
        replies := replies + [hdr + payload];
      }
    }

    /** AgentRelaySendReply: what is left of the reply goes out as far as the
        channel takes it; Success means all of it has. */
    method SendReply() returns (ret: Ret, ghost txd: Option<SendResult>, ghost flush: Ret)
      requires RepliesInOrder()
      modifies `rxBuf, `accepted, `faults
      ensures rxBuf.Ok() && (ret.Benign() ==> RepliesInOrder()) && old(accepted) <= accepted
      ensures ret == Success ==> !Owed() && accepted == Flatten(replies) && Empty(rxBuf)
      ensures old(faults) <= faults && (ret != Success ==> faults > old(faults))
      ensures txd.Some? <==> old(Owed())
      ensures ret == Answered(txd, flush, Owed())
    {
      ret, txd, flush := Success, None, Success;
      if rxBuf.idx < rxBuf.length {
        var rest := rxBuf.mem[rxBuf.idx..rxBuf.length];
        var sent := ChannelSend(rest);
        txd := Some(sent);
        if sent.Took? && sent.n > 0 {
          Assoc(old(accepted), rest[..sent.n], rest[sent.n..]);
          assert rest == rest[..sent.n] + rest[sent.n..];
          rxBuf := rxBuf.(idx := rxBuf.idx + sent.n);
          assert rxBuf.Unread() == rest[sent.n..];
        } else if sent.Held? {
          ret := sent.why;
        } else if sent.Failed? && !sent.delivered {
          ret := Other;
        } else {
          ret := CxnFail;
        }
      }
      if ret == Success || ret == WindowFull || ret == Rekeying {
        var flushed := Flush();
        flush := flushed;
        ret := if flushed == Success then ret else flushed;
      }
      if ret == Success && rxBuf.idx < rxBuf.length {
        ret := WantWrite;
      }
      if ret == Success {
        assert rxBuf.Unread() == [] && accepted + [] == accepted;
        rxBuf := Reset(rxBuf);
      }
    }

    /** What is queued goes out as far as the socket takes it. */
    method Flush() returns (ret: Ret)
      modifies `faults
      ensures ret.Benign() ==> ret == Success || ret == WantWrite
      ensures faults == old(faults) + if ret == Success then 0 else 1
    {
      var pending: bool, txd: Ret, still: bool := *, *, *;
      ret := Success;
      if pending {
        if txd != Success && txd != WantWrite {
          ret := if txd.Benign() then Other else txd;
        } else if still {
          ret := WantWrite;
        }
      }
      faults := faults + if ret == Success then 0 else 1;
    }

    /** The message at the front goes to the agent and is wiped from the buffer. */
    method Request(wholeSz: nat) returns (ret: Ret)
      requires RequestsFramed() && WireWhole() && LENGTH_SZ < wholeSz <= relayBuf.length - relayBuf.idx
      requires Whole(relayBuf.mem[relayBuf.idx..relayBuf.idx + wholeSz])
      modifies `relayBuf, `requests, `wire, `carried, `faults
      ensures relayBuf.Ok() && |wire| > 0 && (ret.Benign() ==> ret == Success)
      ensures old(faults) <= faults && (ret != Success ==> faults > old(faults))
      ensures relayBuf.length - relayBuf.idx == old(relayBuf.length - relayBuf.idx) - wholeSz
      ensures Wiped(old(relayBuf), relayBuf)
      ensures ret == Success ==>
              && RequestsFramed() && WireWhole()
              && requests == old(requests) + [old(relayBuf.mem[relayBuf.idx..relayBuf.idx + wholeSz])]
    {
      hide Take, Flatten;
      ghost var msg := relayBuf.mem[relayBuf.idx..relayBuf.idx + wholeSz];
      ret := WriteMessage(relayBuf.mem[relayBuf.idx..relayBuf.idx + wholeSz]);
      relayBuf := Take(relayBuf, wholeSz);
      if ret == Success {
        FlattenSnoc(requests, msg);
        Assoc(Flatten(requests), msg, relayBuf.Unread());
        WireExtends(old(wire), old(carried), msg);
        MessagesExtend(old(carried), msg);
        FlattenSnoc(old(carried), [msg]);
        requests := requests + [msg];
      }
    }

    /** One turn of the inner loop on a whole message: it is written, and its reply
        read and sent. No request goes out while a reply is owed. */
    method Exchange(wholeSz: nat) returns (ret: Ret)
      requires Sound() && !Owed() && LENGTH_SZ < wholeSz <= relayBuf.length - relayBuf.idx
      requires Whole(relayBuf.mem[relayBuf.idx..relayBuf.idx + wholeSz])
      modifies `relayBuf, `rxBuf, `requests, `replies, `heard, `accepted, `wire, `carried, `faults
      ensures Ok() && (ret.Benign() ==> Sound()) && (ret == Success ==> !Owed())
      ensures old(faults) <= faults && (ret != Success ==> faults > old(faults) || AgentMisframed())
      ensures relayBuf.length - relayBuf.idx == old(relayBuf.length - relayBuf.idx) - wholeSz
      ensures Wiped(old(relayBuf), relayBuf)
      ensures ret.Benign() ==>
              requests == old(requests) + [old(relayBuf.mem[relayBuf.idx..relayBuf.idx + wholeSz])]
      ensures old(accepted) <= accepted
    {
      hide RequestsFramed, RepliesInOrder, WireWhole, Whole;
      ret := Request(wholeSz);
      if ret == Success {
        ret := ReadMessage();
      }
      if ret == Success {
        ghost var txd, flush;
        ret, txd, flush := SendReply();
      }
    }

    /** AgentBufferPrep on the relay buffer. */
    method MakeRoom(sz: nat)
      requires RequestsFramed()
      modifies `relayBuf
      ensures RequestsFramed() && relayBuf.Ok() && relayBuf.Room() >= sz
      ensures relayBuf.Unread() == old(relayBuf.Unread())
      ensures relayBuf.length - relayBuf.idx == old(relayBuf.length - relayBuf.idx)
    {
      hide Grow;
      relayBuf := Grow(relayBuf, sz);
    }

    /** One turn of the outer loop: what the channel holds is read as far as there
        is room, and every whole message in the buffer is exchanged. */
    method Pump() returns (ret: Ret, progress: bool)
      requires Sound() && !Owed()
      modifies `relayBuf, `rxBuf, `buffered, `chanRead, `requests, `replies, `heard, `accepted, `wire, `carried
      modifies `faults
      ensures Ok() && (ret.Benign() ==> Sound()) && (ret == Success ==> !Owed())
      ensures old(faults) <= faults && (ret != Success ==> Spoilt(old(faults)))
      ensures chanRead + buffered == old(chanRead) + old(buffered)
      ensures ret == Success && !progress ==>
              buffered == [] && !StartsWhole(relayBuf.Unread()) && !StartsBad(relayBuf.Unread())
      ensures ret == Success && progress ==>
              var was := old(|buffered| + relayBuf.length - relayBuf.idx);
              var now := |buffered| + relayBuf.length - relayBuf.idx;
              now < was || (now == was && |buffered| < |old(buffered)|)
    {
      ret, progress := Success, false;
      hide RequestsFramed, RepliesInOrder, WireWhole, Flatten;
      MakeRoom(RELAY_CHUNK_SZ);
      var fails: bool := *;
      if fails {
        ret, faults := Other, faults + 1;
      } else {
        progress := ReadChannel();
      }
      ghost var framed := false;
      while ret == Success && relayBuf.length - relayBuf.idx >= LENGTH_SZ
        invariant Ok() && (ret.Benign() ==> Sound()) && (ret == Success ==> !Owed())
        invariant old(faults) <= faults && (ret != Success ==> faults > old(faults) || AgentMisframed())
        invariant ret == Success && !progress ==> buffered == []
        invariant framed ==> progress
        invariant var was := old(|buffered| + relayBuf.length - relayBuf.idx);
                  var now := |buffered| + relayBuf.length - relayBuf.idx;
                  if framed then now < was else now == was
        invariant ret == Success && progress && !framed ==> |buffered| < |old(buffered)|
        invariant chanRead + buffered == old(chanRead) + old(buffered)
        decreases ret == Success, relayBuf.length - relayBuf.idx
      {
        ghost var unread := relayBuf.Unread();
        assert unread[..LENGTH_SZ] == relayBuf.mem[relayBuf.idx..relayBuf.idx + LENGTH_SZ];
        var msgSz := FromBytes32(relayBuf.mem[relayBuf.idx..relayBuf.idx + LENGTH_SZ]);
        if msgSz == 0 || msgSz > MAX_MSG_SZ {
          UnreadIsAhead();
          relayBuf := Reset(relayBuf);
          return Ret.BufferError, progress;
        }
        var wholeSz := msgSz + LENGTH_SZ;
        if relayBuf.length - relayBuf.idx < wholeSz {
          MakeRoom(wholeSz);
          break;
        }
        assert relayBuf.mem[relayBuf.idx..relayBuf.idx + wholeSz][..LENGTH_SZ] == unread[..LENGTH_SZ];
        ret := Exchange(wholeSz);
        progress, framed := true, true;
      }
    }

    lemma UnreadIsAhead()
      requires RequestsFramed()
      ensures Flatten(requests) <= chanRead && chanRead[|Flatten(requests)|..] == relayBuf.Unread()
    {
      hide Flatten;
    }

    /** wolfSSH_ChannelIdRead into the room behind the bytes held. */
    method ReadChannel() returns (progress: bool)
      requires RequestsFramed() && relayBuf.Room() > 0
      modifies `relayBuf, `buffered, `chanRead
      ensures RequestsFramed() && relayBuf.Ok() && chanRead + buffered == old(chanRead) + old(buffered)
      ensures |buffered| + relayBuf.length - relayBuf.idx == old(|buffered| + relayBuf.length - relayBuf.idx)
      ensures progress <==> old(buffered) != []
      ensures if progress then |buffered| < |old(buffered)| else buffered == []
    {
      hide Put;
      var rxd := Min(|buffered|, relayBuf.Room());
      progress := rxd > 0;
      Assoc(Flatten(requests), relayBuf.Unread(), buffered[..rxd]);
      Assoc(chanRead, buffered[..rxd], buffered[rxd..]);
      assert buffered[..rxd] + buffered[rxd..] == buffered;
      relayBuf := Put(relayBuf, buffered[..rxd]);
      chanRead, buffered := chanRead + buffered[..rxd], buffered[rxd..];
    }

    /** Bytes for the channel come in while no relay call is running. */
    method Arrive(bytes: seq<byte>)
      modifies `buffered
      ensures buffered == old(buffered) + bytes
    {
      buffered := buffered + bytes;
    }

    /** A run: calls on one channel, with whatever arrives before each, until one
        ends with something worse than a wait. */
    method Run(channelId: nat, arrivals: seq<seq<byte>>) returns (ret: Ret, calls: nat)
      requires Ok() && relayActive && relayChannel == channelId && Sound()
      modifies this
      ensures calls <= |arrivals| && (ret.Benign() ==> calls == |arrivals| && Sound() && accepted <= heard)
      ensures chanRead + buffered == old(chanRead) + (old(buffered) + Flatten(arrivals[..calls]))
      ensures ret == Success && calls > 0 ==> accepted == Flatten(replies) && buffered == []
      ensures ret != Success ==> Spoilt(old(faults))
    {
      hide Sound;
      ret, calls := Success, 0;
      assert old(chanRead) + old(buffered) == old(chanRead) + (old(buffered) + Flatten(arrivals[..0]));
      while calls < |arrivals| && ret.Benign()
        invariant calls <= |arrivals| && Ok() && relayActive && relayChannel == channelId
        invariant ret.Benign() ==> Sound()
        invariant chanRead + buffered == old(chanRead) + (old(buffered) + Flatten(arrivals[..calls]))
        invariant ret == Success && calls > 0 ==> accepted == Flatten(replies) && buffered == []
        invariant old(faults) <= faults && (ret != Success ==> Spoilt(old(faults)))
      {
        assert arrivals[..calls + 1] == arrivals[..calls] + [arrivals[calls]];
        FlattenSnoc(arrivals[..calls], arrivals[calls]);
        Assoc(chanRead, buffered, arrivals[calls]);
        Assoc(old(chanRead), old(buffered) + Flatten(arrivals[..calls]), arrivals[calls]);
        Assoc(old(buffered), Flatten(arrivals[..calls]), arrivals[calls]);
        Arrive(arrivals[calls]);
        ret := RelayChannel(channelId);
        calls := calls + 1;
      }
      if ret.Benign() {
        TakenIsHeard();
      }
    }

    /** What the channel took is a beginning of what the agent sent. */
    lemma TakenIsHeard()
      requires Sound()
      ensures accepted <= heard
    {
    }

    /** A different channel's conversation starts with nothing held. */
    method Activate(channelId: nat)
      requires Ok()
      modifies `relayBuf, `rxBuf, `relayChannel, `relayActive
      modifies `chanRead, `requests, `replies, `heard, `accepted, `wire, `carried
      ensures Sound() && relayActive && relayChannel == channelId && chanRead == [] && wire == [[]]
    {
      relayBuf, rxBuf, relayChannel, relayActive := Reset(relayBuf), Reset(rxBuf), channelId, true;
      ForgetHistory();
    }

    ghost method ForgetHistory()
      modifies `chanRead, `requests, `replies, `heard, `accepted, `wire, `carried
      ensures chanRead == heard == accepted == [] && requests == replies == [] && wire == [[]] && carried == [[]]
    {
      chanRead, requests, replies, heard, accepted, wire, carried := [], [], [], [], [], [[]], [[]];
    }

    /** The first call connects to the agent. */
    method Setup() returns (ret: Ret)
      requires WireWhole()
      modifies `connected, `wire, `carried, `faults
      ensures old(faults) <= faults && (ret != Success ==> faults > old(faults))
      ensures |wire| > 0 && (ret.Benign() ==> ret == Success && WireWhole())
      ensures connected == (old(connected) || ret == Success)
      ensures ret == if |wire| == |old(wire)| + 1 then Success else CxnFail
    {
      ret := CxnFail;
      FlattenSnoc(carried, []);
      assert requests + [] == requests;
      var ok := Connect();
      if ok {
        connected, ret := true, Success;
      }
    }

    /** What precedes the loop of wolfSSH_AGENT_RelayChannel: bytes held for
        another channel are dropped, and the last call's reply is finished. */
    method Resume(channelId: nat) returns (ret: Ret)
      requires Ok() && (relayActive && relayChannel == channelId ==> Sound())
      modifies this
      ensures Ok() && relayActive && relayChannel == channelId && buffered == old(buffered)
      ensures (ret.Benign() ==> Sound()) && (ret == Success ==> !Owed())
      ensures old(faults) <= faults && (ret != Success ==> faults > old(faults))
      ensures old(connected) || !hasAgentCb ==>
              && connected == old(connected)
              && |wire| == if old(relayActive && relayChannel == channelId) then |old(wire)| else 1
      ensures !old(connected) && hasAgentCb && ret != CxnFail ==> connected
      ensures chanRead == if old(relayActive && relayChannel == channelId) then old(chanRead) else []
    {
      hide RequestsFramed, RepliesInOrder, WireWhole, Flatten, StartsWhole;
      if !relayActive || relayChannel != channelId {
        Activate(channelId);
      }
      ret := Success;
      if !connected && hasAgentCb {
        ret := Setup();
      }
      if ret == Success {
        ghost var txd, flush;
        ret, txd, flush := SendReply();
      }
    }

    /** wolfSSH_AGENT_RelayChannel. However the bytes arrive and the writes go, the
        books stay exact, and Success means that everything whole was relayed. */
    method RelayChannel(channelId: nat) returns (ret: Ret)
      requires Ok() && (relayActive && relayChannel == channelId ==> Sound())
      modifies this
      ensures Ok() && relayActive && relayChannel == channelId
      ensures ret.Benign() ==> Sound()
      ensures chanRead + buffered ==
              (if old(relayActive && relayChannel == channelId) then old(chanRead) else []) + old(buffered)
      ensures ret == Success ==>
              buffered == [] && !StartsWhole(relayBuf.Unread()) && !StartsBad(relayBuf.Unread())
              && accepted == Flatten(replies) == heard
      ensures old(faults) <= faults && (ret != Success ==> Spoilt(old(faults)))
    {
      hide RequestsFramed, RepliesInOrder, WireWhole, Flatten, StartsWhole, StartsBad;
      ret := Resume(channelId);
      ghost var all := chanRead + buffered;
      while ret == Success
        invariant Ok() && (ret.Benign() ==> Sound()) && (ret == Success ==> !Owed())
        invariant chanRead + buffered == all && relayActive && relayChannel == channelId
        invariant old(faults) <= faults && (ret != Success ==> Spoilt(old(faults)))
        decreases ret == Success, |buffered| + relayBuf.length - relayBuf.idx, |buffered|
      {
        var progress: bool;
        ret, progress := Pump();
        if !progress {
          break;
        }
      }
      if ret == Success {
        ghost var txd, flush;
        ret, txd, flush := SendReply();
      }
    }
  }

  lemma LastGrows(init: seq<seq<seq<byte>>>, last: seq<seq<byte>>, msg: seq<byte>)
    ensures Flatten(init + [last + [msg]]) == Flatten(init + [last]) + [msg]
  {
    hide Flatten;
    FlattenSnoc(init, last);
    FlattenSnoc(init, last + [msg]);
    Assoc(Flatten(init), last, [msg]);
  }

  /** One more message on the last connection is one more in the order they went
      out. */
  lemma MessagesExtend(carried: seq<seq<seq<byte>>>, msg: seq<byte>)
    requires |carried| > 0
    ensures Flatten(Carried(carried, [msg])) == Flatten(carried) + [msg]
  {
    hide Flatten, Carried;
    var init, last := CarriedSplits(carried, [msg]);
    LastGrows(init, last, msg);
  }

  lemma CarriedSplits<T>(conns: seq<seq<T>>, more: seq<T>) returns (init: seq<seq<T>>, last: seq<T>)
    requires |conns| > 0
    ensures conns == init + [last] && Carried(conns, more) == init + [last + more]
  {
    init, last := conns[..|conns| - 1], conns[|conns| - 1];
  }

  /** One more whole message on a connection keeps the wire whole. */
  lemma WireExtends(wire: seq<seq<byte>>, carried: seq<seq<seq<byte>>>, msg: seq<byte>)
    requires |wire| == |carried| > 0
    requires forall i :: 0 <= i < |wire| ==> wire[i] == Flatten(carried[i])
    ensures var w, c := Carried(wire, msg), Carried(carried, [msg]);
            forall i :: 0 <= i < |w| ==> w[i] == Flatten(c[i])
    ensures var w, c := wire + [msg], carried + [[msg]];
            forall i :: 0 <= i < |w| ==> w[i] == Flatten(c[i])
  {
    FlattenSnoc(carried[|carried| - 1], msg);
    FlattenSnoc([], msg);
    assert [] + [msg] == [msg] && [] + msg == msg;
    hide Flatten;
  }

  lemma FrontMessage(parts: seq<seq<byte>>, rest: seq<byte>)
    requires |parts| > 0 && Whole(parts[0])
    ensures var all, m := Flatten(parts) + rest, parts[0];
            && StartsWhole(all) && all[..LENGTH_SZ] == m[..LENGTH_SZ] && all[..|m|] == m
            && all[|m|..] == Flatten(parts[1..]) + rest
  {
    var m := parts[0];
    Assoc(m, Flatten(parts[1..]), rest);
    assert (m + (Flatten(parts[1..]) + rest))[..LENGTH_SZ] == m[..LENGTH_SZ];
  }

  /** A byte stream has one framing only: what the agent was written is fixed by
      what the channel delivered, in whatever pieces that came. */
  lemma {:induction false} FramingIsUnique(a: seq<seq<byte>>, r: seq<byte>, b: seq<seq<byte>>, s: seq<byte>)
    requires (forall m <- a :: Whole(m)) && (forall m <- b :: Whole(m))
    requires !StartsWhole(r) && !StartsWhole(s)
    requires Flatten(a) + r == Flatten(b) + s
    ensures a == b && r == s
    decreases |a|
  {
    assert Flatten([]) + r == r && Flatten([]) + s == s;
    if a != [] {
      FrontMessage(a, r);
    }
    if b != [] {
      FrontMessage(b, s);
    }
    if a != [] && b != [] {
      FramingIsUnique(a[1..], r, b[1..], s);
      assert a == [a[0]] + a[1..] && b == [b[0]] + b[1..];
    }
  }

  /** The octets the cursor has moved over are gone from the memory. */
  predicate Wiped(was: Buffer, b: Buffer) {
    was.idx <= b.idx <= |b.mem| && forall k :: was.idx <= k < b.idx ==> b.mem[k] == 0
  }

  predicate Empty(b: Buffer) {
    b.idx == b.length == 0 && forall k :: 0 <= k < |b.mem| ==> b.mem[k] == 0
  }

  /** AgentBufferReset */
  function Reset(b: Buffer): (r: Buffer)
    ensures r.Ok() && r.Unread() == []
  {
    Buffer(Zeros(|b.mem|), 0, 0)
  }

  lemma CarriedNothing<T>(conns: seq<seq<T>>)
    requires |conns| > 0
    ensures Carried(conns, []) == conns
  {
    assert conns[|conns| - 1] + [] == conns[|conns| - 1];
  }

  lemma CarriedAfresh<T>(conns: seq<seq<T>>, a: seq<T>)
    ensures Carried(conns + [[]], a) == conns + [a]
  {
    assert [] + a == a && (conns + [[]])[..|conns|] == conns;
  }

  lemma CarriedTwice<T>(conns: seq<seq<T>>, a: seq<T>, b: seq<T>)
    requires |conns| > 0
    ensures Carried(Carried(conns, a), b) == Carried(conns, a + b)
  {
    Assoc(conns[|conns| - 1], a, b);
  }
}
