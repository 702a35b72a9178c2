/**
 * A channel's receive window (section 5.2 of RFC 4254): ordinary data and stderr
 * share it, stdout reads credit it back lazily, and credit that cannot go out,
 * during a rekey (section 7.1 of RFC 4253) or because a send failed, is parked.
 */
module ChannelWindow {
  import opened Bytes
  import opened Buffers

  const MAX_WORD32 := 0xFFFF_FFFF

  datatype Ret = Success | WantWrite | SocketError | SendFailed | Overflow | RecvOverflow | Fatal

  /** What becomes of an adjust handed to SendChannelWindowAdjust: it is flushed,
      or framed for a later flush; it is flushed and the highwater callback then
      fails, with a socket error or otherwise; a socket error discards it; or it
      was never bundled. */
  datatype SendIo =
    | Flushed
    | Framed
    | FlushedThenFailed
    | FlushedThenSocketError
    | Discarded
    | NotBundled
  {
    predicate Bundled() {
      !NotBundled?
    }

    function Ret(): Ret {
      match this
      case Flushed => Success
      case Framed => WantWrite
      case FlushedThenFailed => SendFailed
      case FlushedThenSocketError => SocketError
      case Discarded => SocketError
      case NotBundled => SendFailed
    }

    /** Nothing of it stays owed. */
    predicate Clears() {
      Flushed? || Framed? || FlushedThenFailed?
    }

    /** The peer gets to see it. */
    predicate Reaches() {
      Flushed? || Framed? || FlushedThenFailed? || FlushedThenSocketError?
    }
  }

  class Channel {
    const initial: nat
    const maxPacketSz: nat
    var windowSz: nat
    var pendingWindowAdjust: nat
    var inputBuffer: Buffer
    var extDataBuffer: Buffer
    var isKeying: bool
    var disconnected: bool

    ghost var arrivedIn: seq<byte>    // accepted on each stream
    ghost var arrivedExt: seq<byte>
    ghost var readIn: seq<byte>       // handed to the application
    ghost var readExt: seq<byte>
    ghost var ignored: nat            // accepted with an unknown type code
    ghost var credited: nat           // added to windowSz
    ghost var announced: nat          // sent to the peer as adjusts
    ghost var lost: nat               // dropped because parking it would overflow
    ghost var twice: nat              // parked again although the peer got it
    ghost var lastTry: Option<SendIo> // what became of the last adjust handed to the transport
    ghost var honest: bool            // the peer has kept to its window so far

    /** What the peer may still send by its own count. */
    ghost function PeerView(): int
      reads this
    {
      initial + announced - |arrivedIn| - |arrivedExt| - ignored
    }

    /** Each stream's reads are a prefix of what arrived on it. */
    ghost predicate Streams()
      reads `inputBuffer, `extDataBuffer, `arrivedIn, `arrivedExt, `readIn, `readExt
    {
      && inputBuffer.Ok() && extDataBuffer.Ok() && |inputBuffer.mem| == initial
      && arrivedIn == readIn + inputBuffer.Unread()
      && arrivedExt == readExt + extDataBuffer.Unread()
    }

    /** Conservation of the window, and of the credit that reopens it. */
    ghost predicate Balanced()
      reads this
    {
      && initial <= MAX_WORD32 && pendingWindowAdjust <= MAX_WORD32
      && Streams() && inputBuffer.Ok() && extDataBuffer.Ok() && |inputBuffer.mem| == initial
      && windowSz + inputBuffer.length + (extDataBuffer.length - extDataBuffer.idx) == initial
      && windowSz + |arrivedIn| + |arrivedExt| == initial + credited
      && announced + pendingWindowAdjust + lost == credited + ignored + twice
      // while nothing was counted twice, a peer that keeps to its window is never
      // overdrawn, and loses no credit
      && (honest && twice == 0 ==> lost == 0 && PeerView() >= 0)
    }

    /** Credit may go out: neither a rekey nor a disconnect holds it back. */
    predicate Open()
      reads `isKeying, `disconnected
    {
      !isKeying && !disconnected
    }

    ghost predicate LastParked()
      reads `lastTry
    {
      lastTry.Some? && !lastTry.value.Clears()
    }

    /** While credit may go out, some is owed exactly when the last adjust that was
        tried was parked. */
    ghost predicate Owed()
      reads `lastTry, `pendingWindowAdjust, `isKeying, `disconnected
    {
      && (LastParked() ==> pendingWindowAdjust > 0)
      && (Open() && pendingWindowAdjust > 0 ==> LastParked())
    }

    ghost predicate Valid()
      reads this
    {
      && Balanced() && Owed()
      && (inputBuffer.idx == inputBuffer.length ==> inputBuffer.length <= initial / 2)
    }

    constructor (initial: nat, maxPacketSz: nat)
      requires initial <= MAX_WORD32
      ensures Valid() && windowSz == initial == this.initial && this.maxPacketSz == maxPacketSz
      ensures arrivedIn == arrivedExt == readIn == readExt == [] && honest && !isKeying && !disconnected
      ensures pendingWindowAdjust == announced == ignored == twice == 0 && lastTry == None
    {
      this.initial, this.maxPacketSz, windowSz := initial, maxPacketSz, initial;
      pendingWindowAdjust, isKeying, disconnected := 0, false, false;
      inputBuffer, extDataBuffer := Buffer(Zeros(initial), 0, 0), EMPTY;
      arrivedIn, arrivedExt, readIn, readExt := [], [], [], [];
      ignored, credited, announced, lost, twice, honest, lastTry := 0, 0, 0, 0, 0, true, None;
    }

    /** The credit books move by what became of one amount of credit. */
    twostate predicate Settles(c: Settled, io: SendIo)
      reads this
    {
      && pendingWindowAdjust == c.pending
      && announced == old(announced) + c.sent
      && lost == old(lost) + c.lost
      && twice == old(twice) + c.twice
      && lastTry == if c.tried then Some(io) else old(lastTry)
    }

    /** ChannelCreditWindow: the credit goes out together with what was parked, or
        all of it is parked; only parking that would pass 32 bits drops it. */
    method CreditWindow(amount: nat, io: SendIo) returns (ret: Ret)
      requires pendingWindowAdjust <= MAX_WORD32
      modifies `pendingWindowAdjust, `announced, `lost, `twice, `lastTry
      ensures Settles(Settle(old(pendingWindowAdjust), amount, Open(), io), io)
      ensures ret == Overflow <==> amount > MAX_WORD32 - old(pendingWindowAdjust)
      ensures old(Owed()) || (amount == 0 && old(pendingWindowAdjust) > 0) ==> Owed()
      ensures ret != RecvOverflow && ret != Fatal
    {
      if amount > MAX_WORD32 - pendingWindowAdjust {
        lost := lost + amount;
        return Overflow;
      }
      var total := pendingWindowAdjust + amount;
      if total == 0 {
        return Success;
      }
      if isKeying || disconnected {
        pendingWindowAdjust := total;
        return Success;
      }
      pendingWindowAdjust := 0;
      lastTry := Some(io);
      ret := io.Ret();
      announced := announced + if io.Reaches() then total else 0;
      if !io.Bundled() || ret == SocketError {
        pendingWindowAdjust := total;
        twice := twice + if io.Reaches() then total else 0;
      }
    }

    /** With a peer that keeps to its window and nothing counted twice, what is
        parked never passes what the window holds back, so the guard never fires. */
    lemma NoOverflow(amount: nat)
      requires Balanced() && honest && twice == 0 && windowSz + amount <= initial
      ensures amount <= MAX_WORD32 - pendingWindowAdjust
    {
    }

    /** DoChannelData and ChannelPutData. Nonempty data that a peer keeping to its
        window may send is always taken. */
    method PutData(data: seq<byte>) returns (ret: Ret)
      requires Valid()
      modifies `windowSz, `inputBuffer, `arrivedIn, `honest
      ensures Valid() && honest == (old(honest) && (ret == Success ==> |data| <= old(PeerView())))
      ensures ret == Success <==>
              |data| <= maxPacketSz && |data| <= old(windowSz) && old(inputBuffer.length) < initial
      ensures old(honest) && twice == 0 && 0 < |data| <= maxPacketSz && |data| <= old(PeerView()) ==> ret == Success
      ensures arrivedIn == old(arrivedIn) + (if ret == Success then data else [])
    {
      hide Put, Owed;
      if |data| > maxPacketSz {
        return RecvOverflow;
      }
      if |data| > windowSz {
        return Fatal;
      }
      if inputBuffer.length < |inputBuffer.mem| && inputBuffer.length + |data| <= |inputBuffer.mem| {
        honest := honest && |data| <= PeerView();
        Assoc(readIn, inputBuffer.Unread(), data);
        inputBuffer := Put(inputBuffer, data);
        windowSz := windowSz - |data|;
        arrivedIn := arrivedIn + data;
        return Success;
      }
      return RecvOverflow;
    }

    /** DoChannelExtendedData for stderr, with AppendBuffer */
    method PutExtData(data: seq<byte>) returns (ret: Ret)
      requires Valid()
      modifies `windowSz, `extDataBuffer, `arrivedExt, `honest
      ensures Valid() && honest == (old(honest) && (ret == Success ==> |data| <= old(PeerView())))
      ensures ret == Success <==> |data| <= maxPacketSz && |data| <= old(windowSz)
      ensures old(honest) && twice == 0 && |data| <= maxPacketSz && |data| <= old(PeerView()) ==> ret == Success
      ensures arrivedExt == old(arrivedExt) + (if ret == Success then data else [])
    {
      hide Put, Grow, Owed;
      if |data| > maxPacketSz || |data| > windowSz {
        return RecvOverflow;
      }
      honest := honest && |data| <= PeerView();
      Assoc(readExt, extDataBuffer.Unread(), data);
      extDataBuffer := Append(extDataBuffer, data);
      windowSz := windowSz - |data|;
      arrivedExt := arrivedExt + data;
      return Success;
    }

    /** DoChannelExtendedData for any other type code: the data is dropped and the
        window it took at the peer is credited straight back. */
    method PutUnknownData(sz: nat, io: SendIo) returns (ret: Ret)
      requires Valid()
      modifies `pendingWindowAdjust, `announced, `lost, `twice, `lastTry, `ignored, `honest
      ensures Valid()
      ensures !io.FlushedThenSocketError? ==> twice == old(twice)
      ensures ret == RecvOverflow <==> sz > maxPacketSz || sz > windowSz
      ensures honest == (old(honest) && (ret != RecvOverflow ==> sz <= old(PeerView())))
      ensures ignored == old(ignored) + if ret == RecvOverflow then 0 else sz
      ensures Settles(if ret == RecvOverflow then Still(old(pendingWindowAdjust))
                      else Settle(old(pendingWindowAdjust), sz, Open(), io), io)
    {
      hide Streams, Settle, Owed;
      if sz > maxPacketSz || sz > windowSz {
        return RecvOverflow;
      }
      var creditResult := Ignore(sz, io);
      ret := if creditResult == WantWrite then Success else creditResult;
    }

    method Ignore(sz: nat, io: SendIo) returns (ret: Ret)
      requires Valid() && sz <= windowSz
      modifies `pendingWindowAdjust, `announced, `lost, `twice, `lastTry, `ignored, `honest
      ensures Balanced() && Owed() && ignored == old(ignored) + sz && ret != RecvOverflow
      ensures honest == (old(honest) && sz <= old(PeerView()))
      ensures Settles(Settle(old(pendingWindowAdjust), sz, Open(), io), io)
    {
      hide Streams, Settle, Owed;
      honest := honest && sz <= PeerView();
      ret := CreditWindow(sz, io);
      ignored := ignored + sz;
    }

    /** GrowBuffer by nothing drops the octets read away and cannot reallocate. */
    method Compact()
      requires Streams()
      modifies `inputBuffer
      ensures Streams() && inputBuffer.Unread() == old(inputBuffer.Unread())
      ensures inputBuffer.Ok() && |inputBuffer.mem| == initial
      ensures inputBuffer.idx == 0 && inputBuffer.length == old(inputBuffer.length - inputBuffer.idx)
    {
      hide Grow;
      inputBuffer := Grow(inputBuffer, 0);
    }

    /** _BufferTake on each stream: the octets handed out leave the buffer. */
    method TakeIn(n: nat) returns (data: seq<byte>)
      requires Streams() && n <= inputBuffer.length - inputBuffer.idx
      modifies `inputBuffer, `readIn
      ensures Streams() && inputBuffer.idx == old(inputBuffer.idx) + n && inputBuffer.length == old(inputBuffer.length)
      ensures inputBuffer.Ok() && |inputBuffer.mem| == initial
      ensures |data| == n && Wiped(old(inputBuffer), inputBuffer)
      ensures readIn == old(readIn) + data && old(inputBuffer.Unread()) == data + inputBuffer.Unread()
    {
      hide Take;
      data := inputBuffer.mem[inputBuffer.idx..inputBuffer.idx + n];
      inputBuffer := Take(inputBuffer, n);
      Assoc(readIn, data, inputBuffer.Unread());
      readIn := readIn + data;
    }

    method TakeExt(n: nat) returns (data: seq<byte>)
      requires Streams() && n <= extDataBuffer.length - extDataBuffer.idx
      modifies `extDataBuffer, `readExt
      ensures Streams() && extDataBuffer.idx == old(extDataBuffer.idx) + n
      ensures extDataBuffer.length == old(extDataBuffer.length)
      ensures extDataBuffer.Ok() && |data| == n && Wiped(old(extDataBuffer), extDataBuffer)
      ensures readExt == old(readExt) + data && old(extDataBuffer.Unread()) == data + extDataBuffer.Unread()
    {
      hide Take;
      data := extDataBuffer.mem[extDataBuffer.idx..extDataBuffer.idx + n];
      extDataBuffer := Take(extDataBuffer, n);
      Assoc(readExt, data, extDataBuffer.Unread());
      readExt := readExt + data;
    }

    /** ShrinkBuffer releases the stderr allocation once it is drained. */
    method ReleaseExt()
      requires Streams()
      modifies `extDataBuffer
      ensures Streams() && extDataBuffer.Ok()
      ensures extDataBuffer.length - extDataBuffer.idx == old(extDataBuffer.length - extDataBuffer.idx)
      ensures extDataBuffer.idx == extDataBuffer.length ==> |extDataBuffer.mem| == STATIC_SZ
      ensures extDataBuffer.Unread() == old(extDataBuffer.Unread())
    {
      hide Shrink;
      if extDataBuffer.idx == extDataBuffer.length {
        extDataBuffer := Shrink(extDataBuffer);
      }
    }

    /** What both kinds of read do with the window: it reopens by what was read, and
        the credit for that goes out or is parked. */
    method Reopen(n: nat, io: SendIo) returns (ret: Ret)
      requires Streams() && Owed() && inputBuffer.Ok() && extDataBuffer.Ok() && |inputBuffer.mem| == initial
      requires windowSz + n + inputBuffer.length + (extDataBuffer.length - extDataBuffer.idx) == initial
      requires initial <= MAX_WORD32 && pendingWindowAdjust <= MAX_WORD32
      requires windowSz + |arrivedIn| + |arrivedExt| == initial + credited
      requires announced + pendingWindowAdjust + lost == credited + ignored + twice
      requires honest && twice == 0 ==> lost == 0 && PeerView() >= 0
      modifies `windowSz, `pendingWindowAdjust, `announced, `lost, `twice, `lastTry, `credited
      ensures Balanced() && Owed() && windowSz == old(windowSz) + n
      ensures Settles(Settle(old(pendingWindowAdjust), n, Open(), io), io)
    {
      hide Streams, Settle, Wiped, Buffer.Unread, Owed;
      windowSz := windowSz + n;
      credited := credited + n;
      ret := CreditWindow(n, io);
    }

    /** _UpdateChannelWindow: only once more than half of the buffer has been used,
        or the window is shut, are the octets read away compacted and credited. */
    method UpdateWindow(io: SendIo) returns (ret: Ret)
      requires Balanced() && Owed()
      modifies `windowSz, `pendingWindowAdjust, `inputBuffer, `announced, `lost, `twice, `lastTry, `credited
      ensures Valid() && inputBuffer.Unread() == old(inputBuffer.Unread())
      ensures !io.FlushedThenSocketError? ==> twice == old(twice)
      ensures windowSz == old(windowSz) + if Moves(old(inputBuffer), old(windowSz)) then old(inputBuffer.idx) else 0
      ensures inputBuffer.idx == if Moves(old(inputBuffer), old(windowSz)) then 0 else old(inputBuffer.idx)
      ensures Settles(if Moves(old(inputBuffer), old(windowSz))
                      then Settle(old(pendingWindowAdjust), old(inputBuffer.idx), Open(), io)
                      else Still(old(pendingWindowAdjust)), io)
    {
      hide Streams, Settle, Owed;
      ret := Success;
      if Moves(inputBuffer, windowSz) {
        var bytesToAdd := inputBuffer.idx;
        Compact();
        ret := Reopen(bytesToAdd, io);
      }
    }

    /** _ChannelRead: up to sz octets of stdout. It reopens the window once more than
        half of the buffer has been used, or if it is shut, whatever stderr holds. */
    method Read(sz: nat, io: SendIo) returns (data: seq<byte>)
      requires Valid() && sz > 0
      modifies `windowSz, `pendingWindowAdjust, `inputBuffer, `announced, `lost, `twice, `lastTry, `credited, `readIn
      ensures Valid() && |data| == Min(sz, old(inputBuffer.length - inputBuffer.idx))
      ensures !io.FlushedThenSocketError? ==> twice == old(twice)
      ensures readIn == old(readIn) + data && old(inputBuffer.Unread()) == data + inputBuffer.Unread()
      ensures |data| > 0 ==> (windowSz > old(windowSz) <==> old(inputBuffer.length) > initial / 2 || old(windowSz) == 0)
      ensures windowSz ==
              old(windowSz) + if Moves(old(inputBuffer), old(windowSz)) then old(inputBuffer.idx) + |data| else 0
      ensures Moves(old(inputBuffer), old(windowSz)) ==> inputBuffer.idx == 0
      ensures !Moves(old(inputBuffer), old(windowSz)) ==> inputBuffer.idx == old(inputBuffer.idx) + |data|
      ensures Settles(if Moves(old(inputBuffer), old(windowSz))
                      then Settle(old(pendingWindowAdjust), old(inputBuffer.idx) + |data|,
                                  Open(), io)
                      else Still(old(pendingWindowAdjust)), io)
    {
      hide Streams, Settle, Wiped, Owed;
      var n := Min(sz, inputBuffer.length - inputBuffer.idx);
      data := TakeIn(n);
      var ret := UpdateWindow(io);
    }

    /** _ChannelReadExt: up to sz octets of stderr, credited at once. */
    method ReadExt(sz: nat, io: SendIo) returns (data: seq<byte>)
      requires Valid() && sz > 0
      modifies `windowSz, `pendingWindowAdjust, `extDataBuffer, `announced, `lost, `twice, `lastTry, `credited, `readExt
      ensures Valid() && |data| == Min(sz, old(extDataBuffer.length - extDataBuffer.idx))
      ensures !io.FlushedThenSocketError? ==> twice == old(twice)
      ensures readExt == old(readExt) + data && old(extDataBuffer.Unread()) == data + extDataBuffer.Unread()
      ensures windowSz == old(windowSz) + |data|
      ensures Settles(if |data| > 0 then Settle(old(pendingWindowAdjust), |data|, Open(), io)
                      else Still(old(pendingWindowAdjust)), io)
    {
      hide Streams, Settle, Wiped, Buffer.Unread, Owed;
      var n := Min(sz, extDataBuffer.length - extDataBuffer.idx);
      data := TakeExt(n);
      if n > 0 {
        ReleaseExt();
        var ret := Reopen(n, io);
      }
    }

    /** A rekey starts or ends; when it ends the parked credit is flushed, as
        SendPendingChannelWindowAdjust does. */
    method SetKeying(keying: bool, io: SendIo)
      requires Valid()
      modifies `isKeying, `pendingWindowAdjust, `announced, `lost, `twice, `lastTry
      ensures Valid() && isKeying == keying
      ensures !io.FlushedThenSocketError? ==> twice == old(twice)
      ensures Settles(Settle(old(pendingWindowAdjust), 0, Open(), io), io)
    {
      hide Streams;
      isKeying := keying;
      if !isKeying && pendingWindowAdjust != 0 {
        var ret := CreditWindow(0, io);
      }
    }

    predicate Drained()
      reads this
    {
      inputBuffer.idx == inputBuffer.length && extDataBuffer.idx == extDataBuffer.length
    }

    /** No flow-control stall on this side: in every reachable state with both
        buffers drained the window is open for at least half of what it was. */
    lemma DrainedWindowOpen()
      requires Valid() && Drained()
      ensures windowSz >= initial - initial / 2
      ensures PeerView() == windowSz + twice - pendingWindowAdjust - lost
    {
    }

    /** The peer sees the whole window exactly when the last try, if any, cleared
        what was parked; otherwise it is short by what is parked, and drained it is
        blocked if and only if that covers the whole window. */
    lemma PeerBlockedExactly()
      requires Valid() && Open() && honest && twice == 0 && initial > 0
      ensures PeerView() == windowSz <==> !LastParked()
      ensures PeerView() == windowSz - pendingWindowAdjust
      ensures Drained() ==> (PeerView() <= 0 <==> LastParked() && pendingWindowAdjust >= windowSz)
    {
    }

    /** What an operation does with credit, if it credits at all: the amount, and
        what becomes of an adjust that is tried. */
    ghost function Credit(op: Op): Option<nat>
      reads this
    {
      match op
      case ArriveUnknown(sz, _) => if sz > maxPacketSz || sz > windowSz then None else Some(sz)
      case ReadIn(sz, _) =>
        if sz == 0 || !Moves(inputBuffer, windowSz) || inputBuffer.idx > inputBuffer.length then None
        else Some(inputBuffer.idx + Min(sz, inputBuffer.length - inputBuffer.idx))
      case ReadErr(sz, _) =>
        if sz == 0 || extDataBuffer.idx >= extDataBuffer.length then None
        else Some(Min(sz, extDataBuffer.length - extDataBuffer.idx))
      case Keying(_, _) => Some(0)
      case _ => None
    }

    /** What an operation leaves of the credit books. */
    twostate predicate Credits(op: Op, amount: Option<nat>)
      reads this
      requires old(pendingWindowAdjust) <= MAX_WORD32
    {
      match amount
      case None => Settles(Still(old(pendingWindowAdjust)), NotBundled)
      case Some(n) => op.Adjusts() && Settles(Settle(old(pendingWindowAdjust), n, Open(), op.io), op.io)
    }

    /** When parked credit stays: it goes exactly with an operation that credits
        something outside a rekey, within 32 bits, and whose adjust clears. */
    twostate lemma ParkedGoesExactly(op: Op, amount: Option<nat>)
      requires 0 < old(pendingWindowAdjust) <= MAX_WORD32 && Credits(op, amount)
      ensures pendingWindowAdjust == 0 <==>
              && amount.Some? && Open() && op.io.Clears()
              && old(pendingWindowAdjust) + amount.value <= MAX_WORD32
    {
      hide Settle;
    }

    /** Every interleaving of the operations keeps both conservation laws and the
        prefixes, whatever becomes of each adjust. If every adjust tried since the
        start has cleared what was parked, then outside a rekey and before a
        disconnect nothing is owed, so a drained channel's peer that has kept to its
        window may send half of what it could at the start. */
    method Drive(ops: seq<Op>)
      requires Valid()
      modifies this
      ensures Valid() && old(readIn) <= readIn <= arrivedIn && old(readExt) <= readExt <= arrivedExt
      ensures (forall op <- ops :: !op.CountsTwice()) ==> twice == old(twice)
      ensures (forall op <- ops :: op.Adjusts() ==> op.io.Clears()) && !old(LastParked()) ==> !LastParked()
      ensures Open() && !LastParked() ==>
              && pendingWindowAdjust == 0
              && (Drained() && honest && twice == 0 ==> PeerView() == windowSz >= initial - initial / 2)
    {
      for i := 0 to |ops|
        invariant Valid() && old(readIn) <= readIn && old(readExt) <= readExt
        invariant (forall op <- ops[..i] :: !op.CountsTwice()) ==> twice == old(twice)
        invariant (forall op <- ops[..i] :: op.Adjusts() ==> op.io.Clears()) && !old(LastParked()) ==> !LastParked()
      {
        assert ops[i] in ops[..i + 1];
        assert forall op <- ops[..i] :: op in ops[..i + 1];
        Apply(ops[i]);
      }
      assert ops[..|ops|] == ops;
    }

    /** One operation: the credit it gives and no other moves the books. */
    method Apply(op: Op)
      requires Valid()
      modifies this
      ensures Valid() && old(readIn) <= readIn && old(readExt) <= readExt
      ensures Credits(op, old(Credit(op)))
    {
      hide Streams, Balanced, Settle, Owed;
      match op {
        case ArriveData(data) => var ret := PutData(data);
        case ArriveExt(data) => var ret := PutExtData(data);
        case ArriveUnknown(sz, io) => var ret := PutUnknownData(sz, io);
        case ReadIn(sz, io) => if sz > 0 { var data := Read(sz, io); }
        case ReadErr(sz, io) => if sz > 0 { var data := ReadExt(sz, io); }
        case Keying(on, io) => SetKeying(on, io);
        case Disconnect => Hangup();
      }
    }

    method Hangup()
      requires Valid()
      modifies `disconnected
      ensures Valid() && disconnected
    {
      disconnected := true;
    }
  }

  /** Whether _UpdateChannelWindow compacts and credits. */
  predicate Moves(b: Buffer, windowSz: nat) {
    b.length > |b.mem| / 2 || windowSz == 0
  }

  /** The parked credit afterwards; what was sent, dropped, and kept parked although
      sent; and whether an adjust was handed to the transport at all. */
  datatype Settled = Settled(pending: nat, sent: nat, lost: nat, twice: nat, tried: bool)

  function Still(pending: nat): Settled {
    Settled(pending, 0, 0, 0, false)
  }

  /** No credit vanishes: what was parked and the new amount are sent, parked or
      dropped, and only the last exactly when the sum passes 32 bits. Parked credit
      goes exactly with an adjust that is tried and clears it, and credit is counted
      twice exactly in one whose flush is followed by a socket error. */
  function Settle(pending: nat, amount: nat, open: bool, io: SendIo): (c: Settled)
    requires pending <= MAX_WORD32
    ensures pending + amount + c.twice == c.pending + c.sent + c.lost && c.pending <= MAX_WORD32
    ensures c.tried <==> open && 0 < pending + amount <= MAX_WORD32
    ensures c.lost == if pending + amount > MAX_WORD32 then amount else 0
    ensures c.tried ==> (c.pending == 0 <==> io.Clears())
    ensures c.twice == if c.tried && io.FlushedThenSocketError? then c.sent else 0
    ensures c.sent > 0 <==> c.tried && io.Reaches()
  {
    var total := pending + amount;
    if total > MAX_WORD32 then Settled(pending, 0, amount, 0, false)
    else if !open || total == 0 then Still(total)
    else match io
      case Flushed | Framed | FlushedThenFailed => Settled(0, total, 0, 0, true)
      case FlushedThenSocketError => Settled(total, total, 0, total, true)
      case Discarded | NotBundled => Settled(total, 0, 0, 0, true)
  }

  /** The octets the cursor has moved over are gone from the memory. */
  predicate Wiped(was: Buffer, b: Buffer) {
    b.idx <= |b.mem| && forall k :: was.idx <= k < b.idx ==> b.mem[k] == 0
  }

  /** AppendBuffer: doubles the allocation when it has to grow, where it can. */
  function Append(b: Buffer, data: seq<byte>): (r: Buffer)
    requires b.Ok()
    ensures r.Ok() && r.Unread() == b.Unread() + data && r.idx == 0
    ensures var need := |b.Unread()| + |data|;
            |r.mem| == if need <= |b.mem| then |b.mem|
                       else if need < 2 * |b.mem| <= MAX_WORD32 then 2 * |b.mem| else need
  {
    hide Put;
    var used := b.length - b.idx;
    var need := used + |data|;
    var target := if |b.mem| <= MAX_WORD32 / 2 && |b.mem| * 2 > need then |b.mem| * 2 else need;
    var growSz := if need > |b.mem| then target - used else |data|;
    Put(Grow(b, growSz), data)
  }

  datatype Op =
    | ArriveData(data: seq<byte>)
    | ArriveExt(data: seq<byte>)
    | ArriveUnknown(sz: nat, io: SendIo)
    | ReadIn(sz: nat, io: SendIo)
    | ReadErr(sz: nat, io: SendIo)
    | Keying(on: bool, io: SendIo)
    | Disconnect
  {
    /** It has an adjust's outcome to it. */
    predicate Adjusts() {
      ArriveUnknown? || ReadIn? || ReadErr? || Keying?
    }

    predicate CountsTwice() {
      Adjusts() && io.FlushedThenSocketError?
    }
  }

  /** A channel whose peer has used up its window in one go. */
  method Filled(window: nat) returns (c: Channel)
    requires 0 < window <= MAX_WORD32
    ensures fresh(c) && c.Valid() && c.honest && c.Open() && c.initial == window
    ensures c.windowSz == c.pendingWindowAdjust == 0
    ensures c.inputBuffer.length - c.inputBuffer.idx == window && c.twice == 0 && c.PeerView() == 0
  {
    c := new Channel(window, window);
    var ret := c.PutData(Zeros(window));
  }

  /** That the peer sees the open window is not guaranteed: a window filled and
      read in one go, whose adjust was never bundled, leaves the peer with nothing
      to send, outside any rekey, and further reads do not send the credit. */
  method StallAfterFailedAdjust(window: nat) returns (c: Channel)
    requires 0 < window <= MAX_WORD32
    ensures fresh(c) && c.Valid() && c.honest && c.twice == 0 && c.Drained() && !c.isKeying && !c.disconnected
    ensures c.windowSz == c.initial == window && c.PeerView() == 0
  {
    hide Channel.Streams;
    c := Filled(window);
    var data := c.Read(window, NotBundled);
    var more := c.Read(1, Flushed);
  }

  /** Nor is the credit conserved through every failure: an adjust whose flush is
      followed by a socket error from the highwater callback is parked although
      the peer got it, and goes out again. */
  method CreditSentTwice(window: nat) returns (c: Channel)
    requires 0 < window <= MAX_WORD32
    ensures fresh(c) && c.Valid() && c.honest && c.Drained()
    ensures c.windowSz == c.initial == window && c.PeerView() == 2 * window
  {
    hide Channel.Streams;
    c := Filled(window);
    var data := c.Read(window, FlushedThenSocketError);
    c.SetKeying(false, Flushed);
  }
}
