/**
 * WOLFSSH_BUFFER: memory with a read cursor and a fill mark. Growing compacts
 * the octets already read away; shrinking falls back on a small static buffer.
 */
module Buffers {
  import opened Bytes

  const STATIC_SZ := 16   // STATIC_BUFFER_LEN

  datatype Buffer = Buffer(mem: seq<byte>, idx: nat, length: nat) {
    predicate Ok() {
      idx <= length <= |mem|
    }

    /** What has been put in and not taken out. */
    function Unread(): seq<byte>
      requires Ok()
    {
      mem[idx..length]
    }

    function Room(): nat
      requires Ok()
    {
      |mem| - length
    }
  }

  function Zeros(n: nat): (z: seq<byte>)
    ensures |z| == n
  {
    seq(n, _ => 0)
  }

  const EMPTY: Buffer := Buffer(Zeros(STATIC_SZ), 0, 0)

  /** Makes room for sz octets behind the unread ones, which stay what they were;
      what lies before the cursor is given up. */
  function Grow(b: Buffer, sz: nat): (r: Buffer)
    requires b.Ok()
    ensures r.Ok() && r.Unread() == b.Unread()
    ensures r.Room() >= sz && |r.mem| >= |b.mem|
    ensures r.idx == 0 && r.length == b.length - b.idx
    ensures sz + (b.length - b.idx) <= |b.mem| ==> |r.mem| == |b.mem|
  {
    var used := b.length - b.idx;
    if sz + used > |b.mem| then Buffer(b.Unread() + Zeros(sz), 0, used)
    else if b.length > 0 then Buffer(b.Unread() + Zeros(|b.mem| - used), 0, used)
    else b
  }

  /** Copies data behind the fill mark. */
  function Put(b: Buffer, data: seq<byte>): (r: Buffer)
    requires b.Ok() && |data| <= b.Room()
    ensures r.Ok() && r.Unread() == b.Unread() + data
    ensures r.idx == b.idx && r.length == b.length + |data| && |r.mem| == |b.mem|
  {
    var m := b.mem[..b.length] + data + b.mem[b.length + |data|..];
    assert m[b.idx..b.length + |data|] == b.Unread() + data;
    Buffer(m, b.idx, b.length + |data|)
  }

  /** _BufferTake: hands out the next sz octets and wipes them. */
  function Take(b: Buffer, sz: nat): (r: Buffer)
    requires b.Ok() && sz <= b.length - b.idx
    ensures r.Ok() && b.Unread() == b.mem[b.idx..b.idx + sz] + r.Unread()
    ensures r.idx == b.idx + sz && r.length == b.length && |r.mem| == |b.mem|
    ensures forall k :: b.idx <= k < b.idx + sz ==> r.mem[k] == 0
  {
    var m := b.mem[..b.idx] + Zeros(sz) + b.mem[b.idx + sz..];
    assert m[b.idx + sz..] == b.mem[b.idx + sz..];
    assert m[b.idx + sz..b.length] == b.mem[b.idx + sz..b.length];
    Buffer(m, b.idx + sz, b.length)
  }

  /** ShrinkBuffer without force, as a read does once it has drained a buffer. */
  function Shrink(b: Buffer): (r: Buffer)
    requires b.Ok()
    ensures r.Ok() && r.Unread() == b.Unread() && r.length - r.idx == b.length - b.idx
    ensures b.length - b.idx <= STATIC_SZ ==> |r.mem| == STATIC_SZ
  {
    var used := b.length - b.idx;
    if used > STATIC_SZ then b else Buffer(b.Unread() + Zeros(STATIC_SZ - used), 0, used)
  }
}
