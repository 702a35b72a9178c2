/**
 * Octets, the error-carrying result type, and the big-endian words and
 * length-prefixed strings of section 5 of RFC 4251, with the cursor-style
 * readers the parsers are built from.
 */
module Bytes {

  type byte = x: int | 0 <= x < 256

  type word32 = x: int | 0 <= x < 0x1_0000_0000

  datatype Result<+T, +E> = Ok(value: T) | Err(error: E) {
    predicate IsFailure() {
      Err?
    }

    function PropagateFailure<U>(): Result<U, E>
      requires Err?
    {
      Err(error)
    }

    function Extract(): T
      requires Ok?
    {
      value
    }
  }

  datatype Option<+T> = None | Some(value: T)

  /** WS_BUFFER_E and WS_PARSE_E, the two errors the readers below can give. */
  datatype ReadError = BufferError | ParseError

  function Min(a: nat, b: nat): nat {
    if a < b then a else b
  }

  // ---------------------------------------------------------------- words

  function ToBytes32(n: word32): (r: seq<byte>)
    ensures |r| == 4
  {
    [n / 0x100_0000, n / 0x1_0000 % 256, n / 256 % 256, n % 256]
  }

  function FromBytes32(s: seq<byte>): (r: word32)
    requires |s| == 4
  {
    (((s[0] as int) * 256 + s[1]) * 256 + s[2]) * 256 + s[3]
  }

  lemma WordRoundTrip(n: word32)
    ensures FromBytes32(ToBytes32(n)) == n
  {
    var a := n / 256;
    var b := a / 256;
    assert b == n / 0x1_0000 && b / 256 == n / 0x100_0000;
    assert n == a * 256 + n % 256 && a == b * 256 + a % 256 && b == (b / 256) * 256 + b % 256;
  }

  lemma BytesRoundTrip(s: seq<byte>)
    requires |s| == 4
    ensures ToBytes32(FromBytes32(s)) == s
  {
    var a: int := ((s[0] as int) * 256 + s[1]) * 256 + s[2];
    var n := FromBytes32(s);
    assert n == a * 256 + s[3];
    assert n / 256 == a && n % 256 == s[3];
    assert a / 256 == (s[0] as int) * 256 + s[1] && a % 256 == s[2];
    assert n / 0x1_0000 == a / 256;
    assert n / 0x100_0000 == s[0];
  }

  // ------------------------------------------------------------- encoding

  /** An SSH string: its length as a word, then its octets. */
  function Str(s: seq<byte>): seq<byte>
    requires |s| < 0x1_0000_0000
  {
    ToBytes32(|s|) + s
  }

  lemma StrSz(s: seq<byte>)
    requires |s| < 0x1_0000_0000
    ensures |Str(s)| == 4 + |s|
  {
  }

  // -------------------------------------------------------------- reading

  /** A value and the cursor behind it. */
  datatype Read<+T> = Read(value: T, idx: nat)

  function GetUint32(buf: seq<byte>, idx: nat): (r: Result<Read<word32>, ReadError>)
    ensures r.Ok? <==> idx + 4 <= |buf|
    ensures r.Ok? ==> r.value.idx == idx + 4 && buf[idx..idx + 4] == ToBytes32(r.value.value)
  {
    if idx < |buf| && 4 <= |buf| - idx then
      BytesRoundTrip(buf[idx..idx + 4]);
      Ok(Read(FromBytes32(buf[idx..idx + 4]), idx + 4))
    else
      Err(BufferError)
  }

  /** On success the octets between the two cursors are exactly the string's
      encoding, so the cursor never passes the end of the buffer. */
  function GetStringRef(buf: seq<byte>, idx: nat): (r: Result<Read<seq<byte>>, ReadError>)
    ensures r.Ok? ==> idx <= r.value.idx <= |buf|
    ensures r.Ok? ==> |r.value.value| < 0x1_0000_0000
    ensures r.Ok? ==> buf[idx..r.value.idx] == Str(r.value.value)
  {
    var n :- GetUint32(buf, idx);
    if n.value <= |buf| - n.idx then
      var s := buf[n.idx..n.idx + n.value];
      assert buf[idx..n.idx + n.value] == buf[idx..n.idx] + s;
      Ok(Read(s, n.idx + n.value))
    else
      Err(BufferError)
  }

  /** Reading succeeds wherever an encoding stands, and gives back the string. */
  lemma StringRefAt(pre: seq<byte>, s: seq<byte>, post: seq<byte>)
    requires |s| < 0x1_0000_0000
    ensures GetStringRef(pre + Str(s) + post, |pre|) == Ok(Read(s, |pre| + 4 + |s|))
  {
    var buf := pre + Str(s) + post;
    assert buf[|pre|..|pre| + 4] == ToBytes32(|s|);
    WordRoundTrip(|s|);
    assert buf == pre + ToBytes32(|s|) + (s + post);
    assert buf[|pre| + 4..] == s + post;
    assert buf[|pre| + 4..|pre| + 4 + |s|] == s;
  }

  lemma Uint32At(pre: seq<byte>, n: word32, post: seq<byte>)
    ensures GetUint32(pre + ToBytes32(n) + post, |pre|) == Ok(Read(n, |pre| + 4))
  {
    var buf := pre + ToBytes32(n) + post;
    assert buf[|pre|..|pre| + 4] == ToBytes32(n);
    WordRoundTrip(n);
  }

  // ------------------------------------------------------------ sequences

  lemma Assoc<T>(a: seq<T>, b: seq<T>, c: seq<T>)
    ensures (a + b) + c == a + (b + c)
  {
  }

  /** The elements of a list of sequences laid end to end. */
  function Flatten<T>(parts: seq<seq<T>>): seq<T> {
    if parts == [] then [] else parts[0] + Flatten(parts[1..])
  }

  lemma {:induction false} FlattenAppend<T>(a: seq<seq<T>>, b: seq<seq<T>>)
    ensures Flatten(a + b) == Flatten(a) + Flatten(b)
  {
    if a == [] {
      assert a + b == b;
    } else {
      FlattenAppend(a[1..], b);
      assert (a + b)[0] == a[0] && (a + b)[1..] == a[1..] + b;
      Assoc(a[0], Flatten(a[1..]), Flatten(b));
    }
  }

  lemma FlattenSnoc<T>(a: seq<seq<T>>, s: seq<T>)
    ensures Flatten(a + [s]) == Flatten(a) + s
  {
    FlattenAppend(a, [s]);
    assert [s][1..] == [] && Flatten([s]) == s;
  }
}
