/**
 * The openssh-key-v1 envelope (OpenSSH PROTOCOL.key, sections 1 and 3): what
 * wolfSSH_MakeMlDsaCompositeKey writes into a buffer of a size it has worked out
 * beforehand, and what GetOpenSshKey reads back.
 */
module KeyEnvelope {
  import opened Bytes

  const MIN_BLOCK_SZ := 8
  const MLDSA_SEED_SZ := 32

  // "openssh-key-v1" with its terminator
  const MAGIC: seq<byte> :=
    [0x6F, 0x70, 0x65, 0x6E, 0x73, 0x73, 0x68, 0x2D, 0x6B, 0x65, 0x79, 0x2D, 0x76, 0x31, 0]
  const NONE: seq<byte> := [0x6E, 0x6F, 0x6E, 0x65]

  /** The sizes of a composite algorithm's parts. */
  datatype Params = Params(mldsaPubSz: nat, tradPubSz: nat, tradPrivSz: nat)

  /** 1, 2, and so on. */
  function Pad(n: nat): (r: seq<byte>)
    requires n < 256
    ensures |r| == n
  {
    seq(n, i requires 0 <= i < n => i + 1)
  }

  function Twice(check: word32): seq<byte> {
    ToBytes32(check) + ToBytes32(check)
  }

  // ------------------------------------------------------------ layout

  /** A name and a public key: the public blob, and part of the private list. */
  function NamedPub(name: seq<byte>, pub: seq<byte>): seq<byte>
    requires |name| < 0x1_0000_0000 && |pub| < 0x1_0000_0000
  {
    Str(name) + Str(pub)
  }

  function PrivateList(check: word32, name: seq<byte>, pub: seq<byte>, priv: seq<byte>, comment: seq<byte>,
                       pad: seq<byte>): seq<byte>
    requires |name| < 0x1_0000_0000 && |pub| < 0x1_0000_0000
    requires |priv| < 0x1_0000_0000 && |comment| < 0x1_0000_0000
  {
    Twice(check) + NamedPub(name, pub) + Str(priv) + Str(comment) + pad
  }

  function Header(cipher: seq<byte>, kdf: seq<byte>, kdfOptions: seq<byte>): seq<byte>
    requires |cipher| < 0x1_0000_0000 && |kdf| < 0x1_0000_0000 && |kdfOptions| < 0x1_0000_0000
  {
    MAGIC + Str(cipher) + Str(kdf) + Str(kdfOptions) + ToBytes32(1)
  }

  function PadSz(listSz: nat): nat {
    (MIN_BLOCK_SZ - listSz % MIN_BLOCK_SZ) % MIN_BLOCK_SZ
  }

  /** The padding is the least that makes whole blocks. */
  lemma PadFillsBlock(listSz: nat, n: nat)
    ensures (listSz + PadSz(listSz)) % MIN_BLOCK_SZ == 0
    ensures (listSz + n) % MIN_BLOCK_SZ == 0 ==> PadSz(listSz) <= n
  {
  }

  /** The list before its padding. */
  function Unpadded(check: word32, name: seq<byte>, pub: seq<byte>, priv: seq<byte>): (r: seq<byte>)
    requires |name| < 0x1_0000_0000 && |pub| < 0x1_0000_0000 && |priv| < 0x1_0000_0000
    ensures |r| == 24 + |name| + |pub| + |priv|
  {
    Twice(check) + NamedPub(name, pub) + Str(priv) + Str([])
  }

  predicate Fits(name: seq<byte>, pub: seq<byte>, priv: seq<byte>) {
    |name| + |pub| + |priv| < 0x1000_0000
  }

  /** The whole of an unencrypted single-key file. */
  function Envelope(check: word32, name: seq<byte>, pub: seq<byte>, priv: seq<byte>): seq<byte>
    requires Fits(name, pub, priv)
  {
    var list := Unpadded(check, name, pub, priv);
    Header(NONE, NONE, []) + Str(NamedPub(name, pub)) + Str(list + Pad(PadSz(|list|)))
  }

  // ------------------------------------------------------------ writing

  /** c32toa at an offset. */
  method Put32(n: word32, buf: array<byte>, off: nat) returns (end: nat)
    requires off + 4 <= buf.Length
    modifies buf
    ensures end == off + 4 && buf[..end] == old(buf[..off]) + ToBytes32(n)
  {
    buf[off] := n / 0x100_0000 % 256;
    buf[off + 1] := n / 0x1_0000 % 256;
    buf[off + 2] := n / 0x100 % 256;
    buf[off + 3] := n % 256;
    end := off + 4;
    assert buf[..off] == old(buf[..off]);
  }

  /** WMEMCPY to an offset. */
  method PutBytes(s: seq<byte>, buf: array<byte>, off: nat) returns (end: nat)
    requires off + |s| <= buf.Length
    modifies buf
    ensures end == off + |s| && buf[..end] == old(buf[..off]) + s
  {
    end := off;
    while end < off + |s|
      invariant off <= end <= off + |s| && buf[..end] == old(buf[..off]) + s[..end - off]
    {
      buf[end] := s[end - off];
      end := end + 1;
    }
    assert s[..|s|] == s;
  }

  /** A length and what it counts. */
  method PutString(s: seq<byte>, buf: array<byte>, off: nat) returns (end: nat)
    requires |s| < 0x1_0000_0000 && off + 4 + |s| <= buf.Length
    modifies buf
    ensures end == off + 4 + |s| && buf[..end] == old(buf[..off]) + Str(s)
  {
    end := Put32(|s|, buf, off);
    Assoc(buf[..off], ToBytes32(|s|), s);
    end := PutBytes(s, buf, end);
  }

  /** A length and the two halves it counts. */
  method PutHalves(a: seq<byte>, b: seq<byte>, buf: array<byte>, off: nat) returns (end: nat)
    requires |a| + |b| < 0x1_0000_0000 && off + 4 + |a| + |b| <= buf.Length
    modifies buf
    ensures end == off + 4 + |a| + |b| && buf[..end] == old(buf[..off]) + Str(a + b)
  {
    ghost var was := buf[..off];
    end := Put32(|a| + |b|, buf, off);
    end := PutBytes(a, buf, end);
    end := PutBytes(b, buf, end);
    Assoc(was + ToBytes32(|a| + |b|), a, b);
    Assoc(was, ToBytes32(|a| + |b|), a + b);
  }

  method PutHeader(buf: array<byte>) returns (end: nat)
    requires buf.Length >= 39
    modifies buf
    ensures end == 39 && buf[..end] == Header(NONE, NONE, [])
  {
    end := PutBytes(MAGIC, buf, 0);
    assert buf[..0] + MAGIC == MAGIC;
    end := PutString(NONE, buf, end);
    end := PutString(NONE, buf, end);
    end := PutString([], buf, end);
    end := Put32(1, buf, end);
  }

  /** The type name and the composite public key. */
  method PutPublic(name: seq<byte>, mldsaPub: seq<byte>, tradPub: seq<byte>, buf: array<byte>, off: nat)
    returns (end: nat)
    requires |name| + |mldsaPub| + |tradPub| < 0x1000_0000
    requires off + 8 + |name| + |mldsaPub| + |tradPub| <= buf.Length
    modifies buf
    ensures end == off + 8 + |name| + |mldsaPub| + |tradPub|
    ensures buf[..end] == old(buf[..off]) + NamedPub(name, mldsaPub + tradPub)
  {
    ghost var was := buf[..off];
    end := PutString(name, buf, off);
    end := PutHalves(mldsaPub, tradPub, buf, end);
    hide Str;
    Assoc(was, Str(name), Str(mldsaPub + tradPub));
  }

  method PutUnpadded(check: word32, name: seq<byte>, mldsaPub: seq<byte>, tradPub: seq<byte>, seed: seq<byte>,
                     tradPriv: seq<byte>, buf: array<byte>, off: nat)
    returns (end: nat)
    requires |name| + |mldsaPub| + |tradPub| + |seed| + |tradPriv| < 0x1000_0000
    requires off + 24 + |name| + |mldsaPub| + |tradPub| + |seed| + |tradPriv| <= buf.Length
    modifies buf
    ensures end == off + 24 + |name| + |mldsaPub| + |tradPub| + |seed| + |tradPriv|
    ensures buf[..end] == old(buf[..off]) + Unpadded(check, name, mldsaPub + tradPub, seed + tradPriv)
  {
    ghost var was := buf[..off];
    end := Put32(check, buf, off);
    end := Put32(check, buf, end);
    Assoc(was, ToBytes32(check), ToBytes32(check));
    hide ToBytes32, Str;
    end := PutPublic(name, mldsaPub, tradPub, buf, end);
    hide NamedPub;
    end := PutHalves(seed, tradPriv, buf, end);
    end := PutString([], buf, end);
    ghost var pub, priv := NamedPub(name, mldsaPub + tradPub), Str(seed + tradPriv);
    Assoc(was, Twice(check), pub);
    Assoc(was, Twice(check) + pub, priv);
    Assoc(was, Twice(check) + pub + priv, Str([]));
  }

  /** The padding loop. */
  method PutPad(padSz: nat, buf: array<byte>, off: nat) returns (end: nat)
    requires padSz < MIN_BLOCK_SZ && off + padSz <= buf.Length
    modifies buf
    ensures end == off + padSz && buf[..end] == old(buf[..off]) + Pad(padSz)
  {
    end := off;
    var i := 1;
    while i <= padSz
      invariant 1 <= i <= padSz + 1 && end == off + i - 1
      invariant buf[..end] == old(buf[..off]) + Pad(i - 1)
    {
      assert Pad(i) == Pad(i - 1) + [i];
      buf[end] := i;
      end := end + 1;
      i := i + 1;
    }
  }

  datatype WriteRet = Written | CryptoFailed

  /** The envelope part of wolfSSH_MakeMlDsaCompositeKey: the size worked out
      beforehand is the size written, so the mismatch branch is never taken. */
  method MakeEnvelope(check: word32, name: seq<byte>, params: Params, mldsaPub: seq<byte>, tradPub: seq<byte>,
                      seed: seq<byte>, tradPriv: seq<byte>)
    returns (ret: WriteRet, tmpBuf: array<byte>)
    requires |mldsaPub| == params.mldsaPubSz && |tradPub| == params.tradPubSz
    requires |seed| == MLDSA_SEED_SZ && |tradPriv| == params.tradPrivSz
    requires Fits(name, mldsaPub + tradPub, seed + tradPriv)
    ensures ret == Written && fresh(tmpBuf)
    ensures tmpBuf[..] == Envelope(check, name, mldsaPub + tradPub, seed + tradPriv)
  {
    var compositePubSz := params.mldsaPubSz + params.tradPubSz;
    var compositePrivSz := MLDSA_SEED_SZ + params.tradPrivSz;
    var pubBlobSz := 4 + |name| + 4 + compositePubSz;
    var privKeysStrSz := 8 + 4 + |name| + 4 + compositePubSz + 4 + compositePrivSz + 4;
    var padSz := (MIN_BLOCK_SZ - privKeysStrSz % MIN_BLOCK_SZ) % MIN_BLOCK_SZ;
    privKeysStrSz := privKeysStrSz + padSz;
    var fileSz := |MAGIC| + 4 + |NONE| + 4 + |NONE| + 4 + 4 + 4 + pubBlobSz + 4 + privKeysStrSz;
    tmpBuf := new byte[fileSz];
    var off := PutHeader(tmpBuf);
    off := Put32(pubBlobSz, tmpBuf, off);
    off := PutPublic(name, mldsaPub, tradPub, tmpBuf, off);
    off := Put32(privKeysStrSz, tmpBuf, off);
    off := PutUnpadded(check, name, mldsaPub, tradPub, seed, tradPriv, tmpBuf, off);
    off := PutPad(padSz, tmpBuf, off);
    ret := Written;
    if off != fileSz {
      ret := CryptoFailed;
    }
    Regroup(Header(NONE, NONE, []), NamedPub(name, mldsaPub + tradPub),
            Unpadded(check, name, mldsaPub + tradPub, seed + tradPriv), Pad(padSz));
    assert tmpBuf[..] == tmpBuf[..off];
    hide Header, NamedPub, Unpadded, Pad, ToBytes32;
  }

  /** The pieces in the order they are written are the strings they make up. */
  lemma Regroup(header: seq<byte>, pub: seq<byte>, list: seq<byte>, pad: seq<byte>)
    requires |pub| < 0x1_0000_0000 && |list| + |pad| < 0x1_0000_0000
    ensures header + ToBytes32(|pub|) + pub + ToBytes32(|list| + |pad|) + list + pad ==
            header + Str(pub) + Str(list + pad)
  {
    var a, b := ToBytes32(|pub|), ToBytes32(|list| + |pad|);
    hide ToBytes32;
    Assoc(header, a, pub);
    var front := header + Str(pub);
    Assoc(front + b, list, pad);
    Assoc(front, b, list + pad);
  }

  // ------------------------------------------------------------ reading

  datatype KeyError =
    | AuthMagic | KeyFormat | CheckValue | Unimplemented | Unreadable(error: ReadError)

  /** Both halves of a composite key as strings. */
  datatype Key = Key(pub: seq<byte>, priv: seq<byte>)

  function StringAt(buf: seq<byte>, idx: nat): (r: Result<Read<seq<byte>>, KeyError>) {
    var s := GetStringRef(buf, idx);
    if s.Err? then Err(Unreadable(s.error)) else Ok(s.value)
  }

  function WordAt(buf: seq<byte>, idx: nat): (r: Result<Read<word32>, KeyError>) {
    var n := GetUint32(buf, idx);
    if n.Err? then Err(Unreadable(n.error)) else Ok(n.value)
  }

  /** The layout part of GetOpenSshKeyMlDsaComposite: the sizes must be the type's,
      and the cryptographic library must load the halves. */
  function CompositeAt(params: Params, loads: Key -> bool, buf: seq<byte>, idx: nat): Result<Read<Key>, KeyError> {
    var pub :- StringAt(buf, idx);
    var priv :- StringAt(buf, pub.idx);
    var key := Key(pub.value, priv.value);
    if |key.pub| != params.mldsaPubSz + params.tradPubSz || |key.priv| != MLDSA_SEED_SZ + params.tradPrivSz
       || !loads(key)
    then Err(KeyFormat)
    else Ok(Read(key, priv.idx))
  }

  /** The list of private keys, up to and with the comment. */
  function ListAt(types: map<seq<byte>, Params>, loads: Key -> bool, list: seq<byte>): Result<Read<Key>, KeyError> {
    var check1 :- WordAt(list, 0);
    var check2 :- WordAt(list, check1.idx);
    if check1.value != check2.value then Err(CheckValue)
    else
      var name :- StringAt(list, check2.idx);
      if name.value !in types then Err(Unimplemented)
      else
        var key :- CompositeAt(types[name.value], loads, list, name.idx);
        var comment :- StringAt(list, key.idx);
        Ok(Read(key.value, comment.idx))
  }

  /** What precedes the list, which it gives. */
  function FileAt(buf: seq<byte>): Result<seq<byte>, KeyError> {
    if |buf| < |MAGIC| || buf[..|MAGIC|] != MAGIC then Err(AuthMagic)
    else
      var cipher :- StringAt(buf, |MAGIC|);
      var kdf :- StringAt(buf, cipher.idx);
      var options :- StringAt(buf, kdf.idx);
      var count :- WordAt(buf, options.idx);
      if count.value != 1 then Err(KeyFormat)
      else
        var pub :- StringAt(buf, count.idx);
        var list :- StringAt(buf, pub.idx);
        if list.value == [] then Err(KeyFormat) else Ok(list.value)
  }

  /** The padding is counted up from 1, and not in octets that wrap. */
  predicate PadOk(list: seq<byte>, idx: nat) {
    forall k :: idx <= k < |list| ==> list[k] == k - idx + 1
  }

  /** GetOpenSshKey on a composite key: padding is looked at only in a list of
      whole blocks. */
  function Decoded(types: map<seq<byte>, Params>, loads: Key -> bool, buf: seq<byte>): Result<Key, KeyError> {
    var list :- FileAt(buf);
    var key :- ListAt(types, loads, list);
    if |list| % MIN_BLOCK_SZ == 0 && !PadOk(list, key.idx) then Err(KeyFormat) else Ok(key.value)
  }

  /** GetOpenSshKey, its cursor moving through the file and then through the list,
      and its padding loop. */
  method GetOpenSshKey(types: map<seq<byte>, Params>, loads: Key -> bool, buf: seq<byte>)
    returns (r: Result<Key, KeyError>)
    ensures r == Decoded(types, loads, buf)
  {
    hide GetStringRef, GetUint32, FileAt, StringAt, WordAt, CompositeAt, PadOk;
    var file := ReadFile(buf);
    if file.Err? {
      return Err(file.error);
    }
    var str, subIdx := file.value, 0;
    var n := WordAt(str, subIdx);
    if n.Err? {
      return Err(n.error);
    }
    var check1 := n.value.value;
    n := WordAt(str, n.value.idx);
    if n.Err? {
      return Err(n.error);
    }
    if check1 != n.value.value {
      return Err(CheckValue);
    }
    var name := StringAt(str, n.value.idx);
    if name.Err? {
      return Err(name.error);
    }
    if name.value.value !in types {
      return Err(Unimplemented);
    }
    var key := CompositeAt(types[name.value.value], loads, str, name.value.idx);
    if key.Err? {
      return Err(key.error);
    }
    var comment := StringAt(str, key.value.idx);
    if comment.Err? {
      return Err(comment.error);
    }
    subIdx := comment.value.idx;
    if |str| % MIN_BLOCK_SZ == 0 {
      var padded := CheckPad(str, subIdx);
      if !padded {
        return Err(KeyFormat);
      }
    }
    r := Ok(key.value.value);
  }

  /** Its cursor in the file: the names and the public blob are passed over, and
      the list of private keys is what a single-key file must have. */
  method ReadFile(buf: seq<byte>) returns (r: Result<seq<byte>, KeyError>)
    ensures r == FileAt(buf)
  {
    hide GetStringRef, GetUint32, StringAt, WordAt;
    if |buf| < |MAGIC| || buf[..|MAGIC|] != MAGIC {
      return Err(AuthMagic);
    }
    var str := StringAt(buf, |MAGIC|);
    if str.Err? {
      return Err(str.error);
    }
    str := StringAt(buf, str.value.idx);
    if str.Err? {
      return Err(str.error);
    }
    str := StringAt(buf, str.value.idx);
    if str.Err? {
      return Err(str.error);
    }
    var keyCount := WordAt(buf, str.value.idx);
    if keyCount.Err? {
      return Err(keyCount.error);
    }
    if keyCount.value.value != 1 {
      return Err(KeyFormat);
    }
    str := StringAt(buf, keyCount.value.idx);
    if str.Err? {
      return Err(str.error);
    }
    str := StringAt(buf, str.value.idx);
    if str.Err? {
      return Err(str.error);
    }
    r := if str.value.value == [] then Err(KeyFormat) else Ok(str.value.value);
  }

  /** The padding loop. */
  method CheckPad(str: seq<byte>, start: nat) returns (ok: bool)
    ensures ok <==> PadOk(str, start)
  {
    if |str| > start {
      var subIdx, count, last := start, 1, |str| - start;
      while count <= last
        invariant 1 <= count <= last + 1 && subIdx == start + count - 1
        invariant forall k :: start <= k < subIdx ==> str[k] == k - start + 1
      {
        if count != str[subIdx] {
          return false;
        }
        count, subIdx := count + 1, subIdx + 1;
      }
    }
    ok := true;
  }

  // -------------------------------------------------- what it recognises

  lemma Within(a: seq<byte>, b: seq<byte>, c: seq<byte>)
    requires a + b <= c
    ensures a <= c
  {
    assert c[..|a|] == (a + b)[..|a|];
  }

  lemma StringIn(pre: seq<byte>, s: seq<byte>, buf: seq<byte>)
    requires |s| < 0x1_0000_0000 && pre + Str(s) <= buf
    ensures StringAt(buf, |pre|) == Ok(Read(s, |pre + Str(s)|)) && pre <= buf
  {
    var post := buf[|pre + Str(s)|..];
    assert buf == pre + Str(s) + post;
    StringRefAt(pre, s, post);
    Within(pre, Str(s), buf);
  }

  lemma WordIn(pre: seq<byte>, n: word32, buf: seq<byte>)
    requires pre + ToBytes32(n) <= buf
    ensures WordAt(buf, |pre|) == Ok(Read(n, |pre| + 4)) && pre <= buf
  {
    var post := buf[|pre| + 4..];
    assert buf == pre + ToBytes32(n) + post;
    Uint32At(pre, n, post);
    Within(pre, ToBytes32(n), buf);
  }

  predicate Sized(s: seq<byte>) {
    |s| < 0x1_0000_0000
  }

  /** Any file of the format gives its list. */
  lemma FileReads(cipher: seq<byte>, kdf: seq<byte>, options: seq<byte>, pub: seq<byte>, list: seq<byte>,
                  rest: seq<byte>)
    requires Sized(cipher) && Sized(kdf) && Sized(options) && Sized(pub) && Sized(list) && list != []
    ensures FileAt(Header(cipher, kdf, options) + Str(pub) + Str(list) + rest) == Ok(list)
  {
    hide Str, StringAt, WordAt, ToBytes32;
    var head := Header(cipher, kdf, options);
    var p1, p2, p3 := MAGIC + Str(cipher), MAGIC + Str(cipher) + Str(kdf), MAGIC + Str(cipher) + Str(kdf) + Str(options);
    assert head == p3 + ToBytes32(1);
    hide Header;
    var buf := head + Str(pub) + Str(list) + rest;
    StringIn(head + Str(pub), list, buf);
    StringIn(head, pub, buf);
    WordIn(p3, 1, buf);
    StringIn(p2, options, buf);
    StringIn(p1, kdf, buf);
    StringIn(MAGIC, cipher, buf);
    assert |ToBytes32(1)| == 4;
  }

  /** Any list of the format, of a known type and loadable halves, gives its key. */
  lemma ListReads(types: map<seq<byte>, Params>, loads: Key -> bool, check: word32, name: seq<byte>, key: Key,
                  comment: seq<byte>, pad: seq<byte>)
    requires Sized(name) && Sized(key.pub) && Sized(key.priv) && Sized(comment)
    requires name in types && loads(key)
    requires |key.pub| == types[name].mldsaPubSz + types[name].tradPubSz
    requires |key.priv| == MLDSA_SEED_SZ + types[name].tradPrivSz
    ensures var list := PrivateList(check, name, key.pub, key.priv, comment, pad);
            ListAt(types, loads, list) == Ok(Read(key, |list| - |pad|))
  {
    hide Str, StringAt, WordAt, ToBytes32;
    var list := PrivateList(check, name, key.pub, key.priv, comment, pad);
    var word, two := ToBytes32(check), Twice(check);
    var upto := two + NamedPub(name, key.pub);
    assert list == upto + Str(key.priv) + Str(comment) + pad && two == word + word;
    Assoc(two, Str(name), Str(key.pub));
    assert upto == two + Str(name) + Str(key.pub);
    hide NamedPub, PrivateList, Twice;
    StringIn(upto + Str(key.priv), comment, list);
    StringIn(upto, key.priv, list);
    StringIn(two + Str(name), key.pub, list);
    StringIn(two, name, list);
    WordIn(word, check, list);
    assert [] + word == word && |word| == 4;
    WordIn([], check, list);
  }

  /** What keygen writes is read back as the same two strings. */
  lemma EnvelopeRoundTrip(types: map<seq<byte>, Params>, loads: Key -> bool, check: word32, name: seq<byte>, key: Key)
    requires Fits(name, key.pub, key.priv) && name in types && loads(key)
    requires |key.pub| == types[name].mldsaPubSz + types[name].tradPubSz
    requires |key.priv| == MLDSA_SEED_SZ + types[name].tradPrivSz
    ensures Decoded(types, loads, Envelope(check, name, key.pub, key.priv)) == Ok(key)
  {
    var open := Unpadded(check, name, key.pub, key.priv);
    var pad := Pad(PadSz(|open|));
    var list := open + pad;
    ListReads(types, loads, check, name, key, [], pad);
    FileReads(NONE, NONE, [], NamedPub(name, key.pub), list, []);
    var buf := Envelope(check, name, key.pub, key.priv);
    assert buf + [] == buf;
    assert PadOk(list, |open|);
  }

  /** What a file says besides its key. */
  datatype File = File(cipher: seq<byte>, kdf: seq<byte>, options: seq<byte>, pubBlob: seq<byte>, rest: seq<byte>,
                       check: word32, name: seq<byte>, comment: seq<byte>, pad: seq<byte>)

  predicate Counted(pad: seq<byte>) {
    |pad| < 256 && pad == Pad(|pad|)
  }

  /** The octets are a file of one key of a known type, whose sizes it has and which
      loads, with any padding. */
  ghost predicate Holds(types: map<seq<byte>, Params>, loads: Key -> bool, buf: seq<byte>, key: Key, f: File) {
    && Sized(f.cipher) && Sized(f.kdf) && Sized(f.options) && Sized(f.pubBlob)
    && Sized(f.name) && Sized(f.comment) && Sized(key.pub) && Sized(key.priv)
    && f.name in types && loads(key)
    && |key.pub| == types[f.name].mldsaPubSz + types[f.name].tradPubSz
    && |key.priv| == MLDSA_SEED_SZ + types[f.name].tradPrivSz
    && var list := ListOf(key, f);
       Sized(list) && buf == Header(f.cipher, f.kdf, f.options) + Str(f.pubBlob) + Str(list) + f.rest
  }

  /** A file's private list. */
  function ListOf(key: Key, f: File): (list: seq<byte>)
    requires Sized(f.name) && Sized(f.comment) && Sized(key.pub) && Sized(key.priv)
    ensures list != []
  {
    assert |Twice(f.check)| == 8;
    PrivateList(f.check, f.name, key.pub, key.priv, f.comment, f.pad)
  }

  /** A file of the format is refused for its padding alone, and only when its list
      is of whole blocks. */
  lemma PaddingDecides(types: map<seq<byte>, Params>, loads: Key -> bool, buf: seq<byte>, key: Key, f: File)
    requires Holds(types, loads, buf, key, f)
    ensures Decoded(types, loads, buf) ==
            if |ListOf(key, f)| % MIN_BLOCK_SZ == 0 && !Counted(f.pad) then Err(KeyFormat) else Ok(key)
  {
    var list := ListOf(key, f);
    FileReads(f.cipher, f.kdf, f.options, f.pubBlob, list, f.rest);
    ListReads(types, loads, f.check, f.name, key, f.comment, f.pad);
    ListEnds(key, f);
    PadCounts(list, |list| - |f.pad|);
  }

  lemma ListEnds(key: Key, f: File)
    requires Sized(f.name) && Sized(f.comment) && Sized(key.pub) && Sized(key.priv)
    ensures |f.pad| <= |ListOf(key, f)| && ListOf(key, f)[|ListOf(key, f)| - |f.pad|..] == f.pad
  {
    hide NamedPub, Twice, Str;
  }

  lemma ListSz(key: Key, f: File)
    requires Sized(f.name) && Sized(f.comment) && Sized(key.pub) && Sized(key.priv)
    ensures |ListOf(key, f)| == 24 + |f.name| + |key.pub| + |key.priv| + |f.comment| + |f.pad|
  {
    hide ToBytes32;
  }

  /** So the padding may be anything in a list that is not of whole blocks: here
      one octet 255 where 1, 2, 3 and 4 would fill the block. */
  lemma MispaddedDecodes() returns (types: map<seq<byte>, Params>, buf: seq<byte>, key: Key, f: File)
    ensures Holds(types, key => true, buf, key, f) && f.pad == [255]
    ensures |ListOf(key, f)| % MIN_BLOCK_SZ == 5 && !Counted(f.pad)
    ensures Decoded(types, key => true, buf) == Ok(key)
  {
    hide ListOf, Header, Str, Decoded, Counted;
    types := map[NONE := Params(0, 0, 0)];
    key := Key([], Zeros(MLDSA_SEED_SZ));
    f := File(NONE, NONE, [], [], [], 0, NONE, [], [255]);
    ListSz(key, f);
    buf := Header(NONE, NONE, []) + Str([]) + Str(ListOf(key, f)) + [];
    PaddingDecides(types, key => true, buf, key, f);
    CountsFromOne(f.pad);
  }

  lemma CountsFromOne(pad: seq<byte>)
    requires pad != [] && pad[0] != 1
    ensures !Counted(pad)
  {
  }

  function Zeros(n: nat): seq<byte> {
    seq(n, i => 0)
  }

  /** A file decodes to a key exactly when it is a file of the format holding that
      key, with the counted padding if its list is of whole blocks. */
  lemma DecodedExactly(types: map<seq<byte>, Params>, loads: Key -> bool, buf: seq<byte>, key: Key)
    ensures Decoded(types, loads, buf) == Ok(key) <==>
            exists f :: Holds(types, loads, buf, key, f)
                        && (|ListOf(key, f)| % MIN_BLOCK_SZ == 0 ==> Counted(f.pad))
  {
    hide Decoded;
    if Decoded(types, loads, buf) == Ok(key) {
      var f := DecodedIsFormat(types, loads, buf);
    }
    if f :| Holds(types, loads, buf, key, f) && (|ListOf(key, f)| % MIN_BLOCK_SZ == 0 ==> Counted(f.pad)) {
      PaddingDecides(types, loads, buf, key, f);
    }
  }

  /** A file that decodes is of the format, with checkints that agree and, in whole
      blocks, the counted padding. */
  lemma DecodedIsFormat(types: map<seq<byte>, Params>, loads: Key -> bool, buf: seq<byte>) returns (f: File)
    requires Decoded(types, loads, buf).Ok?
    ensures var key := Decoded(types, loads, buf).value;
            && Holds(types, loads, buf, key, f)
            && (|ListOf(key, f)| % MIN_BLOCK_SZ == 0 ==> Counted(f.pad))
  {
    hide Header, Str, Twice, NamedPub, PrivateList, FileAt, ListAt, PadOk, Counted;
    var list := FileAt(buf).value;
    var cipher, kdf, options, pubBlob, rest := FileParts(buf);
    var check, name, comment, pad := ListParts(types, loads, list);
    f := File(cipher, kdf, options, pubBlob, rest, check, name, comment, pad);
    var end := ListAt(types, loads, list).value.idx;
    PadCounts(list, end);
  }

  lemma PadCounts(list: seq<byte>, idx: nat)
    requires idx <= |list|
    ensures PadOk(list, idx) <==> Counted(list[idx..])
  {
    if PadOk(list, idx) && idx < |list| {
      var k := Min(idx + 255, |list| - 1);
      assert list[k] == k - idx + 1;
    }
    if Counted(list[idx..]) {
      forall k | idx <= k < |list| ensures list[k] == k - idx + 1 {
        assert list[k] == list[idx..][k - idx];
      }
    }
  }

  lemma FileParts(buf: seq<byte>)
    returns (cipher: seq<byte>, kdf: seq<byte>, options: seq<byte>, pubBlob: seq<byte>, rest: seq<byte>)
    requires FileAt(buf).Ok?
    ensures var list := FileAt(buf).value;
            && Sized(cipher) && Sized(kdf) && Sized(options) && Sized(pubBlob) && Sized(list)
            && buf == Header(cipher, kdf, options) + Str(pubBlob) + Str(list) + rest
  {
    hide Str, ToBytes32, StringAt, WordAt, Header;
    var c := StringOf(buf, |MAGIC|, MAGIC);
    var k := StringOf(buf, c.idx, MAGIC + Str(c.value));
    var o := StringOf(buf, k.idx, MAGIC + Str(c.value) + Str(k.value));
    var n := WordOf(buf, o.idx, MAGIC + Str(c.value) + Str(k.value) + Str(o.value));
    cipher, kdf, options := c.value, k.value, o.value;
    HeaderIs(cipher, kdf, options);
    var p := StringOf(buf, n.idx, Header(cipher, kdf, options));
    var l := StringOf(buf, p.idx, Header(cipher, kdf, options) + Str(p.value));
    pubBlob, rest := p.value, buf[l.idx..];
    assert buf == buf[..l.idx] + rest;
  }

  lemma HeaderIs(cipher: seq<byte>, kdf: seq<byte>, options: seq<byte>)
    requires Sized(cipher) && Sized(kdf) && Sized(options)
    ensures Header(cipher, kdf, options) == MAGIC + Str(cipher) + Str(kdf) + Str(options) + ToBytes32(1)
  {
  }

  /** What was read is what stood there, behind what was before. */
  lemma StringOf(buf: seq<byte>, idx: nat, pre: seq<byte>) returns (r: Read<seq<byte>>)
    requires StringAt(buf, idx).Ok? && idx <= |buf| && buf[..idx] == pre
    ensures r == StringAt(buf, idx).value && Sized(r.value) && idx <= r.idx <= |buf|
    ensures buf[..r.idx] == pre + Str(r.value)
  {
    r := StringAt(buf, idx).value;
    hide Str;
    assert buf[..r.idx] == buf[..idx] + buf[idx..r.idx];
  }

  lemma WordOf(buf: seq<byte>, idx: nat, pre: seq<byte>) returns (r: Read<word32>)
    requires WordAt(buf, idx).Ok? && idx <= |buf| && buf[..idx] == pre
    ensures r == WordAt(buf, idx).value && r.idx == idx + 4 <= |buf|
    ensures buf[..r.idx] == pre + ToBytes32(r.value)
  {
    r := WordAt(buf, idx).value;
    hide ToBytes32;
    assert buf[..r.idx] == buf[..idx] + buf[idx..r.idx];
  }

  lemma ListParts(types: map<seq<byte>, Params>, loads: Key -> bool, list: seq<byte>)
    returns (check: word32, name: seq<byte>, comment: seq<byte>, pad: seq<byte>)
    requires ListAt(types, loads, list).Ok?
    ensures var key := ListAt(types, loads, list).value;
            && Sized(name) && Sized(key.value.pub) && Sized(key.value.priv) && Sized(comment)
            && name in types && loads(key.value) && key.idx <= |list| && pad == list[key.idx..]
            && |key.value.pub| == types[name].mldsaPubSz + types[name].tradPubSz
            && |key.value.priv| == MLDSA_SEED_SZ + types[name].tradPrivSz
            && list == PrivateList(check, name, key.value.pub, key.value.priv, comment, pad)
  {
    hide Str, ToBytes32, StringAt, WordAt, NamedPub, PrivateList, Twice;
    assert list[..0] == [];
    var a := WordOf(list, 0, []);
    check := a.value;
    assert [] + ToBytes32(check) == ToBytes32(check);
    var b := WordOf(list, a.idx, ToBytes32(check));
    TwiceIs(check);
    var n := StringOf(list, b.idx, Twice(check));
    var pub := StringOf(list, n.idx, Twice(check) + Str(n.value));
    Assoc(Twice(check), Str(n.value), Str(pub.value));
    NamedPubIs(n.value, pub.value);
    var priv := StringOf(list, pub.idx, Twice(check) + NamedPub(n.value, pub.value));
    var c := StringOf(list, priv.idx, Twice(check) + NamedPub(n.value, pub.value) + Str(priv.value));
    name, comment, pad := n.value, c.value, list[c.idx..];
    assert list == list[..c.idx] + pad;
    PrivateListIs(check, name, pub.value, priv.value, comment, pad);
  }

  lemma TwiceIs(check: word32)
    ensures Twice(check) == ToBytes32(check) + ToBytes32(check)
  {
  }

  lemma NamedPubIs(name: seq<byte>, pub: seq<byte>)
    requires Sized(name) && Sized(pub)
    ensures NamedPub(name, pub) == Str(name) + Str(pub)
  {
  }

  lemma PrivateListIs(check: word32, name: seq<byte>, pub: seq<byte>, priv: seq<byte>, comment: seq<byte>,
                      pad: seq<byte>)
    requires Sized(name) && Sized(pub) && Sized(priv) && Sized(comment)
    ensures PrivateList(check, name, pub, priv, comment, pad) ==
            Twice(check) + NamedPub(name, pub) + Str(priv) + Str(comment) + pad
  {
  }
}
