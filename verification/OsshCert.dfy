/**
 * OsshCertParse: the OpenSSH certificate blob, field by field at a moving cursor,
 * against the format as a list of fields with a printer.
 */
module OsshCert {
  import opened Bytes

  datatype KeyType =
    | CertRsa | CertEcdsaNistp256 | CertEcdsaNistp384 | CertEcdsaNistp521 | CertEd25519
    | Unknown

  datatype Ret = Success | BadArgument | InvalidAlgoId | Malformed(error: ReadError)

  // -------------------------------------------------------------- fields

  datatype Kind = KString | KMpint | KWord32 | KWord64

  predicate Fits(k: Kind, v: seq<byte>) {
    match k
    case KString => |v| < 0x1_0000_0000
    case KMpint => |v| < 0x1_0000_0000 && (v != [] ==> v[0] < 0x80)
    case KWord32 => |v| == 4
    case KWord64 => |v| == 8
  }

  function Enc(k: Kind, v: seq<byte>): seq<byte>
    requires Fits(k, v)
  {
    if k == KString || k == KMpint then Str(v) else v
  }

  predicate AllFit(ks: seq<Kind>, vs: seq<seq<byte>>) {
    |ks| == |vs| && forall i :: 0 <= i < |ks| ==> Fits(ks[i], vs[i])
  }

  /** The fields laid end to end. */
  function EncAll(ks: seq<Kind>, vs: seq<seq<byte>>): seq<byte>
    requires AllFit(ks, vs)
  {
    if ks == [] then [] else Enc(ks[0], vs[0]) + EncAll(ks[1..], vs[1..])
  }

  function GetMpint(buf: seq<byte>, idx: nat): Result<Read<seq<byte>>, ReadError> {
    var s :- GetStringRef(buf, idx);
    if s.value != [] && s.value[0] >= 0x80 then Err(ParseError) else Ok(s)
  }

  function GetUint64(buf: seq<byte>, idx: nat): Result<Read<(word32, word32)>, ReadError> {
    var hi :- GetUint32(buf, idx);
    var lo :- GetUint32(buf, hi.idx);
    Ok(Read((hi.value, lo.value), lo.idx))
  }

  function ReadField(k: Kind, buf: seq<byte>, idx: nat): Result<Read<seq<byte>>, ReadError> {
    match k
    case KString => GetStringRef(buf, idx)
    case KMpint => GetMpint(buf, idx)
    case KWord32 =>
      var v :- GetUint32(buf, idx);
      Ok(Read(ToBytes32(v.value), v.idx))
    case KWord64 =>
      var v :- GetUint64(buf, idx);
      Ok(Read(ToBytes32(v.value.0) + ToBytes32(v.value.1), v.idx))
  }

  /** A field read is its encoding in place. */
  lemma ReadFieldSound(k: Kind, buf: seq<byte>, idx: nat)
    requires ReadField(k, buf, idx).Ok?
    ensures var r := ReadField(k, buf, idx).value;
            Fits(k, r.value) && idx <= r.idx <= |buf| && buf[idx..r.idx] == Enc(k, r.value)
  {
    if k.KWord64? {
      var hi := GetUint32(buf, idx).value;
      assert buf[idx..idx + 8] == buf[idx..hi.idx] + buf[hi.idx..hi.idx + 4];
    }
  }

  lemma Word32Complete(pre: seq<byte>, v: seq<byte>, post: seq<byte>)
    requires |v| == 4
    ensures GetUint32(pre + v + post, |pre|) == Ok(Read(FromBytes32(v), |pre| + 4))
  {
    BytesRoundTrip(v);
    Uint32At(pre, FromBytes32(v), post);
  }

  lemma Word64Complete(pre: seq<byte>, v: seq<byte>, post: seq<byte>)
    requires |v| == 8
    ensures ReadField(KWord64, pre + v + post, |pre|) == Ok(Read(v, |pre| + 8))
  {
    var hi, lo := v[..4], v[4..];
    assert v == hi + lo;
    Assoc(pre, hi, lo);
    Assoc(pre + hi, lo, post);
    Assoc(pre, hi, lo + post);
    Word32Complete(pre, hi, lo + post);
    Word32Complete(pre + hi, lo, post);
    BytesRoundTrip(hi);
    BytesRoundTrip(lo);
    hide ToBytes32, FromBytes32, GetUint32;
  }

  /** Wherever a field's encoding stands it is read back. */
  lemma ReadFieldComplete(k: Kind, pre: seq<byte>, v: seq<byte>, post: seq<byte>)
    requires Fits(k, v)
    ensures ReadField(k, pre + Enc(k, v) + post, |pre|) == Ok(Read(v, |pre| + |Enc(k, v)|))
  {
    if k.KWord64? {
      Word64Complete(pre, v, post);
    } else if k.KWord32? {
      Word32Complete(pre, v, post);
      BytesRoundTrip(v);
    } else {
      StringRefAt(pre, v, post);
    }
    hide GetStringRef, GetUint32, GetUint64, ToBytes32, FromBytes32, Str;
  }

  // ----------------------------------------------------- lists of fields

  /** Reading got off the front of the fields ends at idx. */
  ghost predicate At(ks: seq<Kind>, buf: seq<byte>, got: seq<seq<byte>>, idx: nat) {
    && |got| <= |ks| && idx <= |buf|
    && AllFit(ks[..|got|], got) && buf[..idx] == EncAll(ks[..|got|], got)
  }

  /** The buffer is the encoding of some values. */
  ghost predicate Encodes(ks: seq<Kind>, vs: seq<seq<byte>>, buf: seq<byte>) {
    AllFit(ks, vs) && EncAll(ks, vs) == buf
  }

  lemma {:induction false} EncAllSplits(ks: seq<Kind>, vs: seq<seq<byte>>, n: nat)
    requires AllFit(ks, vs) && n <= |ks|
    ensures AllFit(ks[..n], vs[..n]) && AllFit(ks[n..], vs[n..])
    ensures EncAll(ks, vs) == EncAll(ks[..n], vs[..n]) + EncAll(ks[n..], vs[n..])
    decreases n
  {
    if n == 0 {
      assert ks[0..] == ks && vs[0..] == vs;
    } else {
      EncAllSplits(ks[1..], vs[1..], n - 1);
      assert ks[..n][1..] == ks[1..][..n - 1] && vs[..n][1..] == vs[1..][..n - 1];
      assert ks[1..][n - 1..] == ks[n..] && vs[1..][n - 1..] == vs[n..];
    }
  }

  lemma {:induction false} EncAllSnoc(ks: seq<Kind>, vs: seq<seq<byte>>, k: Kind, v: seq<byte>)
    requires AllFit(ks, vs) && Fits(k, v)
    ensures AllFit(ks + [k], vs + [v]) && EncAll(ks + [k], vs + [v]) == EncAll(ks, vs) + Enc(k, v)
    decreases |ks|
  {
    hide Fits, Enc;
    if ks == [] {
      assert (ks + [k])[1..] == [] && EncAll([], vs) + Enc(k, v) == Enc(k, v) + [];
    } else {
      EncAllSnoc(ks[1..], vs[1..], k, v);
      assert (ks + [k])[1..] == ks[1..] + [k] && (vs + [v])[1..] == vs[1..] + [v];
      Assoc(Enc(ks[0], vs[0]), EncAll(ks[1..], vs[1..]), Enc(k, v));
    }
  }

  /** One more field read. */
  lemma AtGrows(ks: seq<Kind>, buf: seq<byte>, got: seq<seq<byte>>, idx: nat)
    requires At(ks, buf, got, idx) && |got| < |ks|
    requires ReadField(ks[|got|], buf, idx).Ok?
    ensures var r := ReadField(ks[|got|], buf, idx).value;
            At(ks, buf, got + [r.value], r.idx) && idx <= r.idx <= |buf| && Fits(ks[|got|], r.value)
            && buf[idx..r.idx] == Enc(ks[|got|], r.value)
  {
    hide EncAll, Enc, Fits, ReadField;
    var n := |got|;
    ReadFieldSound(ks[n], buf, idx);
    var r := ReadField(ks[n], buf, idx).value;
    EncAllSnoc(ks[..n], got, ks[n], r.value);
    assert ks[..n + 1] == ks[..n] + [ks[n]];
    assert buf[..r.idx] == buf[..idx] + buf[idx..r.idx];
  }

  /** A value list that encodes the buffer agrees with what has been read of it,
      and its next field is readable. */
  lemma AtAgrees(ks: seq<Kind>, buf: seq<byte>, got: seq<seq<byte>>, idx: nat, vs: seq<seq<byte>>)
    requires At(ks, buf, got, idx) && got <= vs && Encodes(ks, vs, buf) && |got| < |ks|
    ensures ReadField(ks[|got|], buf, idx).Ok?
    ensures got + [ReadField(ks[|got|], buf, idx).value.value] <= vs
  {
    var n := |got|;
    EncAllSplits(ks, vs, n);
    assert vs[..n] == got;
    var k, v := ks[n], vs[n];
    var rest := EncAll(ks[n..][1..], vs[n..][1..]);
    assert EncAll(ks[n..], vs[n..]) == Enc(k, v) + rest;
    Assoc(buf[..idx], Enc(k, v), rest);
    ReadFieldComplete(k, buf[..idx], v, rest);
  }

  // --------------------------------------------------------- the format

  /** The octets of a literal. */
  function Ascii(s: string): (r: seq<byte>)
    ensures |r| == |s|
  {
    seq(|s|, i requires 0 <= i < |s| => s[i] as int % 256)
  }

  /** NameToId gives this type for the name. */
  predicate Names(name: seq<byte>, t: KeyType) {
    match t
    case CertRsa =>
      || name == Ascii("ssh-rsa-cert-v01@openssh.com")
      || name == Ascii("rsa-sha2-256-cert-v01@openssh.com")
      || name == Ascii("rsa-sha2-512-cert-v01@openssh.com")
    case CertEcdsaNistp256 => name == Ascii("ecdsa-sha2-nistp256-cert-v01@openssh.com")
    case CertEcdsaNistp384 => name == Ascii("ecdsa-sha2-nistp384-cert-v01@openssh.com")
    case CertEcdsaNistp521 => name == Ascii("ecdsa-sha2-nistp521-cert-v01@openssh.com")
    case CertEd25519 => name == Ascii("ssh-ed25519-cert-v01@openssh.com")
    case Unknown => false
  }

  /** e and n, or curve and point, or the one key. */
  function UserKey(t: KeyType): seq<Kind> {
    if t.CertRsa? then [KMpint, KMpint]
    else if t.CertEcdsaNistp256? || t.CertEcdsaNistp384? || t.CertEcdsaNistp521? then [KString, KString]
    else [KString]
  }

  const BEFORE_KEY: seq<Kind> := [KString, KString]   // type name, nonce

  // serial, type, key id, principals, valid after, valid before, critical
  // options, extensions, reserved, signature key, signature
  const AFTER_KEY: seq<Kind> :=
    [KWord64, KWord32, KString, KString, KWord64, KWord64, KString, KString, KString, KString, KString]

  function Layout(t: KeyType): seq<Kind> {
    BEFORE_KEY + UserKey(t) + AFTER_KEY
  }

  /** A well-formed certificate of a type: the fields fill the blob, the first
      names the type, and the signature key starts with a name of its own. */
  ghost predicate WellFormed(t: KeyType, vs: seq<seq<byte>>, blob: seq<byte>) {
    && Encodes(Layout(t), vs, blob) && Names(vs[0], t)
    && GetStringRef(vs[|vs| - 2], 0).Ok?
  }

  /** No two ways to read a blob. */
  lemma WellFormedIsUnique(t: KeyType, vs: seq<seq<byte>>, ws: seq<seq<byte>>, blob: seq<byte>)
    requires Encodes(Layout(t), vs, blob) && Encodes(Layout(t), ws, blob)
    ensures vs == ws
  {
    EncAllInjective(Layout(t), vs, ws);
  }

  lemma {:induction false} EncAllInjective(ks: seq<Kind>, vs: seq<seq<byte>>, ws: seq<seq<byte>>)
    requires AllFit(ks, vs) && AllFit(ks, ws) && EncAll(ks, vs) == EncAll(ks, ws)
    ensures vs == ws
    decreases |ks|
  {
    if ks != [] {
      var k := ks[0];
      assert [] + Enc(k, vs[0]) == Enc(k, vs[0]) && [] + Enc(k, ws[0]) == Enc(k, ws[0]);
      ReadFieldComplete(k, [], vs[0], EncAll(ks[1..], vs[1..]));
      ReadFieldComplete(k, [], ws[0], EncAll(ks[1..], ws[1..]));
      assert EncAll(ks, vs)[|Enc(k, vs[0])|..] == EncAll(ks[1..], vs[1..]);
      assert EncAll(ks, ws)[|Enc(k, ws[0])|..] == EncAll(ks[1..], ws[1..]);
      EncAllInjective(ks[1..], vs[1..], ws[1..]);
      assert vs == [vs[0]] + vs[1..] && ws == [ws[0]] + ws[1..];
    }
  }

  // -------------------------------------------------------- the parser

  /** OsshCertBaseId knows every certificate type. */
  predicate Supported(t: KeyType) {
    !t.Unknown?
  }

  function BytesOf32(n: nat): seq<byte> {
    ToBytes32(n % 0x1_0000_0000)
  }

  function BytesOf64(n: nat): seq<byte> {
    BytesOf32(n / 0x1_0000_0000) + BytesOf32(n)
  }

  /** The blob is no certificate of the type. */
  ghost predicate Rejected(t: KeyType, blob: seq<byte>) {
    forall vs :: !WellFormed(t, vs, blob)
  }

  /** One more field. */
  function Push(got: seq<seq<byte>>, v: seq<byte>): (r: seq<seq<byte>>)
    ensures |r| == |got| + 1 && (got != [] ==> r[0] == got[0])
  {
    got + [v]
  }

  /** How far a parse is: got are the fields before idx, and every way to read the
      blob starts with them. */
  ghost predicate Reading(t: KeyType, blob: seq<byte>, got: seq<seq<byte>>, idx: nat) {
    && At(Layout(t), blob, got, idx)
    && forall vs :: WellFormed(t, vs, blob) ==> got <= vs
  }

  /** The reader of the next field, whatever its kind. */
  method Next(ghost t: KeyType, k: Kind, blob: seq<byte>, idx: nat, ghost got: seq<seq<byte>>)
    returns (ret: Ret, v: seq<byte>, end: nat)
    requires Reading(t, blob, got, idx) && |got| < |Layout(t)| && Layout(t)[|got|] == k
    ensures ret == Success || ret.Malformed?
    ensures ret == Success ==>
              && Reading(t, blob, Push(got, v), end) && Fits(k, v)
              && idx <= end <= |blob| && blob[idx..end] == Enc(k, v)
    ensures ret != Success ==> Rejected(t, blob)
  {
    var r := ReadField(k, blob, idx);
    forall vs | WellFormed(t, vs, blob)
      ensures r.Ok? && got + [r.value.value] <= vs
    {
      AtAgrees(Layout(t), blob, got, idx, vs);
    }
    if r.Err? {
      return Malformed(r.error), [], idx;
    }
    AtGrows(Layout(t), blob, got, idx);
    return Success, r.value.value, r.value.idx;
  }

  lemma LayoutOf(t: KeyType)
    ensures |Layout(t)| == 13 + |UserKey(t)| && Layout(t)[..2] == BEFORE_KEY
    ensures Layout(t)[2..2 + |UserKey(t)|] == UserKey(t) && Layout(t)[2 + |UserKey(t)|..] == AFTER_KEY
  {
  }

  /** A field behind the user's key, by its place there. */
  method NextAfterKey(ghost t: KeyType, ghost j: nat, k: Kind, blob: seq<byte>, idx: nat, ghost got: seq<seq<byte>>)
    returns (ret: Ret, v: seq<byte>, end: nat)
    requires Reading(t, blob, got, idx) && j < 11 && AFTER_KEY[j] == k && |got| == 2 + |UserKey(t)| + j
    ensures ret == Success || ret.Malformed?
    ensures ret == Success ==>
              && Reading(t, blob, Push(got, v), end) && Fits(k, v)
              && idx <= end <= |blob| && blob[idx..end] == Enc(k, v)
    ensures ret != Success ==> Rejected(t, blob)
  {
    LayoutOf(t);
    assert Layout(t)[|got|] == Layout(t)[2 + |UserKey(t)|..][j];
    hide Reading, Layout, UserKey, WellFormed, Rejected, Push;
    ret, v, end := Next(t, k, blob, idx, got);
  }

  lemma OneField(k: Kind, v: seq<byte>)
    requires Fits(k, v)
    ensures Encodes([k], [v], Enc(k, v))
  {
    assert EncAll([k], [v]) == Enc(k, v) + [];
  }

  lemma TwoFields(k: Kind, v: seq<byte>, w: seq<byte>)
    requires Fits(k, v) && Fits(k, w)
    ensures Encodes([k, k], [v, w], Enc(k, v) + Enc(k, w))
  {
    OneField(k, w);
    assert [k, k][1..] == [k] && [v, w][1..] == [w];
  }

  lemma LayoutOfKey(t: KeyType)
    requires Supported(t)
    ensures |Layout(t)| > 3 && var k := if t.CertRsa? then KMpint else KString;
            && Layout(t)[2] == k && (!t.CertEd25519? ==> Layout(t)[3] == k)
            && UserKey(t) == if t.CertEd25519? then [k] else [k, k]
  {
  }

  lemma PushIsAppend(got: seq<seq<byte>>, v: seq<byte>)
    ensures Push(got, v) == got + [v]
  {
  }

  lemma PushTwice(got: seq<seq<byte>>, v: seq<byte>, w: seq<byte>)
    ensures Push(Push(got, v), w) == got + [v, w]
  {
  }

  lemma TwoSlices(b: seq<byte>, i: nat, j: nat, k: nat)
    requires i <= j <= k <= |b|
    ensures b[i..k] == b[i..j] + b[j..k]
  {
  }

  /** OsshSkipUserKey */
  method SkipUserKey(t: KeyType, blob: seq<byte>, idx: nat, ghost got: seq<seq<byte>>)
    returns (ret: Ret, end: nat, ghost key: seq<seq<byte>>)
    requires Supported(t) && Reading(t, blob, got, idx) && |got| == 2 && idx <= |blob|
    ensures ret == Success || ret.Malformed?
    ensures ret == Success ==>
              && |key| == |UserKey(t)| && Reading(t, blob, got + key, end) && idx <= end <= |blob|
              && Encodes(UserKey(t), key, blob[idx..end])
    ensures ret != Success ==> Rejected(t, blob)
  {
    LayoutOfKey(t);
    hide Reading, Layout, UserKey, WellFormed, Fits, Enc, Encodes, Rejected, Push;
    var k := if t.CertRsa? then KMpint else KString;
    var v, w: seq<byte>, mid: nat;
    ret, v, mid := Next(t, k, blob, idx, got);
    end, key := mid, [v];
    if ret != Success {
      return;
    }
    PushIsAppend(got, v);
    if t.CertEd25519? {
      OneField(k, v);
      return;
    }
    ret, w, end := Next(t, k, blob, mid, Push(got, v));
    key := [v, w];
    if ret == Success {
      PushTwice(got, v, w);
      TwoSlices(blob, idx, mid, end);
      TwoFields(k, v, w);
    }
  }

  /** WS_OsshCert */
  class Cert {
    var typeId: KeyType
    var nonce: seq<byte>
    var userKeyParms: seq<byte>
    var serial: nat
    var certType: nat
    var keyId: seq<byte>
    var principals: seq<byte>
    var validAfter: nat
    var validBefore: nat
    var critOpts: seq<byte>
    var extensions: seq<byte>
    var caKey: seq<byte>
    var caKeyType: seq<byte>
    var signedLen: nat
    var signature: seq<byte>

    constructor ()
    {
      typeId := Unknown;
      nonce, userKeyParms, serial, certType := [], [], 0, 0;
      keyId, principals, validAfter, validBefore := [], [], 0, 0;
      critOpts, extensions, caKey, caKeyType, signedLen, signature := [], [], [], [], 0, [];
    }

    /** The fields from the serial number to the principals, behind others. */
    ghost function Identity(front: seq<seq<byte>>): (r: seq<seq<byte>>)
      reads `serial, `certType, `keyId, `principals
      ensures |r| == |front| + 4 && (front != [] ==> r[0] == front[0])
    {
      Push(Push(Push(Push(front, BytesOf64(serial)), BytesOf32(certType)), keyId), principals)
    }

    /** Those from the validity to the extensions. */
    ghost function Limits(front: seq<seq<byte>>): (r: seq<seq<byte>>)
      reads `validAfter, `validBefore, `critOpts, `extensions
      ensures |r| == |front| + 4 && (front != [] ==> r[0] == front[0])
    {
      Push(Push(Push(Push(front, BytesOf64(validAfter)), BytesOf64(validBefore)), critOpts), extensions)
    }

    /** All the fields of the certificate in their order; the type name, the parts
        of the user's key and the reserved field are not stored apart. */
    ghost function Fields(name: seq<byte>, key: seq<seq<byte>>, reserved: seq<byte>): seq<seq<byte>>
      reads this
    {
      Push(Push(Push(Limits(Identity(Push([name], nonce) + key)), reserved), caKey), signature)
    }

    /** The fields up to the user's key. */
    method ParseFront(t: KeyType, blob: seq<byte>)
      returns (ret: Ret, idx: nat, ghost name: seq<byte>, ghost key: seq<seq<byte>>)
      requires Supported(t)
      modifies `nonce, `userKeyParms
      ensures ret == Success ==>
              && Reading(t, blob, Push([name], nonce) + key, idx) && |key| == |UserKey(t)|
              && Encodes(UserKey(t), key, userKeyParms) && Names(name, t)
      ensures ret != Success ==> ret != BadArgument && Rejected(t, blob)
    {
      LayoutOf(t);
      assert Layout(t)[0] == Layout(t)[..2][0] && Layout(t)[1] == Layout(t)[..2][1];
      ReadingStarts(t, blob);
      hide Reading, Layout, UserKey, WellFormed, Fits, Enc, Encodes, Rejected, Names, Push;
      var str: seq<byte>;
      idx, name, key := 0, [], [];
      ret, str, idx := Next(t, KString, blob, 0, []);
      if ret != Success {
        return;
      }
      name := str;
      PushIsAppend([], str);
      assert [] + [str] == [str];
      if !Names(str, t) {
        NameDecides(t, blob, str, idx);
        return InvalidAlgoId, idx, name, key;
      }
      ret, str, idx := Next(t, KString, blob, idx, [name]);
      if ret != Success {
        return;
      }
      nonce := str;
      var ukStart := idx;
      ret, idx, key := SkipUserKey(t, blob, ukStart, Push([name], nonce));
      if ret == Success {
        userKeyParms := blob[ukStart..idx];
      }
    }

    method ParseIdentity(t: KeyType, blob: seq<byte>, start: nat, ghost front: seq<seq<byte>>)
      returns (ret: Ret, idx: nat)
      requires Reading(t, blob, front, start) && |front| == 2 + |UserKey(t)|
      modifies `serial, `certType, `keyId, `principals
      ensures ret == Success ==> Reading(t, blob, Identity(front), idx)
      ensures ret != Success ==> ret != BadArgument && Rejected(t, blob)
    {
      hide Reading, WellFormed, Enc, BytesOf64, BytesOf32, UserKey, Rejected, Push;
      var v: seq<byte>;
      ret, v, idx := NextAfterKey(t, 0, KWord64, blob, start, front);
      if ret != Success {
        return;
      }
      serial := Word64Value(v);
      ghost var got := Push(front, v);
      ret, v, idx := NextAfterKey(t, 1, KWord32, blob, idx, got);
      if ret != Success {
        return;
      }
      certType, got := Word32Value(v), Push(got, v);
      ret, v, idx := NextAfterKey(t, 2, KString, blob, idx, got);
      if ret != Success {
        return;
      }
      keyId, got := v, Push(got, v);
      ret, v, idx := NextAfterKey(t, 3, KString, blob, idx, got);
      principals := v;
    }

    method ParseLimits(t: KeyType, blob: seq<byte>, start: nat, ghost front: seq<seq<byte>>)
      returns (ret: Ret, idx: nat)
      requires Reading(t, blob, front, start) && |front| == 6 + |UserKey(t)|
      modifies `validAfter, `validBefore, `critOpts, `extensions
      ensures ret == Success ==> Reading(t, blob, Limits(front), idx)
      ensures ret != Success ==> ret != BadArgument && Rejected(t, blob)
    {
      hide Reading, WellFormed, Enc, BytesOf64, BytesOf32, UserKey, Rejected, Push;
      var v: seq<byte>;
      ret, v, idx := NextAfterKey(t, 4, KWord64, blob, start, front);
      if ret != Success {
        return;
      }
      validAfter := Word64Value(v);
      ghost var got := Push(front, v);
      ret, v, idx := NextAfterKey(t, 5, KWord64, blob, idx, got);
      if ret != Success {
        return;
      }
      validBefore, got := Word64Value(v), Push(got, v);
      ret, v, idx := NextAfterKey(t, 6, KString, blob, idx, got);
      if ret != Success {
        return;
      }
      critOpts, got := v, Push(got, v);
      ret, v, idx := NextAfterKey(t, 7, KString, blob, idx, got);
      extensions := v;
    }

    /** The reserved field, the signature key, which must start with a string of
        its own, and the signature, which must end the blob. */
    method ParseBack(t: KeyType, blob: seq<byte>, start: nat, ghost front: seq<seq<byte>>)
      returns (ret: Ret, ghost reserved: seq<byte>)
      requires Reading(t, blob, front, start) && |front| == 10 + |UserKey(t)| && Names(front[0], t)
      modifies `caKey, `caKeyType, `signedLen, `signature
      ensures ret == Success ==> WellFormed(t, Push(Push(Push(front, reserved), caKey), signature), blob)
      ensures ret == Success ==> GetStringRef(caKey, 0).Ok? && caKeyType == GetStringRef(caKey, 0).value.value
      ensures ret == Success ==> signedLen <= |blob| && |signature| < 0x1_0000_0000
                                 && blob == blob[..signedLen] + Str(signature)
      ensures ret != Success ==> ret != BadArgument && Rejected(t, blob)
    {
      hide Reading, WellFormed, UserKey, Rejected, Names, Str, GetStringRef;
      var v: seq<byte>, idx: nat;
      reserved := [];
      ret, v, idx := NextAfterKey(t, 8, KString, blob, start, front);
      if ret != Success {
        return;
      }
      reserved := v;
      ret, v, idx := NextAfterKey(t, 9, KString, blob, idx, Push(front, reserved));
      if ret != Success {
        return;
      }
      caKey, signedLen := v, idx;
      var caType := GetStringRef(caKey, 0);
      if caType.Err? {
        CaKeyDecides(t, blob, Push(Push(front, reserved), caKey), idx);
        return Malformed(caType.error), reserved;
      }
      caKeyType := caType.value.value;
      ret, v, idx := NextAfterKey(t, 10, KString, blob, idx, Push(Push(front, reserved), caKey));
      if ret != Success {
        return;
      }
      signature := v;
      ReadingEnds(t, blob, Push(Push(Push(front, reserved), caKey), signature), idx);
      if idx != |blob| {
        return Malformed(ParseError), reserved;
      }
      assert blob == blob[..signedLen] + blob[signedLen..idx];
    }

    /** The parse proper, its three parts in a row. */
    method ParseFields(t: KeyType, blob: seq<byte>)
      returns (ret: Ret, ghost name: seq<byte>, ghost key: seq<seq<byte>>, ghost reserved: seq<byte>)
      requires Supported(t)
      modifies this
      ensures ret == Success ==>
              && WellFormed(t, Fields(name, key, reserved), blob) && Encodes(UserKey(t), key, userKeyParms)
              && GetStringRef(caKey, 0).Ok? && caKeyType == GetStringRef(caKey, 0).value.value
              && signedLen <= |blob| && |signature| < 0x1_0000_0000
              && blob == blob[..signedLen] + Str(signature)
      ensures ret != Success ==> ret != BadArgument && Rejected(t, blob)
    {
      hide Reading, WellFormed, Encodes, UserKey, Rejected, Names, Push, Identity, Limits, Str, GetStringRef;
      reserved := [];
      var idx;
      ret, idx, name, key := ParseFront(t, blob);
      if ret != Success {
        return;
      }
      ghost var front := Push([name], nonce) + key;
      ret, idx := ParseIdentity(t, blob, idx, front);
      if ret != Success {
        return;
      }
      ret, idx := ParseLimits(t, blob, idx, Identity(front));
      if ret != Success {
        return;
      }
      ret, reserved := ParseBack(t, blob, idx, Limits(Identity(front)));
    }

    /** The memory is cleared first. */
    method Clear(t: KeyType)
      modifies this
      ensures typeId == t && serial == certType == validAfter == validBefore == signedLen == 0
      ensures nonce == userKeyParms == keyId == critOpts == extensions == caKey == caKeyType == signature == []
      ensures principals == []
    {
      typeId := t;
      ClearSubject();
      ClearIssuer();
    }

    method ClearSubject()
      modifies `nonce, `userKeyParms, `serial, `certType, `keyId, `principals
      ensures nonce == userKeyParms == keyId == [] && principals == [] && serial == certType == 0
    {
      nonce, userKeyParms, serial, certType, keyId, principals := [], [], 0, 0, [], [];
    }

    method ClearIssuer()
      modifies `validAfter, `validBefore, `critOpts, `extensions, `caKey, `caKeyType, `signedLen, `signature
      ensures validAfter == validBefore == signedLen == 0
      ensures critOpts == extensions == caKey == caKeyType == signature == []
    {
      validAfter, validBefore, signedLen := 0, 0, 0;
      critOpts, extensions, caKey, caKeyType, signature := [], [], [], [], [];
    }

    /** OsshCertParse succeeds exactly on the well-formed certificates of the type;
        its fields then tile the blob, and all before the signature is signed. */
    method Parse(t: KeyType, blob: seq<byte>)
      returns (ret: Ret, ghost name: seq<byte>, ghost key: seq<seq<byte>>, ghost reserved: seq<byte>)
      modifies this
      ensures ret == BadArgument <==> blob == []
      ensures ret == Success ==> WellFormed(t, Fields(name, key, reserved), blob)
      ensures ret == Success ==> Encodes(UserKey(t), key, userKeyParms)
      ensures ret == Success ==> GetStringRef(caKey, 0).Ok? && caKeyType == GetStringRef(caKey, 0).value.value
      ensures ret == Success ==> signedLen + 4 + |signature| == |blob| && |signature| < 0x1_0000_0000
                                 && blob == blob[..signedLen] + Str(signature)
      ensures ret != Success && ret != BadArgument ==> Rejected(t, blob)
    {
      name, key, reserved := [], [], [];
      if blob == [] {
        return BadArgument, name, key, reserved;
      }
      Clear(t);
      UnknownIsRejected(t, blob);
      hide WellFormed, Encodes, UserKey, Rejected, GetStringRef, Fields;
      if !Supported(t) {
        return InvalidAlgoId, name, key, reserved;
      }
      ret, name, key, reserved := ParseFields(t, blob);
      assert ret == Success ==> |blob| == |blob[..signedLen]| + |Str(signature)|;
    }
  }

  lemma UnknownIsRejected(t: KeyType, blob: seq<byte>)
    ensures !Supported(t) ==> Rejected(t, blob)
  {
  }

  lemma ReadingStarts(t: KeyType, blob: seq<byte>)
    ensures Reading(t, blob, [], 0)
  {
  }

  function Word32Value(v: seq<byte>): (n: nat)
    requires |v| == 4
    ensures n < 0x1_0000_0000 && BytesOf32(n) == v
  {
    BytesRoundTrip(v);
    FromBytes32(v)
  }

  function Word64Value(v: seq<byte>): (n: nat)
    requires |v| == 8
    ensures n < 0x1_0000_0000_0000_0000 && BytesOf64(n) == v
  {
    hide ToBytes32, FromBytes32;
    var hi, lo := Word32Value(v[..4]), Word32Value(v[4..]);
    assert v == v[..4] + v[4..];
    Halves(hi, lo);
    hi * 0x1_0000_0000 + lo
  }

  lemma Halves(hi: nat, lo: nat)
    requires hi < 0x1_0000_0000 && lo < 0x1_0000_0000
    ensures (hi * 0x1_0000_0000 + lo) / 0x1_0000_0000 == hi
    ensures (hi * 0x1_0000_0000 + lo) % 0x1_0000_0000 == lo
  {
  }

  lemma NameDecides(t: KeyType, blob: seq<byte>, name: seq<byte>, idx: nat)
    requires Reading(t, blob, [name], idx) && !Names(name, t)
    ensures Rejected(t, blob)
  {
    hide Names, Encodes;
  }

  lemma CaKeyDecides(t: KeyType, blob: seq<byte>, got: seq<seq<byte>>, idx: nat)
    requires Reading(t, blob, got, idx) && |got| == 12 + |UserKey(t)|
    requires GetStringRef(got[|got| - 1], 0).Err?
    ensures Rejected(t, blob)
  {
    LayoutOf(t);
    hide Layout, UserKey, EncAll, Names, GetStringRef;
  }

  /** With every field read, the blob is a certificate or has octets left over. */
  lemma ReadingEnds(t: KeyType, blob: seq<byte>, got: seq<seq<byte>>, idx: nat)
    requires Reading(t, blob, got, idx) && |got| == 13 + |UserKey(t)|
    ensures idx == |blob| && Names(got[0], t) && GetStringRef(got[|got| - 2], 0).Ok? ==> WellFormed(t, got, blob)
    ensures idx != |blob| ==> Rejected(t, blob)
  {
    LayoutOf(t);
    hide UserKey, EncAll, Names, GetStringRef;
    assert Layout(t)[..|got|] == Layout(t) && blob[..|blob|] == blob;
    forall vs | WellFormed(t, vs, blob)
      ensures vs == got
    {
      assert |vs| == |got| && got <= vs;
    }
  }
}
