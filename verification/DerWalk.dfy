/**
 * DerGetHeader and CertManExtKeyUsageHasOid: a walk over the tags and lengths of a
 * certificate's extensions (section 4.2.1.12 of RFC 5280) for one key purpose
 * (section 2.2.2 of RFC 6187).
 */
module DerWalk {
  import opened Bytes

  const TAG_BOOLEAN := 0x01
  const TAG_OCTET_STRING := 0x04
  const TAG_OBJECT_ID := 0x06
  const TAG_SEQUENCE := 0x30
  const TAG_WRAPPER := 0xA3   // [3] EXPLICIT

  const EXT_KEY_USAGE: seq<byte> := [0x55, 0x1D, 0x25]

  // ----------------------------------------------------------- headers

  /** A tag, where the content starts, and how long it is. */
  datatype Header = Header(tag: byte, idx: nat, len: nat)

  function BigEndian(s: seq<byte>): nat {
    if s == [] then 0 else BigEndian(s[..|s| - 1]) * 256 + s[|s| - 1]
  }

  /** A definite length of at most four octets, whose content lies within sz. */
  function HeaderAt(buf: seq<byte>, sz: nat, idx: nat): (h: Option<Header>)
    requires sz <= |buf|
    ensures h.Some? ==> idx < h.value.idx && h.value.idx + h.value.len <= sz
  {
    if idx >= sz || sz - idx < 2 then None
    else
      var b := buf[idx + 1];
      if b < 0x80 then
        if b > sz - idx - 2 then None else Some(Header(buf[idx], idx + 2, b))
      else
        var n := b - 0x80;
        if n == 0 || n > 4 || sz - idx - 2 < n then None
        else
          var l := BigEndian(buf[idx + 2..idx + 2 + n]);
          if l > sz - idx - 2 - n then None else Some(Header(buf[idx], idx + 2 + n, l))
  }

  /** DerGetHeader */
  method DerGetHeader(buf: seq<byte>, sz: nat, idx: nat) returns (h: Option<Header>)
    requires sz <= |buf|
    ensures h == HeaderAt(buf, sz, idx)
  {
    var i := idx;
    if i >= sz || sz - i < 2 {
      return None;
    }
    var tag, b := buf[i], buf[i + 1];
    i := i + 2;
    var l: nat := b;
    if b >= 0x80 {
      var n := b % 0x80;
      if n == 0 || n > 4 || sz - i < n {
        return None;
      }
      l := 0;
      var from := i;
      while n > 0
        invariant 0 <= n && i + n == from + b - 0x80 <= sz && from <= i
        invariant l == BigEndian(buf[from..i])
      {
        assert buf[from..i + 1][..i - from] == buf[from..i];
        l := l * 256 + buf[i];
        i, n := i + 1, n - 1;
      }
    }
    if l > sz - i {
      return None;
    }
    h := Some(Header(tag, i, l));
  }

  // -------------------------------------------------------------- walk

  datatype Found = Yes | No | Unparsed   // 1, 0 and -1

  /** The purposes from a cursor to their end. */
  function PurposesHave(buf: seq<byte>, end: nat, idx: nat, oid: seq<byte>): Found
    requires end <= |buf|
    decreases end - idx
  {
    if idx >= end then No
    else
      match HeaderAt(buf, end, idx)
      case None => Unparsed
      case Some(h) =>
        if h.tag != TAG_OBJECT_ID then Unparsed
        else if buf[h.idx..h.idx + h.len] == oid then Yes
        else PurposesHave(buf, end, h.idx + h.len, oid)
  }

  /** What follows the name of an extended key usage extension. */
  function UsageHas(buf: seq<byte>, extEnd: nat, idx: nat, oid: seq<byte>): Found
    requires extEnd <= |buf|
  {
    match HeaderAt(buf, extEnd, idx)
    case None => Unparsed
    case Some(first) =>
      var value := if first.tag == TAG_BOOLEAN then HeaderAt(buf, extEnd, first.idx + first.len) else Some(first);
      match value
      case None => Unparsed
      case Some(v) =>
        if v.tag != TAG_OCTET_STRING then Unparsed
        else
          match HeaderAt(buf, v.idx + v.len, v.idx)
          case None => Unparsed
          case Some(s) =>
            if s.tag != TAG_SEQUENCE then Unparsed
            else PurposesHave(buf, s.idx + s.len, s.idx, oid)
  }

  /** An extension's name, where what follows it starts, and where it ends. */
  datatype Entry = Entry(name: seq<byte>, rest: nat, end: nat)

  function EntryAt(buf: seq<byte>, end: nat, idx: nat): (r: Option<Entry>)
    requires end <= |buf|
    ensures r.Some? ==> idx < r.value.rest <= r.value.end <= end
  {
    match HeaderAt(buf, end, idx)
    case None => None
    case Some(ext) =>
      if ext.tag != TAG_SEQUENCE then None
      else
        match HeaderAt(buf, ext.idx + ext.len, ext.idx)
        case None => None
        case Some(name) =>
          if name.tag != TAG_OBJECT_ID then None
          else Some(Entry(buf[name.idx..name.idx + name.len], name.idx + name.len, ext.idx + ext.len))
  }

  /** The extensions from a cursor to their end. */
  function ExtensionsHave(buf: seq<byte>, end: nat, idx: nat, oid: seq<byte>): Found
    requires end <= |buf|
    decreases end - idx
  {
    if idx >= end then No
    else
      match EntryAt(buf, end, idx)
      case None => Unparsed
      case Some(e) =>
        if e.name == EXT_KEY_USAGE then UsageHas(buf, e.end, e.rest, oid) else ExtensionsHave(buf, end, e.end, oid)
  }

  function Walk(buf: seq<byte>, oid: seq<byte>): Found {
    if buf == [] then No
    else
      match HeaderAt(buf, |buf|, 0)
      case None => Unparsed
      case Some(first) =>
        var list := if first.tag == TAG_WRAPPER then HeaderAt(buf, |buf|, first.idx) else Some(first);
        match list
        case None => Unparsed
        case Some(l) =>
          if l.tag != TAG_SEQUENCE then Unparsed else ExtensionsHave(buf, l.idx + l.len, l.idx, oid)
  }

  /** CertManExtKeyUsageHasOid. Every index read is inside the buffer and the walk
      ends, whatever the bytes. */
  method ExtKeyUsageHasOid(buf: seq<byte>, oid: seq<byte>) returns (found: Found)
    ensures found == Walk(buf, oid)
  {
    hide HeaderAt, BigEndian, UsageHas, PurposesHave;
    if buf == [] {
      return No;
    }
    var h := DerGetHeader(buf, |buf|, 0);
    if h.None? {
      return Unparsed;
    }
    if h.value.tag == TAG_WRAPPER {
      h := DerGetHeader(buf, |buf|, h.value.idx);
      if h.None? {
        return Unparsed;
      }
    }
    if h.value.tag != TAG_SEQUENCE {
      return Unparsed;
    }
    var idx, end := h.value.idx, h.value.idx + h.value.len;
    assert Walk(buf, oid) == ExtensionsHave(buf, end, idx, oid);
    hide Walk;
    while idx < end
      invariant end <= |buf| && Walk(buf, oid) == ExtensionsHave(buf, end, idx, oid)
      decreases end - idx
    {
      h := DerGetHeader(buf, end, idx);
      if h.None? || h.value.tag != TAG_SEQUENCE {
        return Unparsed;
      }
      var extEnd := h.value.idx + h.value.len;
      h := DerGetHeader(buf, extEnd, h.value.idx);
      if h.None? || h.value.tag != TAG_OBJECT_ID {
        return Unparsed;
      }
      idx := h.value.idx;
      if buf[idx..idx + h.value.len] == EXT_KEY_USAGE {
        found := UsageHasOid(buf, extEnd, idx + h.value.len, oid);
        return;
      }
      idx := extEnd;
    }
    found := No;
  }

  /** The branch taken at the extension that matters, with its inner loop. */
  method UsageHasOid(buf: seq<byte>, end: nat, start: nat, oid: seq<byte>) returns (found: Found)
    requires end <= |buf|
    ensures found == UsageHas(buf, end, start, oid)
  {
    hide HeaderAt, BigEndian;
    var h := DerGetHeader(buf, end, start);
    if h.None? {
      return Unparsed;
    }
    if h.value.tag == TAG_BOOLEAN {
      h := DerGetHeader(buf, end, h.value.idx + h.value.len);
      if h.None? {
        return Unparsed;
      }
    }
    if h.value.tag != TAG_OCTET_STRING {
      return Unparsed;
    }
    h := DerGetHeader(buf, h.value.idx + h.value.len, h.value.idx);
    if h.None? || h.value.tag != TAG_SEQUENCE {
      return Unparsed;
    }
    var idx, extEnd := h.value.idx, h.value.idx + h.value.len;
    assert UsageHas(buf, end, start, oid) == PurposesHave(buf, extEnd, idx, oid);
    hide UsageHas;
    while idx < extEnd
      invariant extEnd <= |buf| && UsageHas(buf, end, start, oid) == PurposesHave(buf, extEnd, idx, oid)
      decreases extEnd - idx
    {
      h := DerGetHeader(buf, extEnd, idx);
      if h.None? || h.value.tag != TAG_OBJECT_ID {
        return Unparsed;
      }
      idx := h.value.idx;
      if buf[idx..idx + h.value.len] == oid {
        return Yes;
      }
      idx := idx + h.value.len;
    }
    found := No;
  }

  // ------------------------------------------------- on arbitrary bytes

  /** An object identifier item stands there within a bound. */
  ghost predicate NamedAt(buf: seq<byte>, end: nat, at: nat, oid: seq<byte>) {
    && end <= |buf| && HeaderAt(buf, end, at).Some?
    && var h := HeaderAt(buf, end, at).value; h.tag == TAG_OBJECT_ID && buf[h.idx..h.idx + h.len] == oid
  }

  lemma {:induction false} PurposeIsThere(buf: seq<byte>, end: nat, idx: nat, oid: seq<byte>) returns (at: nat)
    requires end <= |buf| && PurposesHave(buf, end, idx, oid) == Yes
    ensures idx <= at < end && NamedAt(buf, end, at, oid)
    decreases end - idx
  {
    hide HeaderAt;
    var h := HeaderAt(buf, end, idx).value;
    if buf[h.idx..h.idx + h.len] == oid {
      at := idx;
    } else {
      at := PurposeIsThere(buf, end, h.idx + h.len, oid);
    }
  }

  lemma UsageIsThere(buf: seq<byte>, extEnd: nat, idx: nat, oid: seq<byte>) returns (end: nat, at: nat)
    requires extEnd <= |buf| && UsageHas(buf, extEnd, idx, oid) == Yes
    ensures idx <= at < end <= extEnd && NamedAt(buf, end, at, oid)
  {
    hide HeaderAt, PurposesHave;
    var first := HeaderAt(buf, extEnd, idx).value;
    var v := if first.tag == TAG_BOOLEAN then HeaderAt(buf, extEnd, first.idx + first.len).value else first;
    var s := HeaderAt(buf, v.idx + v.len, v.idx).value;
    end := s.idx + s.len;
    at := PurposeIsThere(buf, end, s.idx, oid);
  }

  lemma {:induction false} ExtensionIsThere(buf: seq<byte>, listEnd: nat, idx: nat, oid: seq<byte>)
    returns (e: Entry, from: nat, end: nat, at: nat)
    requires listEnd <= |buf| && ExtensionsHave(buf, listEnd, idx, oid) == Yes
    ensures EntryAt(buf, listEnd, from) == Some(e) && e.name == EXT_KEY_USAGE
    ensures e.rest <= at < end <= e.end && NamedAt(buf, end, at, oid)
    decreases listEnd - idx
  {
    hide HeaderAt, UsageHas, NamedAt;
    e, from := EntryAt(buf, listEnd, idx).value, idx;
    if e.name == EXT_KEY_USAGE {
      end, at := UsageIsThere(buf, e.end, e.rest, oid);
    } else {
      e, from, end, at := ExtensionIsThere(buf, listEnd, e.end, oid);
    }
  }

  /** Whatever the bytes, a purpose is only found where it is named, as an item of an
      extension that is an extended key usage. */
  lemma FoundIsThere(buf: seq<byte>, oid: seq<byte>)
    returns (listEnd: nat, e: Entry, from: nat, end: nat, at: nat)
    requires Walk(buf, oid) == Yes
    ensures listEnd <= |buf| && EntryAt(buf, listEnd, from) == Some(e) && e.name == EXT_KEY_USAGE
    ensures e.rest <= at < end <= e.end && NamedAt(buf, end, at, oid)
  {
    hide HeaderAt, ExtensionsHave, EntryAt, NamedAt;
    var first := HeaderAt(buf, |buf|, 0).value;
    var l := if first.tag == TAG_WRAPPER then HeaderAt(buf, |buf|, first.idx).value else first;
    listEnd := l.idx + l.len;
    e, from, end, at := ExtensionIsThere(buf, listEnd, l.idx, oid);
  }

  // ---------------------------------------------------------- encoding

  /** The shortest definite length. */
  function Length(n: nat): seq<byte> {
    var word := ToBytes32(n % 0x1_0000_0000);
    if n < 0x80 then [n]
    else if n < 0x100 then [0x81] + word[3..]
    else if n < 0x1_0000 then [0x82] + word[2..]
    else if n < 0x100_0000 then [0x83] + word[1..]
    else [0x84] + word
  }

  function Tlv(tag: byte, content: seq<byte>): (r: seq<byte>)
    ensures 2 + |content| <= |r|
  {
    [tag] + Length(|content|) + content
  }

  function EncPurposes(purposes: seq<seq<byte>>): seq<byte> {
    if purposes == [] then [] else Tlv(TAG_OBJECT_ID, purposes[0]) + EncPurposes(purposes[1..])
  }

  /** An extension, its critical flag there or left to its default. */
  datatype Ext =
    | Other(oid: seq<byte>, critical: Option<seq<byte>>, value: seq<byte>)
    | Usage(critical: Option<seq<byte>>, purposes: seq<seq<byte>>)

  function EncFlag(critical: Option<seq<byte>>): seq<byte> {
    if critical.Some? then Tlv(TAG_BOOLEAN, critical.value) else []
  }

  /** An extension's name, and what follows it. */
  function Name(e: Ext): seq<byte> {
    Tlv(TAG_OBJECT_ID, OidOf(e))
  }

  function Rest(e: Ext): seq<byte> {
    EncFlag(e.critical)
    + Tlv(TAG_OCTET_STRING, if e.Usage? then Tlv(TAG_SEQUENCE, EncPurposes(e.purposes)) else e.value)
  }

  function EncExts(es: seq<Ext>): seq<byte> {
    if es == [] then [] else EncExt(es[0]) + EncExts(es[1..])
  }

  /** The extension list, bare or still in its wrapper. */
  function EncList(es: seq<Ext>, wrapped: bool): seq<byte> {
    var list := Tlv(TAG_SEQUENCE, EncExts(es));
    if wrapped then Tlv(TAG_WRAPPER, list) else list
  }

  // ------------------------------------------------- reading it back

  ghost predicate At(buf: seq<byte>, idx: nat, s: seq<byte>) {
    idx + |s| <= |buf| && buf[idx..idx + |s|] == s
  }

  lemma AtSplits(buf: seq<byte>, idx: nat, a: seq<byte>, b: seq<byte>)
    requires At(buf, idx, a + b)
    ensures At(buf, idx, a) && At(buf, idx + |a|, b)
  {
    var both := buf[idx..idx + |a| + |b|];
    assert buf[idx..idx + |a|] == both[..|a|] && buf[idx + |a|..idx + |a| + |b|] == both[|a|..];
  }

  lemma BigEndianReads(n: nat)
    requires n < 0x1_0000_0000
    ensures BigEndian(ToBytes32(n)) == n
    ensures n < 0x100_0000 ==> BigEndian(ToBytes32(n)[1..]) == n
    ensures n < 0x1_0000 ==> BigEndian(ToBytes32(n)[2..]) == n
    ensures n < 0x100 ==> BigEndian(ToBytes32(n)[3..]) == n
  {
    var w := ToBytes32(n);
    WordRoundTrip(n);
    FourOctets(w[0], w[1], w[2], w[3]);
    ThreeOctets(w[1], w[2], w[3]);
    TwoOctets(w[2], w[3]);
    OneOctet(w[3]);
    assert w == [w[0], w[1], w[2], w[3]];
    assert w[1..] == [w[1], w[2], w[3]] && w[2..] == [w[2], w[3]] && w[3..] == [w[3]];
    hide BigEndian;
  }

  lemma OneOctet(d: byte)
    ensures BigEndian([d]) == d
  {
    BigEndianSnoc([], d);
    assert [] + [d] == [d] && BigEndian([]) == 0;
  }

  lemma TwoOctets(c: byte, d: byte)
    ensures BigEndian([c, d]) == (c as int) * 256 + d
  {
    OneOctet(c);
    BigEndianSnoc([c], d);
    hide BigEndian;
    assert [c] + [d] == [c, d];
  }

  lemma ThreeOctets(b: byte, c: byte, d: byte)
    ensures BigEndian([b, c, d]) == ((b as int) * 256 + c) * 256 + d
  {
    TwoOctets(b, c);
    BigEndianSnoc([b, c], d);
    hide BigEndian;
    assert [b, c] + [d] == [b, c, d];
  }

  lemma FourOctets(a: byte, b: byte, c: byte, d: byte)
    ensures BigEndian([a, b, c, d]) == (((a as int) * 256 + b) * 256 + c) * 256 + d
  {
    ThreeOctets(a, b, c);
    BigEndianSnoc([a, b, c], d);
    hide BigEndian;
    assert [a, b, c] + [d] == [a, b, c, d];
  }

  lemma BigEndianSnoc(s: seq<byte>, x: byte)
    ensures BigEndian(s + [x]) == BigEndian(s) * 256 + x
  {
    assert (s + [x])[..|s|] == s;
  }

  /** A length octet that says n more, and those. */
  lemma LongLength(n: nat)
    requires 0x80 <= n < 0x1_0000_0000
    ensures var l := Length(n);
            |l| > 1 && 0x80 < l[0] <= 0x84 && |l| == 1 + l[0] - 0x80 && BigEndian(l[1..]) == n
  {
    BigEndianReads(n);
    hide BigEndian, ToBytes32;
    var w := ToBytes32(n);
    assert ([0x81] + w[3..])[1..] == w[3..] && ([0x82] + w[2..])[1..] == w[2..];
    assert ([0x83] + w[1..])[1..] == w[1..] && ([0x84] + w)[1..] == w;
  }

  lemma LengthReads(buf: seq<byte>, sz: nat, idx: nat, n: nat)
    requires n < 0x1_0000_0000 && idx < |buf| && At(buf, idx + 1, Length(n))
    requires idx + 1 + |Length(n)| + n <= sz <= |buf|
    ensures HeaderAt(buf, sz, idx) == Some(Header(buf[idx], idx + 1 + |Length(n)|, n))
  {
    var l := Length(n);
    assert buf[idx + 1..idx + 1 + |l|][0] == buf[idx + 1];
    if n >= 0x80 {
      LongLength(n);
      hide Length, BigEndian;
      assert buf[idx + 2..idx + 1 + |l|] == buf[idx + 1..idx + 1 + |l|][1..];
    }
  }

  /** Length octets: one below 128, or a count of one to four and so many digits of
      base 256, whether or not fewer would do. */
  predicate Denotes(octets: seq<byte>, len: nat) {
    || (|octets| == 1 && octets[0] < 128 && len == octets[0])
    || (2 <= |octets| <= 5 && octets[0] == 127 + |octets| && len == BigEndian(octets[1..]))
  }

  ghost predicate IsHeader(buf: seq<byte>, sz: nat, idx: nat, h: Header, octets: seq<byte>) {
    && idx + 1 + |octets| == h.idx && h.idx + h.len <= sz <= |buf|
    && buf[idx] == h.tag && buf[idx + 1..h.idx] == octets && Denotes(octets, h.len)
  }

  /** A header is read exactly where a tag and length octets stand whose content lies
      within the bound. */
  lemma HeaderReadExactly(buf: seq<byte>, sz: nat, idx: nat, h: Header)
    requires sz <= |buf|
    ensures HeaderAt(buf, sz, idx) == Some(h) <==> exists octets :: IsHeader(buf, sz, idx, h, octets)
  {
    hide BigEndian;
    if HeaderAt(buf, sz, idx) == Some(h) {
      var octets := buf[idx + 1..h.idx];
      assert octets[0] == buf[idx + 1] && octets[1..] == buf[idx + 2..h.idx];
      assert IsHeader(buf, sz, idx, h, octets);
    }
    if octets :| IsHeader(buf, sz, idx, h, octets) {
      assert octets[0] == buf[idx + 1] && octets[1..] == buf[idx + 2..h.idx];
    }
  }

  /** Where an encoded item stands, its header is read as such. */
  lemma TlvReads(buf: seq<byte>, sz: nat, idx: nat, tag: byte, content: seq<byte>)
    requires At(buf, idx, Tlv(tag, content)) && idx + |Tlv(tag, content)| <= sz <= |buf| < 0x1_0000_0000
    ensures var at := idx + |Tlv(tag, content)| - |content|;
            && idx + 2 <= at && HeaderAt(buf, sz, idx) == Some(Header(tag, at, |content|))
            && At(buf, at, content) && buf[at..at + |content|] == content
  {
    hide HeaderAt, Length, BigEndian;
    var l := Length(|content|);
    AtSplits(buf, idx, [tag] + l, content);
    AtSplits(buf, idx, [tag], l);
    assert buf[idx..idx + 1][0] == buf[idx];
    LengthReads(buf, sz, idx, |content|);
  }

  lemma {:induction false} PurposesRead(buf: seq<byte>, idx: nat, purposes: seq<seq<byte>>, oid: seq<byte>)
    requires At(buf, idx, EncPurposes(purposes)) && |buf| < 0x1_0000_0000
    ensures idx + |EncPurposes(purposes)| <= |buf|
    ensures PurposesHave(buf, idx + |EncPurposes(purposes)|, idx, oid) == if oid in purposes then Yes else No
    decreases |purposes|
  {
    hide HeaderAt, Tlv;
    if purposes != [] {
      var p, more := purposes[0], EncPurposes(purposes[1..]);
      assert EncPurposes(purposes) == Tlv(TAG_OBJECT_ID, p) + more;
      AtSplits(buf, idx, Tlv(TAG_OBJECT_ID, p), more);
      var end, next := idx + |EncPurposes(purposes)|, idx + |Tlv(TAG_OBJECT_ID, p)|;
      assert end == next + |more| <= |buf|;
      hide At;
      TlvReads(buf, end, idx, TAG_OBJECT_ID, p);
      PurposesRead(buf, next, purposes[1..], oid);
      assert purposes == [p] + purposes[1..];
    }
  }

  lemma UsageRead(buf: seq<byte>, idx: nat, e: Ext, oid: seq<byte>)
    requires e.Usage? && At(buf, idx, Rest(e)) && |buf| < 0x1_0000_0000
    ensures idx + |Rest(e)| <= |buf|
    ensures UsageHas(buf, idx + |Rest(e)|, idx, oid) == if oid in e.purposes then Yes else No
  {
    hide HeaderAt, Tlv, EncPurposes, PurposesHave;
    var flag, list := EncFlag(e.critical), Tlv(TAG_SEQUENCE, EncPurposes(e.purposes));
    var end, from := idx + |Rest(e)|, idx + |flag|;
    AtSplits(buf, idx, flag, Tlv(TAG_OCTET_STRING, list));
    assert end <= |buf|;
    hide At;
    if e.critical.Some? {
      TlvReads(buf, end, idx, TAG_BOOLEAN, e.critical.value);
    }
    TlvReads(buf, end, from, TAG_OCTET_STRING, list);
    var at := end - |list|;
    TlvReads(buf, end, at, TAG_SEQUENCE, EncPurposes(e.purposes));
    PurposesRead(buf, end - |EncPurposes(e.purposes)|, e.purposes, oid);
  }

  /** The purposes of the first extended key usage extension. */
  function FirstUsage(es: seq<Ext>): Option<seq<seq<byte>>> {
    if es == [] then None
    else if es[0].Usage? then Some(es[0].purposes)
    else FirstUsage(es[1..])
  }

  function Expected(es: seq<Ext>, oid: seq<byte>): Found {
    if FirstUsage(es).Some? && oid in FirstUsage(es).value then Yes else No
  }

  lemma ExpectedUnfolds(es: seq<Ext>, oid: seq<byte>)
    requires es != []
    ensures Expected(es, oid) ==
            if es[0].Usage? then (if oid in es[0].purposes then Yes else No) else Expected(es[1..], oid)
  {
  }

  lemma ExtensionsSplit(buf: seq<byte>, idx: nat, es: seq<Ext>)
    requires At(buf, idx, EncExts(es)) && es != []
    ensures At(buf, idx, EncExt(es[0])) && At(buf, idx + |EncExt(es[0])|, EncExts(es[1..]))
    ensures |EncExts(es)| == |EncExt(es[0])| + |EncExts(es[1..])| && idx + |EncExts(es)| <= |buf|
  {
    hide EncExt;
    AtSplits(buf, idx, EncExt(es[0]), EncExts(es[1..]));
  }

  /** Only the extended key usage extension goes by its name. */
  predicate Honest(es: seq<Ext>) {
    forall i :: 0 <= i < |es| && es[i].Other? ==> es[i].oid != EXT_KEY_USAGE
  }

  lemma ExtensionsUnfold(buf: seq<byte>, end: nat, idx: nat, oid: seq<byte>)
    requires end <= |buf| && EntryAt(buf, end, idx).Some?
    ensures var e := EntryAt(buf, end, idx).value;
            ExtensionsHave(buf, end, idx, oid) ==
            if e.name == EXT_KEY_USAGE then UsageHas(buf, e.end, e.rest, oid) else ExtensionsHave(buf, end, e.end, oid)
  {
  }

  lemma {:induction false} ExtensionsRead(buf: seq<byte>, idx: nat, es: seq<Ext>, oid: seq<byte>)
    requires At(buf, idx, EncExts(es)) && idx <= |buf| < 0x1_0000_0000 && Honest(es)
    ensures idx + |EncExts(es)| <= |buf|
    ensures ExtensionsHave(buf, idx + |EncExts(es)|, idx, oid) == Expected(es, oid)
    decreases |es|
  {
    hide *;
    if es == [] {
      NoExtensions(buf, idx, es, oid);
    } else {
      var e := es[0];
      HonestParts(es);
      ExtensionsSplit(buf, idx, es);
      ExpectedUnfolds(es, oid);
      var end, next := idx + |EncExts(es)|, idx + |EncExt(e)|;
      EntryReads(buf, end, idx, e);
      ExtensionsUnfold(buf, end, idx, oid);
      if e.Usage? {
        UsageRead(buf, next - |Rest(e)|, e, oid);
      } else {
        ExtensionsRead(buf, next, es[1..], oid);
      }
    }
  }

  lemma NoExtensions(buf: seq<byte>, idx: nat, es: seq<Ext>, oid: seq<byte>)
    requires es == [] && idx <= |buf|
    ensures EncExts(es) == [] && ExtensionsHave(buf, idx, idx, oid) == Expected(es, oid)
  {
  }

  lemma HonestParts(es: seq<Ext>)
    requires Honest(es) && es != []
    ensures Honest(es[1..]) && (OidOf(es[0]) == EXT_KEY_USAGE <==> es[0].Usage?)
  {
  }

  function OidOf(e: Ext): seq<byte> {
    if e.Usage? then EXT_KEY_USAGE else e.oid
  }

  function EncExt(e: Ext): seq<byte> {
    Tlv(TAG_SEQUENCE, Name(e) + Rest(e))
  }

  /** One extension: its sequence, its name, and where the rest of it stands. */
  lemma EntryReads(buf: seq<byte>, end: nat, idx: nat, e: Ext)
    requires At(buf, idx, EncExt(e)) && idx + |EncExt(e)| <= end <= |buf| < 0x1_0000_0000
    ensures var next := idx + |EncExt(e)|;
            && next >= |Rest(e)| && At(buf, next - |Rest(e)|, Rest(e))
            && EntryAt(buf, end, idx) == Some(Entry(OidOf(e), next - |Rest(e)|, next))
  {
    hide HeaderAt, Tlv, Rest, At;
    var body, next := Name(e) + Rest(e), idx + |EncExt(e)|;
    TlvReads(buf, end, idx, TAG_SEQUENCE, body);
    AtSplits(buf, next - |body|, Name(e), Rest(e));
    TlvReads(buf, next, next - |body|, TAG_OBJECT_ID, OidOf(e));
  }

  /** On every encoded extension list, wrapped or not and with or without the
      critical flags, the answer is yes exactly when the first extended key usage
      extension lists the purpose. */
  lemma WalkFindsPurpose(es: seq<Ext>, wrapped: bool, oid: seq<byte>)
    requires |EncList(es, wrapped)| < 0x1_0000_0000 && Honest(es)
    ensures Walk(EncList(es, wrapped), oid) == Expected(es, oid)
  {
    hide HeaderAt, Tlv, EncExts, ExtensionsHave, Expected;
    var buf := EncList(es, wrapped);
    var list := Tlv(TAG_SEQUENCE, EncExts(es));
    assert At(buf, 0, buf);
    if wrapped {
      TlvReads(buf, |buf|, 0, TAG_WRAPPER, list);
    }
    TlvReads(buf, |buf|, |buf| - |list|, TAG_SEQUENCE, EncExts(es));
    ExtensionsRead(buf, |buf| - |EncExts(es)|, es, oid);
  }
}
