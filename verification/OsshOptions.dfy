/**
 * The critical options and extensions of an OpenSSH certificate: OsshNameCmp, and
 * OsshCertCheckOptions against the list of pairs the data spells.
 */
module OsshOptions {
  import opened Bytes
  import opened OsshCert

  // ------------------------------------------------------------- names

  function MemCmp(a: seq<byte>, b: seq<byte>, n: nat): int
    requires n <= |a| && n <= |b|
  {
    if n == 0 then 0
    else if a[0] != b[0] then (a[0] as int) - b[0]
    else MemCmp(a[1..], b[1..], n - 1)
  }

  /** OsshNameCmp */
  function NameCmp(a: seq<byte>, b: seq<byte>): int {
    var c := MemCmp(a, b, Min(|a|, |b|));
    if c != 0 then c else if |a| < |b| then -1 else if |a| > |b| then 1 else 0
  }

  /** Names that share their first octet compare as the rest does. */
  lemma NameCmpTail(a: seq<byte>, b: seq<byte>)
    requires a != [] && b != []
    ensures NameCmp(a, b) == if a[0] != b[0] then (a[0] as int) - b[0] else NameCmp(a[1..], b[1..])
  {
  }

  /** Where two names first differ, if they do before one of them ends. */
  predicate FirstDiffer(a: seq<byte>, b: seq<byte>, k: int) {
    0 <= k < |a| && k < |b| && a[..k] == b[..k] && a[k] != b[k]
  }

  /** The order is the lexicographic one: by the first octet that differs, or the
      shorter first. */
  lemma {:induction false} NameCmpIsLexicographic(a: seq<byte>, b: seq<byte>)
    ensures NameCmp(a, b) < 0 <==> (a < b || exists k :: FirstDiffer(a, b, k) && a[k] < b[k])
    decreases |a|
  {
    if a != [] && b != [] {
      NameCmpTail(a, b);
      if a[0] != b[0] {
        assert FirstDiffer(a, b, 0);
      } else {
        NameCmpIsLexicographic(a[1..], b[1..]);
        assert a == [a[0]] + a[1..] && b == [b[0]] + b[1..];
        DifferLater(a, b);
      }
    }
  }

  lemma DifferLater(a: seq<byte>, b: seq<byte>)
    requires a != [] && b != [] && a[0] == b[0]
    ensures forall k :: FirstDiffer(a, b, k) ==> k > 0 && FirstDiffer(a[1..], b[1..], k - 1)
    ensures forall k :: FirstDiffer(a[1..], b[1..], k) ==> FirstDiffer(a, b, k + 1)
  {
    forall k | FirstDiffer(a, b, k) ensures k > 0 && FirstDiffer(a[1..], b[1..], k - 1) {
      assert a[1..][..k - 1] == a[..k][1..] && b[1..][..k - 1] == b[..k][1..];
    }
    forall k | FirstDiffer(a[1..], b[1..], k) ensures FirstDiffer(a, b, k + 1) {
      assert a[..k + 1] == [a[0]] + a[1..][..k] && b[..k + 1] == [b[0]] + b[1..][..k];
    }
  }

  lemma {:induction false} NameCmpIsAntisymmetric(a: seq<byte>, b: seq<byte>)
    ensures NameCmp(a, b) < 0 <==> NameCmp(b, a) > 0
    ensures NameCmp(a, b) == 0 <==> a == b
    decreases |a|
  {
    if a != [] && b != [] {
      NameCmpTail(a, b);
      NameCmpTail(b, a);
      if a[0] == b[0] {
        NameCmpIsAntisymmetric(a[1..], b[1..]);
        assert a == [a[0]] + a[1..] && b == [b[0]] + b[1..];
      }
    }
  }

  lemma {:induction false} NameCmpIsTransitive(a: seq<byte>, b: seq<byte>, c: seq<byte>)
    requires NameCmp(a, b) < 0 && NameCmp(b, c) < 0
    ensures NameCmp(a, c) < 0
    decreases |a|
  {
    if a != [] {
      assert b != [] && c != [];
      NameCmpTail(a, b);
      NameCmpTail(b, c);
      NameCmpTail(a, c);
      if a[0] == b[0] == c[0] {
        NameCmpIsTransitive(a[1..], b[1..], c[1..]);
      }
    }
  }

  // ------------------------------------------------------------- pairs

  datatype Pair = Pair(name: seq<byte>, data: seq<byte>) {
    predicate Fits() {
      |name| < 0x1_0000_0000 && |data| < 0x1_0000_0000
    }
  }

  function EncPair(p: Pair): seq<byte>
    requires p.Fits()
  {
    Str(p.name) + Str(p.data)
  }

  function EncPairs(ps: seq<Pair>): seq<byte>
    requires forall p <- ps :: p.Fits()
  {
    if ps == [] then [] else EncPair(ps[0]) + EncPairs(ps[1..])
  }

  /** The pairs from a cursor to the end of the buffer, where it is made of pairs. */
  function PairsFrom(buf: seq<byte>, idx: nat): Option<seq<Pair>>
    decreases |buf| - idx
  {
    if idx >= |buf| then Some([])
    else
      var name := GetStringRef(buf, idx);
      if name.Err? then None
      else
        var data := GetStringRef(buf, name.value.idx);
        if data.Err? then None
        else
          NameMoves(buf, idx);
          Led(Pair(name.value.value, data.value.value), PairsFrom(buf, data.value.idx))
  }

  function Led(p: Pair, rest: Option<seq<Pair>>): Option<seq<Pair>> {
    if rest.None? then None else Some([p] + rest.value)
  }

  lemma NameMoves(buf: seq<byte>, idx: nat)
    requires GetStringRef(buf, idx).Ok?
    ensures idx + 4 <= GetStringRef(buf, idx).value.idx <= |buf|
  {
    var r := GetStringRef(buf, idx).value;
    assert |buf[idx..r.idx]| == |Str(r.value)|;
  }

  lemma PairAt(pre: seq<byte>, p: Pair, post: seq<byte>)
    requires p.Fits()
    ensures var buf := pre + (EncPair(p) + post);
            var name := GetStringRef(buf, |pre|);
            && name.Ok? && name.value.value == p.name && |pre| < |buf|
            && GetStringRef(buf, name.value.idx) == Ok(Read(p.data, |pre + EncPair(p)|))
  {
    StringRefAt(pre, p.name, Str(p.data) + post);
    StringRefAt(pre + Str(p.name), p.data, post);
    StrSz(p.name);
    StrSz(p.data);
    hide Str, GetStringRef;
    Assoc(Str(p.name), Str(p.data), post);
    Assoc(pre, Str(p.name), Str(p.data) + post);
    Assoc(pre + Str(p.name), Str(p.data), post);
  }

  /** Exactly the encodings of pairs are read as pairs, as those pairs. */
  lemma {:induction false} PairsReadBack(pre: seq<byte>, ps: seq<Pair>)
    requires forall p <- ps :: p.Fits()
    ensures PairsFrom(pre + EncPairs(ps), |pre|) == Some(ps)
    decreases |ps|
  {
    if ps == [] {
      assert pre + EncPairs(ps) == pre;
    } else {
      var p, rest := ps[0], EncPairs(ps[1..]);
      assert p in ps && forall q <- ps[1..] :: q in ps;
      PairAt(pre, p, rest);
      Assoc(pre, EncPair(p), rest);
      PairsReadBack(pre + EncPair(p), ps[1..]);
      hide GetStringRef, EncPair;
      assert ps == [p] + ps[1..];
    }
  }

  lemma {:induction false} PairsReadTrue(buf: seq<byte>, idx: nat)
    requires idx <= |buf| && PairsFrom(buf, idx).Some?
    ensures var ps := PairsFrom(buf, idx).value;
            (forall p <- ps :: p.Fits()) && buf[idx..] == EncPairs(ps)
    decreases |buf| - idx
  {
    if idx < |buf| {
      var name := GetStringRef(buf, idx).value;
      var data := GetStringRef(buf, name.idx).value;
      NameMoves(buf, idx);
      NameMoves(buf, name.idx);
      PairsReadTrue(buf, data.idx);
      var p, rest := Pair(name.value, data.value), PairsFrom(buf, data.idx).value;
      assert ([p] + rest)[1..] == rest;
      assert buf[idx..] == buf[idx..name.idx] + buf[name.idx..data.idx] + buf[data.idx..];
    }
  }

  // ------------------------------------------------------- the options

  const FORCE_COMMAND := Ascii("force-command")
  const SOURCE_ADDRESS := Ascii("source-address")

  /** An option this library knows, its data one nonempty string and no more. */
  predicate Recognised(p: Pair) {
    && (p.name == FORCE_COMMAND || p.name == SOURCE_ADDRESS)
    && Inner(p.data).Some? && Inner(p.data).value != []
  }

  /** The one string that fills the data. */
  function Inner(data: seq<byte>): Option<seq<byte>> {
    var s := GetStringRef(data, 0);
    if s.Ok? && s.value.idx == |data| then Some(s.value.value) else None
  }

  /** Filling the data is being its encoding. */
  lemma InnerIsEncoding(data: seq<byte>, s: seq<byte>)
    ensures Inner(data) == Some(s) <==> |s| < 0x1_0000_0000 && data == Str(s)
  {
    if |s| < 0x1_0000_0000 && data == Str(s) {
      StringRefAt([], s, []);
      assert [] + Str(s) + [] == data;
    }
    if Inner(data) == Some(s) {
      assert data[0..|data|] == data;
    }
  }

  predicate Ascending(ps: seq<Pair>) {
    forall i :: 0 < i < |ps| ==> NameCmp(ps[i - 1].name, ps[i].name) < 0
  }

  predicate AllRecognised(ps: seq<Pair>) {
    forall i :: 0 <= i < |ps| ==> Recognised(ps[i])
  }

  ghost predicate CriticalOk(ps: seq<Pair>) {
    Ascending(ps) && AllRecognised(ps)
  }

  /** The inner string of the option with a name, empty where there is none. */
  function Extracted(ps: seq<Pair>, name: seq<byte>): seq<byte> {
    if ps == [] then []
    else
      var n := |ps| - 1;
      if ps[n].name == name && Inner(ps[n].data).Some? then Inner(ps[n].data).value
      else Extracted(ps[..n], name)
  }

  /** A certificate's options are ascending strictly, so each name is there once. */
  lemma {:induction false} AscendingApart(ps: seq<Pair>, i: nat, j: nat)
    requires Ascending(ps) && i < j < |ps|
    ensures NameCmp(ps[i].name, ps[j].name) < 0 && ps[i].name != ps[j].name
    decreases j
  {
    if i < j - 1 {
      AscendingApart(ps, i, j - 1);
      NameCmpIsTransitive(ps[i].name, ps[j - 1].name, ps[j].name);
    }
    NameCmpIsAntisymmetric(ps[i].name, ps[j].name);
  }

  /** The data is one string and not an empty one. */
  ghost predicate OneString(data: seq<byte>) {
    exists s :: s != [] && |s| < 0x1_0000_0000 && data == Str(s)
  }

  /** The critical options accepted are force-command and source-address, at most one
      of each and in that order, with one nonempty string for data, and no other. */
  lemma CriticalOkExactly(ps: seq<Pair>)
    ensures CriticalOk(ps) <==>
            && |ps| <= 2
            && (forall i :: 0 <= i < |ps| ==> OneString(ps[i].data))
            && (|ps| == 1 ==> ps[0].name == FORCE_COMMAND || ps[0].name == SOURCE_ADDRESS)
            && (|ps| == 2 ==> ps[0].name == FORCE_COMMAND && ps[1].name == SOURCE_ADDRESS)
  {
    hide NameCmp, Inner, OneString, CriticalOk;
    CriticalOkMeans(ps);
    ForceComesFirst();
    forall i | 0 <= i < |ps|
      ensures Inner(ps[i].data).Some? && Inner(ps[i].data).value != [] <==> OneString(ps[i].data)
    {
      OneStringIsInner(ps[i].data);
    }
    if CriticalOk(ps) && |ps| > 1 {
      AscendingApart(ps, 0, 1);
      if |ps| > 2 {
        AscendingApart(ps, 1, 2);
        AscendingApart(ps, 0, 2);
      }
    }
  }

  lemma CriticalOkMeans(ps: seq<Pair>)
    ensures CriticalOk(ps) <==>
            && (forall i :: 0 < i < |ps| ==> NameCmp(ps[i - 1].name, ps[i].name) < 0)
            && (forall i :: 0 <= i < |ps| ==> Recognised(ps[i]))
  {
  }

  lemma ForceComesFirst()
    ensures FORCE_COMMAND != SOURCE_ADDRESS
    ensures NameCmp(FORCE_COMMAND, SOURCE_ADDRESS) < 0 && NameCmp(SOURCE_ADDRESS, FORCE_COMMAND) > 0
    ensures NameCmp(FORCE_COMMAND, FORCE_COMMAND) == NameCmp(SOURCE_ADDRESS, SOURCE_ADDRESS) == 0
  {
    NameCmpTail(FORCE_COMMAND, SOURCE_ADDRESS);
    NameCmpIsAntisymmetric(FORCE_COMMAND, SOURCE_ADDRESS);
    NameCmpIsAntisymmetric(FORCE_COMMAND, FORCE_COMMAND);
    NameCmpIsAntisymmetric(SOURCE_ADDRESS, SOURCE_ADDRESS);
    hide NameCmp;
  }

  lemma OneStringIsInner(data: seq<byte>)
    ensures Inner(data).Some? && Inner(data).value != [] <==> OneString(data)
  {
    if Inner(data).Some? {
      InnerIsEncoding(data, Inner(data).value);
    }
    if s :| s != [] && |s| < 0x1_0000_0000 && data == Str(s) {
      InnerIsEncoding(data, s);
    }
  }

  /** Where the extracted string comes from, if anywhere. */
  lemma {:induction false} ExtractedFrom(ps: seq<Pair>, name: seq<byte>) returns (at: nat)
    requires AllRecognised(ps)
    ensures at <= |ps| && (at < |ps| <==> Extracted(ps, name) != [])
    ensures at < |ps| ==> ps[at].name == name && Inner(ps[at].data) == Some(Extracted(ps, name))
    ensures at == |ps| ==> forall i :: 0 <= i < |ps| ==> ps[i].name != name
    decreases |ps|
  {
    at := 0;
    if ps != [] {
      var n := |ps| - 1;
      assert Recognised(ps[n]);
      hide Inner, Recognised;
      at := ExtractedFrom(ps[..n], name);
      if ps[n].name == name {
        at := n;
      } else if at == n {
        assert forall i :: 0 <= i < n ==> ps[i] == ps[..n][i];
        at := n + 1;
      }
    }
  }

  /** What is extracted is the one option of that name: something is extracted
      exactly when there is one, and then it is the string that is its data. */
  lemma ExtractedIsUnique(ps: seq<Pair>, name: seq<byte>)
    requires CriticalOk(ps)
    ensures Extracted(ps, name) != [] <==> exists i :: 0 <= i < |ps| && ps[i].name == name
    ensures forall i :: 0 <= i < |ps| && ps[i].name == name ==>
              && |Extracted(ps, name)| < 0x1_0000_0000 && ps[i].data == Str(Extracted(ps, name))
              && forall j :: 0 <= j < |ps| && ps[j].name == name ==> j == i
  {
    var at := ExtractedFrom(ps, name);
    forall j | 0 <= j < |ps| && ps[j].name == name ensures j == at {
      if j < at {
        AscendingApart(ps, j, at);
      } else if at < j {
        AscendingApart(ps, at, j);
      }
    }
    if at < |ps| {
      InnerIsEncoding(ps[at].data, Extracted(ps, name));
    }
    hide Extracted, Inner, Ascending, Recognised, Str;
  }

  /** The option fields of WS_OsshCert. */
  class Options {
    var critOpts: seq<byte>
    var extensions: seq<byte>
    var forceCommand: seq<byte>      // empty where the pointer is NULL
    var sourceAddress: seq<byte>

    constructor (critOpts: seq<byte>, extensions: seq<byte>)
      ensures this.critOpts == critOpts && this.extensions == extensions
    {
      this.critOpts, this.extensions := critOpts, extensions;
      forceCommand, sourceAddress := [], [];
    }

    /** What has been read so far, and what is still to come. */
    ghost predicate Progress(got: seq<Pair>, idx: nat)
      reads `critOpts, `forceCommand, `sourceAddress
    {
      && CriticalOk(got)
      && PairsFrom(critOpts, 0) == Behind(got, PairsFrom(critOpts, idx))
      && forceCommand == Extracted(got, FORCE_COMMAND)
      && sourceAddress == Extracted(got, SOURCE_ADDRESS)
    }

    /** The option's own string goes where its name says. */
    method Extract(name: seq<byte>, data: seq<byte>) returns (ok: bool)
      modifies `forceCommand, `sourceAddress
      ensures ok <==> Recognised(Pair(name, data))
      ensures ok ==>
              && forceCommand == (if name == FORCE_COMMAND then Inner(data).value else old(forceCommand))
              && sourceAddress == (if name == SOURCE_ADDRESS then Inner(data).value else old(sourceAddress))
    {
      assert |FORCE_COMMAND| != |SOURCE_ADDRESS|;
      var di := 0;
      if name == FORCE_COMMAND {
        var s := GetStringRef(data, di);
        if s.Err? || s.value.value == [] {
          return false;
        }
        forceCommand, di := s.value.value, s.value.idx;
      } else if name == SOURCE_ADDRESS {
        var s := GetStringRef(data, di);
        if s.Err? || s.value.value == [] {
          return false;
        }
        sourceAddress, di := s.value.value, s.value.idx;
      } else {
        return false;
      }
      ok := di == |data|;
    }

    /** The loop over the critical options. */
    method CheckCritical() returns (ok: bool)
      modifies `forceCommand, `sourceAddress
      ensures ok <==> PairsFrom(critOpts, 0).Some? && CriticalOk(PairsFrom(critOpts, 0).value)
      ensures ok ==> var ps := PairsFrom(critOpts, 0).value;
              forceCommand == Extracted(ps, FORCE_COMMAND) && sourceAddress == Extracted(ps, SOURCE_ADDRESS)
    {
      forceCommand, sourceAddress := [], [];
      ghost var got: seq<Pair> := [];
      var idx := 0;
      var prevName: seq<byte> := [];
      BehindNothing(PairsFrom(critOpts, 0));
      while idx < |critOpts|
        invariant Progress(got, idx)
        invariant if got == [] then prevName == [] else prevName == got[|got| - 1].name
        decreases |critOpts| - idx
      {
        var name := GetStringRef(critOpts, idx);
        if name.Err? {
          return false;
        }
        NameMoves(critOpts, idx);
        if prevName != [] && NameCmp(prevName, name.value.value) >= 0 {
          OutOfOrder(critOpts, got, idx);
          return false;
        }
        var data := GetStringRef(critOpts, name.value.idx);
        if data.Err? {
          return false;
        }
        NameMoves(critOpts, name.value.idx);
        ghost var p := Pair(name.value.value, data.value.value);
        ok := Extract(name.value.value, data.value.value);
        if !ok {
          Unrecognised(critOpts, got, idx);
          return;
        }
        BehindSnoc(got, p, PairsFrom(critOpts, data.value.idx));
        Grows(got, p);
        ExtractedGrows(got, p, FORCE_COMMAND);
        ExtractedGrows(got, p, SOURCE_ADDRESS);
        got := got + [p];
        prevName, idx := name.value.value, data.value.idx;
      }
      assert got + [] == got;
      ok := true;
    }

    /** The loop over the extensions: any names, in any order, but well formed. */
    method CheckExtensions() returns (ok: bool)
      ensures ok <==> PairsFrom(extensions, 0).Some?
    {
      var idx := 0;
      while idx < |extensions|
        invariant PairsFrom(extensions, 0).Some? <==> PairsFrom(extensions, idx).Some?
        decreases |extensions| - idx
      {
        var name := GetStringRef(extensions, idx);
        if name.Err? {
          return false;
        }
        NameMoves(extensions, idx);
        var data := GetStringRef(extensions, name.value.idx);
        if data.Err? {
          return false;
        }
        NameMoves(extensions, name.value.idx);
        idx := data.value.idx;
      }
      ok := true;
    }

    /** OsshCertCheckOptions: accepted are exactly the certificates whose critical
        options are an ascending list of recognised pairs and whose extensions are
        a list of pairs; each option's string is then the one there is. */
    method Check() returns (ok: bool)
      modifies `forceCommand, `sourceAddress
      ensures ok <==> && (exists ps :: CriticalOk(ps) && Spells(critOpts, ps))
                      && (exists es :: Spells(extensions, es))
      ensures ok ==> forall ps :: CriticalOk(ps) && Spells(critOpts, ps) ==>
              && forceCommand == Extracted(ps, FORCE_COMMAND) && sourceAddress == Extracted(ps, SOURCE_ADDRESS)
    {
      SpellsIsRead(critOpts);
      SpellsIsRead(extensions);
      hide Spells, PairsFrom, CriticalOk, Extracted;
      ok := CheckCritical();
      if ok {
        ok := CheckExtensions();
      }
    }
  }

  /** The data is the list of pairs, in its encoding. */
  ghost predicate Spells(data: seq<byte>, ps: seq<Pair>) {
    (forall p <- ps :: p.Fits()) && data == EncPairs(ps)
  }

  lemma SpellsIsRead(data: seq<byte>)
    ensures forall ps :: Spells(data, ps) <==> PairsFrom(data, 0) == Some(ps)
  {
    forall ps ensures Spells(data, ps) <==> PairsFrom(data, 0) == Some(ps) {
      if Spells(data, ps) {
        PairsReadBack([], ps);
        assert [] + EncPairs(ps) == data;
      }
      if PairsFrom(data, 0).Some? {
        PairsReadTrue(data, 0);
        assert data[0..] == data;
      }
    }
  }

  lemma OutOfOrder(buf: seq<byte>, got: seq<Pair>, idx: nat)
    requires got != [] && idx < |buf| && GetStringRef(buf, idx).Ok?
    requires PairsFrom(buf, 0) == Behind(got, PairsFrom(buf, idx))
    requires NameCmp(got[|got| - 1].name, GetStringRef(buf, idx).value.value) >= 0
    ensures PairsFrom(buf, 0).Some? ==> !CriticalOk(PairsFrom(buf, 0).value)
  {
    hide NameCmp, GetStringRef;
    if PairsFrom(buf, 0).Some? {
      var ps := PairsFrom(buf, 0).value;
      assert ps[|got| - 1] == got[|got| - 1];
      assert ps[|got|].name == GetStringRef(buf, idx).value.value;
    }
  }

  lemma Unrecognised(buf: seq<byte>, got: seq<Pair>, idx: nat)
    requires idx < |buf| && GetStringRef(buf, idx).Ok?
    requires GetStringRef(buf, GetStringRef(buf, idx).value.idx).Ok?
    requires PairsFrom(buf, 0) == Behind(got, PairsFrom(buf, idx))
    requires var n := GetStringRef(buf, idx).value; !Recognised(Pair(n.value, GetStringRef(buf, n.idx).value.value))
    ensures PairsFrom(buf, 0).Some? ==> !CriticalOk(PairsFrom(buf, 0).value)
  {
    hide Recognised, GetStringRef;
    if PairsFrom(buf, 0).Some? {
      var ps := PairsFrom(buf, 0).value;
      assert ps[|got|] in ps;
    }
  }

  lemma Grows(got: seq<Pair>, p: Pair)
    requires CriticalOk(got) && Recognised(p)
    requires got != [] ==> NameCmp(got[|got| - 1].name, p.name) < 0
    ensures CriticalOk(got + [p])
  {
    hide NameCmp, Recognised;
  }

  lemma ExtractedGrows(got: seq<Pair>, p: Pair, name: seq<byte>)
    requires Recognised(p)
    ensures Extracted(got + [p], name) == if p.name == name then Inner(p.data).value else Extracted(got, name)
  {
    hide Inner;
    assert (got + [p])[..|got|] == got;
  }

  /** Pairs read, with those still to come behind them. */
  ghost function Behind(got: seq<Pair>, rest: Option<seq<Pair>>): Option<seq<Pair>> {
    if rest.None? then None else Some(got + rest.value)
  }

  lemma BehindSnoc(got: seq<Pair>, p: Pair, rest: Option<seq<Pair>>)
    ensures Behind(got, Led(p, rest)) == Behind(got + [p], rest)
  {
    if rest.Some? {
      Assoc(got, [p], rest.value);
    }
  }

  lemma BehindNothing(rest: Option<seq<Pair>>)
    ensures Behind([], rest) == rest
  {
    if rest.Some? {
      assert [] + rest.value == rest.value;
    }
  }
}
