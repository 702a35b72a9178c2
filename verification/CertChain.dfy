/**
 * wolfSSH_CERTMAN_VerifyCerts_buffer: a peer's chain is verified from the top down
 * against the manager's signers, to which a CA of the chain is added when the
 * certificate below it has no signer without it.
 */
module CertChain {
  import opened Bytes
  import DerWalk

  type Cert = seq<byte>

  const MAX_CHAIN_DEPTH := 9

  datatype Raw = Verified | NoSigner | AfterDate | SigConfirm | RawOther

  datatype Ocsp = NotRevoked | NeedUrl | Revoked | OcspOther

  datatype Ret =
    | Success | BadArgument | Malformed
    | CertNoSigner | CertExpired | CertSigConfirm | CertRevoked | CertProfile | CertKeyUsage | CertOther

  datatype Side = Server | Client | Any

  datatype KeyUsage = KeyUsage(digitalSig: bool, keyCertSign: bool)

  datatype ExtKeyUsage = ExtKeyUsage(any: bool, clientAuth: bool, serverAuth: bool)

  datatype Decoded =
    Decoded(isCA: bool, keyUsage: Option<KeyUsage>, extKeyUsage: Option<ExtKeyUsage>, extensions: seq<byte>)

  /** What the certificate library says: of a certificate against a set of signers,
      whether it takes a certificate as a further signer, has that signer already,
      and can mark it as a chain CA; of a certificate's revocation, of who issued it,
      of what it holds, and whether it fits a profile; and who has signed whom. */
  datatype Lib = Lib(
    verify: (seq<Cert>, Cert) -> Raw,
    loads: (seq<Cert>, Cert) -> bool,
    has: (seq<Cert>, Cert) -> bool,
    tags: (seq<Cert>, Cert) -> bool,
    ocsp: Cert -> Ocsp,
    isIssuer: (Cert, Cert) -> bool,
    decode: Cert -> Option<Decoded>,
    fitsProfile: Cert -> bool,
    signs: (Cert, Cert) -> bool)

  /** CertManIntermediateIsCA */
  predicate IsCa(lib: Lib, cert: Cert) {
    var d := lib.decode(cert);
    d.Some? && d.value.isCA && (d.value.keyUsage.Some? ==> d.value.keyUsage.value.keyCertSign)
  }

  // ------------------------------------------------------------- the leaf

  const SECURE_SHELL_CLIENT: seq<byte> := [0x2B, 0x06, 0x01, 0x05, 0x05, 0x07, 0x03, 0x15]
  const SECURE_SHELL_SERVER: seq<byte> := [0x2B, 0x06, 0x01, 0x05, 0x05, 0x07, 0x03, 0x16]

  predicate HasUserAuthEku(d: Decoded)
    requires d.extKeyUsage.Some?
  {
    d.extKeyUsage.value.clientAuth || DerWalk.Walk(d.extensions, SECURE_SHELL_CLIENT).Yes?
  }

  predicate HasHostAuthEku(d: Decoded)
    requires d.extKeyUsage.Some?
  {
    d.extKeyUsage.value.serverAuth || DerWalk.Walk(d.extensions, SECURE_SHELL_SERVER).Yes?
  }

  /** CertManCheckLeafUsage */
  function CheckLeafUsage(d: Decoded, side: Side): Ret {
    if d.keyUsage.Some? && !d.keyUsage.value.digitalSig then CertKeyUsage
    else if d.extKeyUsage.None? || d.extKeyUsage.value.any then Success
    else if side.Server? then (if HasUserAuthEku(d) then Success else CertKeyUsage)
    else if side.Client? then (if HasHostAuthEku(d) then Success else CertKeyUsage)
    else if HasUserAuthEku(d) || HasHostAuthEku(d) then Success
    else CertKeyUsage
  }

  /** What the leaf's usages must be, where its extensions are properly encoded: a
      key usage allows signing, and an extended one allows any purpose, or a TLS or
      SSH one of the peer's role, an SSH one being named by the first such
      extension; a manager without a side takes either role. */
  lemma LeafUsageExactly(d: Decoded, es: seq<DerWalk.Ext>, wrapped: bool, side: Side)
    requires d.extensions == DerWalk.EncList(es, wrapped) && |d.extensions| < 0x1_0000_0000 && DerWalk.Honest(es)
    ensures var named := if DerWalk.FirstUsage(es).Some? then DerWalk.FirstUsage(es).value else [];
            CheckLeafUsage(d, side) == Success <==>
            && (d.keyUsage.None? || d.keyUsage.value.digitalSig)
            && (d.extKeyUsage.None? || d.extKeyUsage.value.any
                || (!side.Client? && (d.extKeyUsage.value.clientAuth || SECURE_SHELL_CLIENT in named))
                || (!side.Server? && (d.extKeyUsage.value.serverAuth || SECURE_SHELL_SERVER in named)))
  {
    hide DerWalk.Walk, DerWalk.EncList, DerWalk.Honest;
    DerWalk.WalkFindsPurpose(es, wrapped, SECURE_SHELL_CLIENT);
    DerWalk.WalkFindsPurpose(es, wrapped, SECURE_SHELL_SERVER);
  }

  // ------------------------------------------------------------ the blob

  /** n length-prefixed certificates from a cursor on. */
  function Split(blob: seq<byte>, idx: nat, n: nat): Option<seq<Cert>>
    decreases n
  {
    if n == 0 then Some([])
    else
      var c := GetStringRef(blob, idx);
      if c.Err? then None
      else
        var more := Split(blob, c.value.idx, n - 1);
        if more.None? then None else Some([c.value.value] + more.value)
  }

  function EncChain(chain: seq<Cert>): seq<byte>
    requires forall c <- chain :: |c| < 0x1_0000_0000
  {
    if chain == [] then [] else Str(chain[0]) + EncChain(chain[1..])
  }

  /** A chain laid out in a buffer is found there again, whatever follows it. */
  lemma {:induction false} SplitReads(pre: seq<byte>, chain: seq<Cert>, post: seq<byte>)
    requires forall c <- chain :: |c| < 0x1_0000_0000
    ensures Split(pre + (EncChain(chain) + post), |pre|, |chain|) == Some(chain)
    decreases |chain|
  {
    hide Str, GetStringRef;
    if chain != [] {
      var c, more := chain[0], EncChain(chain[1..]);
      assert c in chain && forall x <- chain[1..] :: x in chain;
      Assoc(Str(c), more, post);
      Assoc(pre, Str(c), more + post);
      StringRefAt(pre, c, more + post);
      StrSz(c);
      SplitReads(pre + Str(c), chain[1..], post);
      assert chain == [c] + chain[1..];
    }
  }

  // ----------------------------------------------------------- the store

  /** A trusted signer, and whether it was configured as one. */
  datatype Signer = Signer(cert: Cert, root: bool)

  function Certs(signers: seq<Signer>): (r: seq<Cert>)
    ensures |r| == |signers| && forall i :: 0 <= i < |r| ==> r[i] == signers[i].cert
  {
    seq(|signers|, i requires 0 <= i < |signers| => signers[i].cert)
  }

  /** Verified against the signers that were there before a place in the store. */
  predicate VerifiedBy(lib: Lib, signers: seq<Signer>, k: nat, cert: Cert) {
    k <= |signers| && lib.verify(Certs(signers[..k]), cert) == Verified
  }

  /** Every signer is a configured root, or a CA that was itself verified against
      signers already there. */
  ghost predicate Trusted(lib: Lib, signers: seq<Signer>) {
    forall i :: 0 <= i < |signers| ==>
      signers[i].root || (IsCa(lib, signers[i].cert) && VerifiedBy(lib, signers, i, signers[i].cert))
  }

  /** The library accepts nothing without a signature of one of the signers. */
  ghost predicate NeedsSigner(lib: Lib) {
    forall signers: seq<Cert>, cert: Cert ::
      lib.verify(signers, cert) == Verified ==> exists i :: 0 <= i < |signers| && lib.signs(signers[i], cert)
  }

  /** A way down from a configured root, each CA signing the next. */
  ghost predicate LeadsToRoot(lib: Lib, signers: seq<Signer>, path: seq<nat>) {
    && path != [] && (forall k :: 0 <= k < |path| ==> path[k] < |signers|)
    && signers[path[|path| - 1]].root
    && (forall k :: 0 < k < |path| ==> lib.signs(signers[path[k]].cert, signers[path[k - 1]].cert))
    && (forall k :: 0 <= k < |path| - 1 ==> IsCa(lib, signers[path[k]].cert))
  }

  /** Every signer the manager has come to trust hangs from a configured root by
      signatures of CAs. */
  lemma {:induction false} EverySignerIsRooted(lib: Lib, signers: seq<Signer>, i: nat) returns (path: seq<nat>)
    requires Trusted(lib, signers) && NeedsSigner(lib) && i < |signers|
    ensures LeadsToRoot(lib, signers, path) && path[0] == i
    decreases i
  {
    hide NeedsSigner, IsCa, VerifiedBy;
    if signers[i].root {
      path := [i];
    } else {
      var j := SignedBefore(lib, signers, i, signers[i].cert);
      var rest := EverySignerIsRooted(lib, signers, j);
      path := [i] + rest;
    }
  }

  /** The signer that vouches for a verified certificate was there before it. */
  lemma SignedBefore(lib: Lib, signers: seq<Signer>, k: nat, cert: Cert) returns (j: nat)
    requires NeedsSigner(lib) && VerifiedBy(lib, signers, k, cert)
    ensures j < k <= |signers| && lib.signs(signers[j].cert, cert)
  {
    j :| 0 <= j < k && lib.signs(Certs(signers[..k])[j], cert);
  }

  /** And so does every certificate verified against the store. */
  lemma VerifiedIsRooted(lib: Lib, signers: seq<Signer>, k: nat, cert: Cert) returns (path: seq<nat>)
    requires Trusted(lib, signers) && NeedsSigner(lib) && VerifiedBy(lib, signers, k, cert)
    ensures LeadsToRoot(lib, signers, path) && lib.signs(signers[path[0]].cert, cert)
  {
    hide NeedsSigner, IsCa, VerifiedBy, Trusted;
    var j := SignedBefore(lib, signers, k, cert);
    path := EverySignerIsRooted(lib, signers, j);
  }

  /** Verified against the signers of some moment. */
  ghost predicate Vouched(lib: Lib, signers: seq<Signer>, cert: Cert) {
    exists k: nat :: VerifiedBy(lib, signers, k, cert)
  }

  /** What has been verified stays so as signers are added. */
  lemma VerifiedStays(lib: Lib, signers: seq<Signer>, more: seq<Signer>)
    requires signers <= more
    ensures forall k: nat, cert :: VerifiedBy(lib, signers, k, cert) ==> VerifiedBy(lib, more, k, cert)
    ensures forall cert :: Vouched(lib, signers, cert) ==> Vouched(lib, more, cert)
  {
    forall k: nat, cert | VerifiedBy(lib, signers, k, cert)
      ensures VerifiedBy(lib, more, k, cert)
    {
      assert signers[..k] == more[..k];
    }
  }

  /** What a chain must be to be accepted, with the signers it was checked by. */
  ghost predicate Accepted(lib: Lib, side: Side, signers: seq<Signer>, chain: seq<Cert>) {
    && chain != []
    && (forall i :: 0 <= i < |chain| ==>
          && Vouched(lib, signers, chain[i])
          && (lib.ocsp(chain[i]) == NotRevoked || lib.ocsp(chain[i]) == NeedUrl))
    && (forall i :: 0 < i < |chain| ==> IsCa(lib, chain[i]))
    && LeafOk(lib, side, chain[0])
  }

  /** The store with a signer loaded, unless it is there already. */
  function Loaded(lib: Lib, signers: seq<Signer>, cert: Cert, root: bool): seq<Signer> {
    if lib.loads(Certs(signers), cert) && !lib.has(Certs(signers), cert) then signers + [Signer(cert, root)]
    else signers
  }

  /** A certificate is in need of the one above it, which has issued it. */
  predicate AsksAbove(lib: Lib, signers: seq<Signer>, chain: seq<Cert>, i: nat)
    requires i < |chain|
  {
    && lib.verify(Certs(signers), chain[i]) == NoSigner
    && i + 1 < |chain| && lib.isIssuer(chain[i + 1], chain[i])
  }

  /** The store behind the pass of a chain's certificate from which on all passed. */
  function Store(lib: Lib, signers: seq<Signer>, chain: seq<Cert>, from: nat): seq<Signer>
    decreases |chain| - from
  {
    if from >= |chain| then signers
    else
      var t := Store(lib, signers, chain, from + 1);
      if AsksAbove(lib, t, chain, from) then Loaded(lib, t, chain[from + 1], false) else t
  }

  /** A certificate verifies, or does with the one above it loaded and marked. */
  predicate Verifies(lib: Lib, signers: seq<Signer>, chain: seq<Cert>, i: nat)
    requires i < |chain|
  {
    || lib.verify(Certs(signers), chain[i]) == Verified
    || (&& AsksAbove(lib, signers, chain, i)
        && lib.loads(Certs(signers), chain[i + 1])
        && var more := Certs(Loaded(lib, signers, chain[i + 1], false));
           lib.verify(more, chain[i]) == Verified && lib.tags(more, chain[i + 1]))
  }

  /** A certificate is good against the store it is checked in: it verifies, is not
      known to be revoked, and above the leaf it is a CA. */
  predicate Passes(lib: Lib, signers: seq<Signer>, chain: seq<Cert>, i: nat)
    requires i < |chain|
  {
    && Verifies(lib, signers, chain, i)
    && (lib.ocsp(chain[i]) == NotRevoked || lib.ocsp(chain[i]) == NeedUrl)
    && (i > 0 ==> IsCa(lib, chain[i]))
  }

  /** Every certificate of the chain from one on passes. */
  predicate AllPass(lib: Lib, signers: seq<Signer>, chain: seq<Cert>, from: nat) {
    forall i :: from <= i < |chain| ==> PassesAt(lib, signers, chain, i)
  }

  /** In the store as the certificates above leave it. */
  predicate PassesAt(lib: Lib, signers: seq<Signer>, chain: seq<Cert>, i: nat)
    requires i < |chain|
  {
    Passes(lib, Store(lib, signers, chain, i + 1), chain, i)
  }

  lemma StoreUnfolds(lib: Lib, signers: seq<Signer>, chain: seq<Cert>, i: nat)
    requires i < |chain|
    ensures var t := Store(lib, signers, chain, i + 1);
            && Store(lib, signers, chain, i) ==
               (if AsksAbove(lib, t, chain, i) then Loaded(lib, t, chain[i + 1], false) else t)
            && (AllPass(lib, signers, chain, i) <==>
                  Passes(lib, t, chain, i) && AllPass(lib, signers, chain, i + 1))
  {
    hide Passes, AsksAbove, Loaded;
    assert PassesAt(lib, signers, chain, i) == Passes(lib, Store(lib, signers, chain, i + 1), chain, i);
  }

  lemma StoreBegins(lib: Lib, signers: seq<Signer>, chain: seq<Cert>)
    ensures Store(lib, signers, chain, |chain|) == signers && AllPass(lib, signers, chain, |chain|)
  {
  }

  lemma AllPassAll(lib: Lib, signers: seq<Signer>, chain: seq<Cert>, i: nat)
    requires i <= |chain|
    ensures AllPass(lib, signers, chain, 0) ==> AllPass(lib, signers, chain, i)
  {
  }

  /** A chain that needs no signer but those there. */
  ghost predicate Plain(lib: Lib, signers: seq<Signer>, chain: seq<Cert>) {
    forall i :: 0 <= i < |chain| ==>
      && lib.verify(Certs(signers), chain[i]) == Verified
      && (lib.ocsp(chain[i]) == NotRevoked || lib.ocsp(chain[i]) == NeedUrl)
      && (i > 0 ==> IsCa(lib, chain[i]))
  }

  /** Such a chain passes and adds no signer. */
  lemma {:induction false} PlainPasses(lib: Lib, signers: seq<Signer>, chain: seq<Cert>, from: nat)
    requires Plain(lib, signers, chain) && from <= |chain|
    ensures AllPass(lib, signers, chain, from) && Store(lib, signers, chain, from) == signers
    decreases |chain| - from
  {
    if from < |chain| {
      PlainPasses(lib, signers, chain, from + 1);
    }
  }

  // --------------------------------------------- what is to be accepted

  /** Its contents say that a certificate may sign others: it is a CA, and where it
      limits its key usage that allows it. */
  predicate MaySign(d: Decoded) {
    d.isCA && (d.keyUsage == None || exists digitalSig :: d.keyUsage == Some(KeyUsage(digitalSig, true)))
  }

  /** What the store has gained is such certificates, each of which verified against
      the signers before it. */
  lemma GainedMaySign(lib: Lib, signers: seq<Signer>, i: nat)
    requires Trusted(lib, signers) && i < |signers| && !signers[i].root
    ensures var d := lib.decode(signers[i].cert); d.Some? && MaySign(d.value)
    ensures lib.verify(Certs(signers[..i]), signers[i].cert) == Verified
  {
    var u := lib.decode(signers[i].cert).value.keyUsage;
    assert u.Some? ==> u == Some(KeyUsage(u.value.digitalSig, true));
  }

  /** A library that goes by signatures alone and refuses nothing. */
  ghost predicate BySignatures(lib: Lib) {
    && (forall signers: seq<Cert>, cert ::
          lib.verify(signers, cert) == if exists s <- signers :: lib.signs(s, cert) then Verified else NoSigner)
    && (forall signers: seq<Cert>, cert :: lib.loads(signers, cert) && lib.tags(signers, cert))
    && (forall signers: seq<Cert>, cert :: lib.has(signers, cert) <==> cert in signers)
    && (forall cert, child :: lib.isIssuer(cert, child) == lib.signs(cert, child))
  }

  /** Each certificate is signed by the one above it, and the top by a signer. */
  ghost predicate Linked(lib: Lib, signers: seq<Signer>, chain: seq<Cert>) {
    && chain != [] && (exists s <- Certs(signers) :: lib.signs(s, chain[|chain| - 1]))
    && (forall i :: 0 <= i < |chain| - 1 ==> lib.signs(chain[i + 1], chain[i]))
    && (forall i :: 0 < i < |chain| ==> var d := lib.decode(chain[i]); d.Some? && MaySign(d.value))
    && (forall i :: 0 <= i < |chain| ==> lib.ocsp(chain[i]) == NotRevoked || lib.ocsp(chain[i]) == NeedUrl)
  }

  /** Every chain of CAs down from a signer passes, whatever of it the store knows. */
  lemma {:induction false} LinkedPasses(lib: Lib, signers: seq<Signer>, chain: seq<Cert>, from: nat)
    requires BySignatures(lib) && Linked(lib, signers, chain) && from <= |chain|
    ensures AllPass(lib, signers, chain, from) && signers <= Store(lib, signers, chain, from)
    decreases |chain| - from
  {
    if from < |chain| {
      LinkedPasses(lib, signers, chain, from + 1);
      LinkPasses(lib, signers, Store(lib, signers, chain, from + 1), chain, from);
    }
  }

  lemma LinkPasses(lib: Lib, signers: seq<Signer>, t: seq<Signer>, chain: seq<Cert>, i: nat)
    requires BySignatures(lib) && Linked(lib, signers, chain) && i < |chain| && signers <= t
    ensures Passes(lib, t, chain, i) && t <= Loaded(lib, t, chain[i], false)
  {
    var top := chain[|chain| - 1];
    var s :| s in Certs(signers) && lib.signs(s, top);
    var k :| 0 <= k < |signers| && Certs(signers)[k] == s;
    assert Certs(t)[k] == s;
    if !exists s <- Certs(t) :: lib.signs(s, chain[i]) {
      assert Certs(Loaded(lib, t, chain[i + 1], false))[|t|] == chain[i + 1];
    }
  }

  ghost predicate LeafOk(lib: Lib, side: Side, leaf: Cert) {
    var d := lib.decode(leaf);
    d.Some? && !d.value.isCA && CheckLeafUsage(d.value, side) == Success && lib.fitsProfile(leaf)
  }

  class Manager {
    const lib: Lib
    var side: Side
    var signers: seq<Signer>

    ghost predicate Valid()
      reads this
    {
      Trusted(lib, signers)
    }

    constructor (lib: Lib)
      ensures Valid() && this.lib == lib && signers == [] && side == Any
    {
      this.lib, side, signers := lib, Any, [];
    }

    /** wolfSSH_CERTMAN_LoadRootCA_buffer: the library may refuse the certificate, or
        have that signer already. */
    method LoadCa(cert: Cert, root: bool) returns (ok: bool)
      requires Valid() && (root || (IsCa(lib, cert) && lib.verify(Certs(signers), cert) == Verified))
      modifies `signers
      ensures Valid() && old(signers) <= signers && ok == lib.loads(Certs(old(signers)), cert)
      ensures ok ==> Signer(cert, root) in signers || lib.has(Certs(old(signers)), cert)
      ensures signers == Loaded(lib, old(signers), cert, root)
    {
      ok := lib.loads(Certs(signers), cert);
      if ok && !lib.has(Certs(signers), cert) {
        assert signers[..|signers|] == signers;
        VerifiedStays(lib, signers, signers + [Signer(cert, root)]);
        signers := signers + [Signer(cert, root)];
        assert signers[..|signers| - 1] == old(signers);
      }
    }

    /** CertManVerifyOne */
    method VerifyOne(cert: Cert) returns (ret: Ret, raw: Raw)
      ensures raw == lib.verify(Certs(signers), cert)
      ensures (ret == Success <==> raw == Verified) && (ret == CertNoSigner <==> raw == NoSigner)
      ensures (ret == CertExpired <==> raw == AfterDate) && (ret == CertSigConfirm <==> raw == SigConfirm)
      ensures ret != CertRevoked && (raw == RawOther ==> ret == CertOther)
    {
      raw := lib.verify(Certs(signers), cert);
      ret := match raw
        case Verified => Success
        case NoSigner => CertNoSigner
        case AfterDate => CertExpired
        case SigConfirm => CertSigConfirm
        case RawOther => CertOther;
    }

    /** CertManPromote: only a verified CA that issued the child is loaded; success is
        for a child that verifies with it, once it is marked as a chain CA. */
    method Promote(cert: Cert, child: Cert) returns (ret: Ret)
      requires Valid() && IsCa(lib, cert) && lib.verify(Certs(signers), cert) == Verified
      modifies `signers
      ensures Valid() && old(signers) <= signers
      ensures signers == if lib.isIssuer(cert, child) then Loaded(lib, old(signers), cert, false) else old(signers)
      ensures ret == Success <==>
              && lib.isIssuer(cert, child) && lib.loads(Certs(old(signers)), cert)
              && lib.verify(Certs(signers), child) == Verified && lib.tags(Certs(signers), cert)
      ensures var above, raw := Certs(old(signers)), lib.verify(Certs(signers), child);
              ret == if !lib.isIssuer(cert, child) then CertNoSigner
                     else if !lib.loads(above, cert) then CertOther
                     else match raw
                       case Verified => if lib.tags(Certs(signers), cert) then Success else CertOther
                       case SigConfirm => if lib.tags(Certs(signers), cert) then CertSigConfirm else CertOther
                       case NoSigner => CertNoSigner
                       case AfterDate => CertExpired
                       case RawOther => CertOther
    {
      if !lib.isIssuer(cert, child) {
        return CertNoSigner;
      }
      var ok := LoadCa(cert, false);
      if !ok {
        return CertOther;
      }
      var raw;
      ret, raw := VerifyOne(child);
      if (raw == Verified || raw == SigConfirm) && !lib.tags(Certs(signers), cert) {
        ret := CertOther;
      }
    }

    /** What the loop has established of the certificates from one on. */
    ghost predicate Checked(chain: seq<Cert>, from: nat)
      reads this
    {
      && Valid() && from <= |chain|
      && (forall i :: from <= i < |chain| ==>
            && Vouched(lib, signers, chain[i])
            && (lib.ocsp(chain[i]) == NotRevoked || lib.ocsp(chain[i]) == NeedUrl)
            && (i > 0 ==> IsCa(lib, chain[i])))
      && (from < |chain| ==> lib.verify(Certs(signers), chain[from]) == Verified)
    }

    /** One pass of the loop over the chain. */
    method CheckCert(chain: seq<Cert>, certIdx: nat) returns (ret: Ret)
      requires certIdx < |chain| && Checked(chain, certIdx + 1)
      modifies `signers
      ensures Valid() && old(signers) <= signers && (ret == Success ==> Checked(chain, certIdx))
      ensures signers == if AsksAbove(lib, old(signers), chain, certIdx)
                         then Loaded(lib, old(signers), chain[certIdx + 1], false) else old(signers)
      ensures signers == old(signers)
              || (certIdx + 1 < |chain| && signers == old(signers) + [Signer(chain[certIdx + 1], false)]
                  && lib.isIssuer(chain[certIdx + 1], chain[certIdx])
                  && lib.verify(Certs(old(signers)), chain[certIdx]) == NoSigner)
      ensures ret == Success <==> Passes(lib, old(signers), chain, certIdx)
      ensures ret == CertRevoked <==> Verifies(lib, old(signers), chain, certIdx) && lib.ocsp(chain[certIdx]) == Revoked
      ensures ret == CertExpired ==> lib.verify(Certs(signers), chain[certIdx]) == AfterDate
      ensures Verifies(lib, old(signers), chain, certIdx) && ret != Success ==>
              match lib.ocsp(chain[certIdx])
              case Revoked => ret == CertRevoked
              case OcspOther => ret == CertOther
              case _ => ret == CertNoSigner && !IsCa(lib, chain[certIdx])
    {
      var cert := chain[certIdx];
      var raw;
      ret, raw := VerifyOne(cert);
      if ret == CertNoSigner && certIdx + 1 < |chain| {
        ret := Promote(chain[certIdx + 1], cert);
      }
      VerifiedStays(lib, old(signers), signers);
      if ret == Success {
        assert signers[..|signers|] == signers;
        assert VerifiedBy(lib, signers, |signers|, cert);
        var o := lib.ocsp(cert);
        ret := if o == NotRevoked || o == NeedUrl then Success else if o == Revoked then CertRevoked else CertOther;
      }
      if ret == Success && certIdx > 0 && !IsCa(lib, cert) {
        ret := CertNoSigner;
      }
    }

    /** The checks on the leaf. */
    method CheckLeaf(leaf: Cert) returns (ret: Ret)
      ensures ret == Success <==> LeafOk(lib, side, leaf)
      ensures lib.decode(leaf).None? <==> ret == CertOther
      ensures lib.decode(leaf).Some? ==> var d := lib.decode(leaf).value;
              && (ret == CertKeyUsage <==> !d.isCA && CheckLeafUsage(d, side) == CertKeyUsage)
              && (d.isCA ==> ret == CertProfile)
    {
      var d := lib.decode(leaf);
      if d.None? {
        return CertOther;
      }
      if d.value.isCA {
        return CertProfile;
      }
      ret := CheckLeafUsage(d.value, side);
      if ret == Success && !lib.fitsProfile(leaf) {
        ret := CertProfile;
      }
    }

    /** The loop that finds the certificates in the buffer. */
    method FindCerts(blob: seq<byte>, certsCount: nat) returns (ret: Ret, chain: seq<Cert>)
      ensures ret == (if Split(blob, 0, certsCount).Some? then Success else Malformed)
      ensures ret == Success ==> |chain| == certsCount && Split(blob, 0, certsCount) == Some(chain)
    {
      hide GetStringRef;
      var idx: nat, certIdx: nat := 0, 0;
      if Split(blob, 0, certsCount).Some? {
        assert [] + Split(blob, 0, certsCount).value == Split(blob, 0, certsCount).value;
      }
      ret, chain := Success, [];
      while certIdx < certsCount
        invariant certIdx == |chain| <= certsCount
        invariant var rest := Split(blob, idx, certsCount - certIdx);
                  Split(blob, 0, certsCount) == if rest.None? then None else Some(chain + rest.value)
      {
        if idx + 4 > |blob| {
          return Malformed, chain;
        }
        var c := GetStringRef(blob, idx);
        if c.Err? {
          return Malformed, chain;
        }
        ghost var rest := Split(blob, c.value.idx, certsCount - certIdx - 1);
        if rest.Some? {
          Assoc(chain, [c.value.value], rest.value);
        }
        chain, idx, certIdx := chain + [c.value.value], c.value.idx, certIdx + 1;
      }
      assert chain + [] == chain;
    }

    /** wolfSSH_CERTMAN_VerifyCerts_buffer. Whatever the chain, the store stays
        trusted and gains only CAs of the chain; success means that the whole chain
        verified, CAs above the leaf, and the leaf fit for the role. */
    method VerifyCerts(blob: seq<byte>, certsCount: nat) returns (ret: Ret, ghost chain: seq<Cert>)
      requires Valid()
      modifies `signers
      ensures Valid() && old(signers) <= signers
      ensures forall i :: |old(signers)| <= i < |signers| ==> !signers[i].root && signers[i].cert in chain
      ensures ret == Success ==>
              && 0 < certsCount <= MAX_CHAIN_DEPTH && Split(blob, 0, certsCount) == Some(chain)
              && Accepted(lib, side, signers, chain)
      ensures var certs := Split(blob, 0, certsCount);
              ret == Success <==>
              && 0 < certsCount <= MAX_CHAIN_DEPTH && certs.Some?
              && AllPass(lib, old(signers), certs.value, 0) && LeafOk(lib, side, certs.value[0])
      ensures ret == Success ==> signers == Store(lib, old(signers), chain, 0)
    {
      hide Passes, Store, AllPass, IsCa, Split, Vouched;
      chain := [];
      if certsCount == 0 || certsCount > MAX_CHAIN_DEPTH {
        return BadArgument, chain;
      }
      var certs;
      ret, certs := FindCerts(blob, certsCount);
      if ret != Success {
        return;
      }
      chain := certs;
      ret := CheckChain(certs);
      if ret == Success {
        ret := CheckLeaf(certs[0]);
      }
    }

    /** The loop over the chain, from the top down. */
    method CheckChain(chain: seq<Cert>) returns (ret: Ret)
      requires Valid()
      modifies `signers
      ensures Valid() && old(signers) <= signers
      ensures forall i :: |old(signers)| <= i < |signers| ==> !signers[i].root && signers[i].cert in chain
      ensures ret == Success <==> AllPass(lib, old(signers), chain, 0)
      ensures ret == Success ==> Checked(chain, 0) && signers == Store(lib, old(signers), chain, 0)
    {
      hide Passes, AsksAbove, Loaded, Store, AllPass, IsCa, Vouched, Verifies, Trusted, Certs;
      ret := Success;
      var certIdx: nat := |chain|;
      StoreBegins(lib, signers, chain);
      while certIdx > 0
        invariant certIdx <= |chain| && Checked(chain, certIdx) && old(signers) <= signers && ret == Success
        invariant forall i :: |old(signers)| <= i < |signers| ==> !signers[i].root && signers[i].cert in chain
        invariant signers == Store(lib, old(signers), chain, certIdx)
        invariant AllPass(lib, old(signers), chain, certIdx)
      {
        StoreUnfolds(lib, old(signers), chain, certIdx - 1);
        ret := CheckCert(chain, certIdx - 1);
        if ret != Success {
          assert !AllPass(lib, old(signers), chain, 0) by { AllPassAll(lib, old(signers), chain, certIdx - 1); }
          return;
        }
        certIdx := certIdx - 1;
      }
    }

    /** Any sequence of loads and verifications leaves only trusted signers. */
    method Run(ops: seq<Op>)
      requires Valid()
      modifies this
      ensures Valid() && old(signers) <= signers
    {
      for i := 0 to |ops|
        invariant Valid() && old(signers) <= signers
      {
        match ops[i]
        case LoadRoot(cert) => var ok := LoadCa(cert, true);
        case Verify(blob, count) => var ret, chain := VerifyCerts(blob, count);
        case SetSide(s) => side := s;
      }
    }
  }

  datatype Op = LoadRoot(cert: Cert) | Verify(blob: seq<byte>, count: nat) | SetSide(side: Side)
}
