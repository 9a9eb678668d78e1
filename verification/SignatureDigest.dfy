/**
 The signature digest tree (src/parser/compute.rs): header digest, transparent digest
 in its three modes, per-input digest and final digest, sections T.1 and S.2 of ZIP 244
 and ZIP 229.

 BLAKE2b-256 is an arbitrary function of (personalization, data). A 32-byte hash is not
 injective, so binding is proved by extraction: two transaction states with equal
 signature digests either agree in everything the digest covers, or exhibit two
 different hash queries, one made for each state, with the same digest.
 */
module SignatureDigest {
  import opened Outcomes
  import opened Words
  import opened Bytes

  type Digest = Bytes32

  datatype Query = Query(perso: seq<u8>, data: seq<u8>)
  type Blake2b256 = Query -> Digest

  const SIGHASH_ALL: u8 := 0x01
  const OVERWINTERED_FLAG: u32 := 0x8000_0000
  const V6_TX_VERSION: u32 := 6
  const V6_VERSION_GROUP_ID: u32 := 0xD884B698

  function Ascii(s: string): seq<u8> {
    seq(|s|, i requires 0 <= i < |s| => (s[i] as int) % 256)
  }

  function HeadersPerso(): seq<u8> { Ascii("ZTxIdHeadersHash") }
  function TransparentPerso(): seq<u8> { Ascii("ZTxIdTranspaHash") }
  function SaplingPerso(): seq<u8> { Ascii("ZTxIdSaplingHash") }
  function OrchardV5Perso(): seq<u8> { Ascii("ZTxIdOrchardHash") }
  function OrchardV6Perso(): seq<u8> { Ascii("ZTxIdOrchardH_v6") }
  function IronwoodPerso(): seq<u8> { Ascii("ZTxIdIronwd_H_v6") }
  function TransparentInputPerso(): seq<u8> { Ascii("Zcash___TxInHash") }
  function TxPersoPrefix(): seq<u8> { Ascii("ZcashTxHash_") }

  datatype TxVersion = V4 | V5

  // Overwintered version number and version group id.
  function VersionWords(v: TxVersion): (u32, u32) {
    match v
    case V4 => (0x8000_0004, 0x892F2085)
    case V5 => (0x8000_0005, 0x26A7270A)
  }

  function Le32(n: u32): (b: seq<u8>)
    ensures |b| == 4
  {
    ToBytes(n, 4)
  }

  lemma Le32Injective(m: u32, n: u32)
    requires Le32(m) == Le32(n)
    ensures m == n
  {
    assert Pow256(4) == 0x1_0000_0000;
    ToBytesVal(m, 4);
    ToBytesVal(n, 4);
  }

  // The fields the signature digest is computed from.
  datatype TxState = TxState(
    isV6: bool,
    txVersion: TxVersion,
    branchId: u32,
    branchIdRaw: u32,
    locktime: u32,
    expiryHeight: u32,
    prevoutsHash: Digest,
    amountsHash: Digest,
    scriptsHash: Digest,
    sequenceHash: Digest,
    outputsHash: Digest,
    orchardDigest: Digest,
    hasIronwoodBundle: bool,
    ironwoodDigest: Digest)

  datatype Mode =
    | NoTransparentInputsOrOutputs
    | NoTransparentInputs
    | SomeTransparentInputs(sighashType: u8, txinSigDigest: Digest)

  // ---------------------------------------------------------------- the tree

  function HeaderQuery(t: TxState): Query {
    var version := if t.isV6 then (0x8000_0006, V6_VERSION_GROUP_ID) else VersionWords(t.txVersion);
    var branch := if t.isV6 then t.branchIdRaw else t.branchId;
    Query(HeadersPerso(), Le32(version.0) + Le32(version.1) + Le32(branch) + Le32(t.locktime) + Le32(t.expiryHeight))
  }

  function TransparentData(t: TxState, mode: Mode): seq<u8> {
    match mode
    case NoTransparentInputsOrOutputs => []
    case NoTransparentInputs => t.prevoutsHash + t.sequenceHash + t.outputsHash
    case SomeTransparentInputs(sighashType, txin) =>
      [sighashType] + t.prevoutsHash + t.amountsHash + t.scriptsHash + t.sequenceHash + t.outputsHash + txin
  }

  function TransparentQuery(t: TxState, mode: Mode): Query {
    Query(TransparentPerso(), TransparentData(t, mode))
  }

  function EmptyQuery(perso: seq<u8>): Query { Query(perso, []) }

  function EffectiveOrchard(h: Blake2b256, t: TxState): Digest {
    if AllZero(t.orchardDigest) then h(EmptyQuery(if t.isV6 then OrchardV6Perso() else OrchardV5Perso()))
    else t.orchardDigest
  }

  function EffectiveIronwood(h: Blake2b256, t: TxState): Digest {
    if t.hasIronwoodBundle then t.ironwoodDigest else h(EmptyQuery(IronwoodPerso()))
  }

  function FinalQuery(h: Blake2b256, t: TxState, mode: Mode): Query {
    Query(TxPersoPrefix() + Le32(t.branchId),
          h(HeaderQuery(t)) + h(TransparentQuery(t, mode)) + h(EmptyQuery(SaplingPerso())) + EffectiveOrchard(h, t)
          + if t.isV6 then EffectiveIronwood(h, t) else [])
  }

  function DigestOf(h: Blake2b256, t: TxState, mode: Mode): Digest {
    h(FinalQuery(h, t, mode))
  }

  // ---------------------------------------------------------------- the code

  class Hasher {
    var perso: seq<u8>
    var data: seq<u8>

    constructor (p: seq<u8>)
      ensures perso == p && data == []
    {
      perso, data := p, [];
    }

    method Update(bytes: seq<u8>)
      modifies this
      ensures perso == old(perso) && data == old(data) + bytes
    {
      data := data + bytes;
    }

    method Finalize(h: Blake2b256) returns (d: Digest)
      ensures d == h(Query(perso, data))
    {
      d := h(Query(perso, data));
    }
  }

  method EmptyDigest(h: Blake2b256, perso: seq<u8>) returns (d: Digest)
    ensures d == h(EmptyQuery(perso))
  {
    var hasher := new Hasher(perso);
    d := hasher.Finalize(h);
  }

  class TxInfo {
    var state: TxState
    var sighashType: u8
    var headerDigest: Digest
    var signatureDigest: Digest

    constructor (s: TxState)
      ensures state == s
    {
      state, sighashType := s, 0;
      headerDigest, signatureDigest := Zeros(32), Zeros(32);
    }

    method ComputeHeaderDigest(h: Blake2b256)
      modifies this`headerDigest
      ensures headerDigest == h(HeaderQuery(state))
    {
      var hasher := new Hasher(HeadersPerso());
      if state.isV6 {
        hasher.Update(Le32(V6_TX_VERSION + OVERWINTERED_FLAG));
        hasher.Update(Le32(V6_VERSION_GROUP_ID));
        hasher.Update(Le32(state.branchIdRaw));
      } else {
        hasher.Update(Le32(VersionWords(state.txVersion).0));
        hasher.Update(Le32(VersionWords(state.txVersion).1));
        hasher.Update(Le32(state.branchId));
      }
      hasher.Update(Le32(state.locktime));
      hasher.Update(Le32(state.expiryHeight));
      assert hasher.data == HeaderQuery(state).data;
      var d := hasher.Finalize(h);
      headerDigest := d;
    }

    method TransparentSignatureDigest(h: Blake2b256, mode: Mode) returns (d: Digest)
      ensures d == h(TransparentQuery(state, mode))
    {
      var hasher := new Hasher(TransparentPerso());
      match mode {
        case NoTransparentInputsOrOutputs =>
        case NoTransparentInputs =>
          hasher.Update(state.prevoutsHash);
          hasher.Update(state.sequenceHash);
          hasher.Update(state.outputsHash);
        case SomeTransparentInputs(sighash, txin) =>
          hasher.Update([sighash]);
          hasher.Update(state.prevoutsHash);
          hasher.Update(state.amountsHash);
          hasher.Update(state.scriptsHash);
          hasher.Update(state.sequenceHash);
          hasher.Update(state.outputsHash);
          hasher.Update(txin);
      }
      assert hasher.data == TransparentData(state, mode);
      d := hasher.Finalize(h);
    }

    method FinalizeFromTransparentDigest(h: Blake2b256, transparent: Digest, ghost mode: Mode)
      requires headerDigest == h(HeaderQuery(state)) && transparent == h(TransparentQuery(state, mode))
      modifies this`signatureDigest
      ensures signatureDigest == DigestOf(h, state, mode)
    {
      var sapling := EmptyDigest(h, SaplingPerso());
      var orchard := state.orchardDigest;
      if AllZero(state.orchardDigest) {
        orchard := EmptyDigest(h, if state.isV6 then OrchardV6Perso() else OrchardV5Perso());
      }
      var hasher := new Hasher(TxPersoPrefix() + Le32(state.branchId));
      hasher.Update(headerDigest);
      hasher.Update(transparent);
      hasher.Update(sapling);
      hasher.Update(orchard);
      assert orchard == EffectiveOrchard(h, state);
      assert hasher.data == headerDigest + transparent + sapling + orchard;
      if state.isV6 {
        var ironwood := state.ironwoodDigest;
        if !state.hasIronwoodBundle {
          ironwood := EmptyDigest(h, IronwoodPerso());
        }
        assert ironwood == EffectiveIronwood(h, state);
        hasher.Update(ironwood);
      } else {
        assert hasher.data == hasher.data + [];
      }
      var d := hasher.Finalize(h);
      signatureDigest := d;
    }

    method FinalizeSignatureHash(h: Blake2b256, mode: Mode)
      modifies this`headerDigest, this`signatureDigest
      ensures signatureDigest == DigestOf(h, state, mode)
    {
      ComputeHeaderDigest(h);
      var transparent := TransparentSignatureDigest(h, mode);
      FinalizeFromTransparentDigest(h, transparent, mode);
    }

    method ComputeNoTransparentInput(h: Blake2b256, outputCount: nat, sighash: u8)
      modifies this`sighashType, this`headerDigest, this`signatureDigest
      ensures sighashType == sighash
      ensures var mode := if outputCount == 0 then NoTransparentInputsOrOutputs else NoTransparentInputs;
              signatureDigest == DigestOf(h, state, mode)
    {
      sighashType := sighash;
      var mode := if outputCount == 0 then NoTransparentInputsOrOutputs else NoTransparentInputs;
      FinalizeSignatureHash(h, mode);
    }

    method ComputeTransparentInput(h: Blake2b256, txin: Digest, sighash: u8)
      modifies this`sighashType, this`headerDigest, this`signatureDigest
      ensures sighashType == sighash
      ensures signatureDigest == DigestOf(h, state, SomeTransparentInputs(sighash, txin))
    {
      sighashType := sighash;
      FinalizeSignatureHash(h, SomeTransparentInputs(sighash, txin));
    }

    // The digest every Orchard and Ironwood spend of a transaction signs.
    method ComputeShielded(h: Blake2b256, inputCount: nat, outputCount: nat)
      modifies this`sighashType, this`headerDigest, this`signatureDigest
      ensures sighashType == SIGHASH_ALL
      ensures signatureDigest == DigestOf(h, state, ShieldedMode(h, inputCount, outputCount))
    {
      if inputCount == 0 {
        ComputeNoTransparentInput(h, outputCount, SIGHASH_ALL);
      } else {
        var txin := EmptyDigest(h, TransparentInputPerso());
        ComputeTransparentInput(h, txin, SIGHASH_ALL);
      }
    }
  }

  function ShieldedMode(h: Blake2b256, inputCount: nat, outputCount: nat): Mode {
    if inputCount > 0 then SomeTransparentInputs(SIGHASH_ALL, h(EmptyQuery(TransparentInputPerso())))
    else if outputCount == 0 then NoTransparentInputsOrOutputs
    else NoTransparentInputs
  }

  // ---------------------------------------------------------------- binding

  // The hash queries made while digesting one transaction state.
  function Queries(h: Blake2b256, t: TxState, mode: Mode): set<Query> {
    {HeaderQuery(t), TransparentQuery(t, mode), FinalQuery(h, t, mode)}
  }

  // Two different queries with the same digest, one from each side.
  ghost predicate Collision(h: Blake2b256, qs: set<Query>, qs': set<Query>) {
    exists q, q' :: q in qs && q' in qs' && q != q' && h(q) == h(q')
  }

  // What the header commits to.
  function HeaderFields(t: TxState): (bool, Option<TxVersion>, u32, u32, u32) {
    (t.isV6, if t.isV6 then None else Some(t.txVersion), if t.isV6 then t.branchIdRaw else t.branchId,
     t.locktime, t.expiryHeight)
  }

  lemma Five<T>(a: seq<T>, b: seq<T>, c: seq<T>, d: seq<T>, e: seq<T>, a': seq<T>, b': seq<T>, c': seq<T>, d': seq<T>,
                e': seq<T>)
    requires a + b + c + d + e == a' + b' + c' + d' + e'
    requires |a| == |a'| && |b| == |b'| && |c| == |c'| && |d| == |d'|
    ensures a == a' && b == b' && c == c' && d == d' && e == e'
  {
    SplitAt(a + b + c + d, e, a' + b' + c' + d', e');
    SplitAt(a + b + c, d, a' + b' + c', d');
    SplitAt(a + b, c, a' + b', c');
    SplitAt(a, b, a', b');
  }

  lemma HeaderBinds(t: TxState, u: TxState)
    requires HeaderQuery(t).data == HeaderQuery(u).data && t.isV6 == u.isV6
    ensures HeaderFields(t) == HeaderFields(u)
  {
    var v, w := if t.isV6 then (0x8000_0006, V6_VERSION_GROUP_ID) else VersionWords(t.txVersion),
                if u.isV6 then (0x8000_0006, V6_VERSION_GROUP_ID) else VersionWords(u.txVersion);
    var b, c := if t.isV6 then t.branchIdRaw else t.branchId, if u.isV6 then u.branchIdRaw else u.branchId;
    Five(Le32(v.0), Le32(v.1), Le32(b), Le32(t.locktime), Le32(t.expiryHeight),
         Le32(w.0), Le32(w.1), Le32(c), Le32(u.locktime), Le32(u.expiryHeight));
    Le32Injective(v.0, w.0);
    Le32Injective(b, c);
    Le32Injective(t.locktime, u.locktime);
    Le32Injective(t.expiryHeight, u.expiryHeight);
  }

  // What the transparent digest commits to in a mode.
  function TransparentFields(t: TxState, mode: Mode): (Mode, seq<Digest>) {
    match mode
    case NoTransparentInputsOrOutputs => (mode, [])
    case NoTransparentInputs => (mode, [t.prevoutsHash, t.sequenceHash, t.outputsHash])
    case SomeTransparentInputs(_, _) =>
      (mode, [t.prevoutsHash, t.amountsHash, t.scriptsHash, t.sequenceHash, t.outputsHash])
  }

  function DataLength(m: Mode): nat {
    match m
    case NoTransparentInputsOrOutputs => 0
    case NoTransparentInputs => 96
    case SomeTransparentInputs(_, _) => 193
  }

  lemma TransparentBinds(t: TxState, m: Mode, u: TxState, n: Mode)
    requires TransparentData(t, m) == TransparentData(u, n)
    ensures TransparentFields(t, m) == TransparentFields(u, n)
  {
    assert |TransparentData(t, m)| == DataLength(m) && |TransparentData(u, n)| == DataLength(n);
    match m
    case NoTransparentInputsOrOutputs =>
    case NoTransparentInputs =>
      SplitAt(t.prevoutsHash + t.sequenceHash, t.outputsHash, u.prevoutsHash + u.sequenceHash, u.outputsHash);
      SplitAt(t.prevoutsHash, t.sequenceHash, u.prevoutsHash, u.sequenceHash);
    case SomeTransparentInputs(s, x) =>
      SomeInputsBind(t, m, u, n);
  }

  lemma SomeInputsBind(t: TxState, m: Mode, u: TxState, n: Mode)
    requires m.SomeTransparentInputs? && n.SomeTransparentInputs? && TransparentData(t, m) == TransparentData(u, n)
    ensures TransparentFields(t, m) == TransparentFields(u, n)
  {
    var a, b := [m.sighashType] + t.prevoutsHash + t.amountsHash, [n.sighashType] + u.prevoutsHash + u.amountsHash;
    Five(a, t.scriptsHash, t.sequenceHash, t.outputsHash, m.txinSigDigest,
         b, u.scriptsHash, u.sequenceHash, u.outputsHash, n.txinSigDigest);
    SplitAt([m.sighashType] + t.prevoutsHash, t.amountsHash, [n.sighashType] + u.prevoutsHash, u.amountsHash);
    SplitAt([m.sighashType], t.prevoutsHash, [n.sighashType], u.prevoutsHash);
    assert [m.sighashType][0] == [n.sighashType][0];
  }

  // Everything a signature digest covers.
  ghost predicate SameCoverage(h: Blake2b256, t: TxState, m: Mode, u: TxState, n: Mode) {
    && HeaderFields(t) == HeaderFields(u)
    && t.branchId == u.branchId
    && TransparentFields(t, m) == TransparentFields(u, n)
    && EffectiveOrchard(h, t) == EffectiveOrchard(h, u)
    && (t.isV6 ==> EffectiveIronwood(h, t) == EffectiveIronwood(h, u))
  }

  lemma FinalBinds(h: Blake2b256, t: TxState, m: Mode, u: TxState, n: Mode)
    requires FinalQuery(h, t, m) == FinalQuery(h, u, n)
    ensures t.isV6 == u.isV6 && t.branchId == u.branchId
    ensures h(HeaderQuery(t)) == h(HeaderQuery(u)) && h(TransparentQuery(t, m)) == h(TransparentQuery(u, n))
    ensures EffectiveOrchard(h, t) == EffectiveOrchard(h, u)
    ensures t.isV6 ==> EffectiveIronwood(h, t) == EffectiveIronwood(h, u)
  {
    SplitAt(TxPersoPrefix(), Le32(t.branchId), TxPersoPrefix(), Le32(u.branchId));
    Le32Injective(t.branchId, u.branchId);
    assert |FinalQuery(h, t, m).data| == if t.isV6 then 160 else 128;
    assert |FinalQuery(h, u, n).data| == if u.isV6 then 160 else 128;
    var s := h(EmptyQuery(SaplingPerso()));
    Five(h(HeaderQuery(t)), h(TransparentQuery(t, m)), s, EffectiveOrchard(h, t),
         if t.isV6 then EffectiveIronwood(h, t) else [],
         h(HeaderQuery(u)), h(TransparentQuery(u, n)), s, EffectiveOrchard(h, u),
         if u.isV6 then EffectiveIronwood(h, u) else []);
  }

  /**
   Equal signature digests bind version, branch, locktime, expiry, transparent mode,
   sighash type, every component hash and the effective Orchard and Ironwood digests,
   or a hash collision is in hand.
   */
  lemma DigestBinds(h: Blake2b256, t: TxState, m: Mode, u: TxState, n: Mode)
    requires DigestOf(h, t, m) == DigestOf(h, u, n)
    ensures SameCoverage(h, t, m, u, n) || Collision(h, Queries(h, t, m), Queries(h, u, n))
  {
    var qs, qs' := Queries(h, t, m), Queries(h, u, n);
    if !Collision(h, qs, qs') {
      assert FinalQuery(h, t, m) in qs && FinalQuery(h, u, n) in qs';
      FinalBinds(h, t, m, u, n);
      assert HeaderQuery(t) in qs && HeaderQuery(u) in qs';
      assert TransparentQuery(t, m) in qs && TransparentQuery(u, n) in qs';
      HeaderBinds(t, u);
      TransparentBinds(t, m, u, n);
    }
  }

  // The other direction: nothing outside the coverage reaches the digest.
  lemma CoverageSuffices(h: Blake2b256, t: TxState, m: Mode, u: TxState, n: Mode)
    requires SameCoverage(h, t, m, u, n)
    ensures DigestOf(h, t, m) == DigestOf(h, u, n)
  {
    var a, b := TransparentFields(t, m), TransparentFields(u, n);
    assert forall i :: 0 <= i < |a.1| ==> a.1[i] == b.1[i];
    match m
    case NoTransparentInputsOrOutputs =>
    case NoTransparentInputs =>
      assert a.1[0] == b.1[0] && a.1[1] == b.1[1] && a.1[2] == b.1[2];
    case SomeTransparentInputs(_, _) =>
      assert a.1[0] == b.1[0] && a.1[1] == b.1[1] && a.1[2] == b.1[2] && a.1[3] == b.1[3] && a.1[4] == b.1[4];
  }

  // ---------------------------------------------------------------- per-input digests

  // zcash_encoding::CompactSize.
  function CompactSize(n: nat): seq<u8> {
    if n < 253 then [n]
    else if n <= 0xFFFF then [253] + ToBytes(n, 2)
    else if n <= 0xFFFF_FFFF then [254] + ToBytes(n, 4)
    else [255] + ToBytes(n, 8)
  }

  datatype TransparentInput = TransparentInput(prevout: seq<u8>, amount: seq<u8>, scriptPubkey: seq<u8>,
                                               sequence: u32) {
    // A 36-byte outpoint and an 8-byte amount; slice lengths fit usize.
    predicate Valid() { |prevout| == 36 && |amount| == 8 && |scriptPubkey| < 0x1_0000_0000 }
  }

  function TxinData(i: TransparentInput): seq<u8> {
    i.prevout + i.amount + CompactSize(|i.scriptPubkey|) + i.scriptPubkey + Le32(i.sequence)
  }

  function TxinQuery(i: TransparentInput): Query { Query(TransparentInputPerso(), TxinData(i)) }

  method TxinSignatureDigest(h: Blake2b256, i: TransparentInput) returns (d: Digest)
    ensures d == h(TxinQuery(i))
  {
    var hasher := new Hasher(TransparentInputPerso());
    hasher.Update(i.prevout);
    hasher.Update(i.amount);
    hasher.Update(CompactSize(|i.scriptPubkey|));
    hasher.Update(i.scriptPubkey);
    hasher.Update(Le32(i.sequence));
    assert hasher.data == TxinData(i);
    d := hasher.Finalize(h);
  }

  // The length prefix can be read back whatever follows it.
  lemma CompactSizePrefixFree(m: nat, x: seq<u8>, n: nat, y: seq<u8>)
    requires m < 0x1_0000_0000 && n < 0x1_0000_0000
    requires CompactSize(m) + x == CompactSize(n) + y
    ensures m == n && x == y
  {
    assert (CompactSize(m) + x)[0] == CompactSize(m)[0];
    assert (CompactSize(n) + y)[0] == CompactSize(n)[0];
    assert |CompactSize(m)| == |CompactSize(n)|;
    SplitAt(CompactSize(m), x, CompactSize(n), y);
    assert Pow256(2) == 0x1_0000 && Pow256(4) == 0x1_0000_0000;
    if m >= 253 {
      assert CompactSize(m)[1..] == CompactSize(n)[1..];
      if m <= 0xFFFF {
        ToBytesVal(m, 2);
        ToBytesVal(n, 2);
      } else {
        ToBytesVal(m, 4);
        ToBytesVal(n, 4);
      }
    }
  }

  lemma Regroup<T>(a: seq<T>, b: seq<T>, c: seq<T>, d: seq<T>)
    ensures a + b + c + d == a + (b + (c + d))
  {}

  lemma TxinDataInjective(i: TransparentInput, j: TransparentInput)
    requires i.Valid() && j.Valid() && TxinData(i) == TxinData(j)
    ensures i == j
  {
    var x, y := i.scriptPubkey + Le32(i.sequence), j.scriptPubkey + Le32(j.sequence);
    Regroup(i.prevout + i.amount, CompactSize(|i.scriptPubkey|), i.scriptPubkey, Le32(i.sequence));
    Regroup(j.prevout + j.amount, CompactSize(|j.scriptPubkey|), j.scriptPubkey, Le32(j.sequence));
    SplitAt(i.prevout + i.amount, CompactSize(|i.scriptPubkey|) + x, j.prevout + j.amount,
            CompactSize(|j.scriptPubkey|) + y);
    SplitAt(i.prevout, i.amount, j.prevout, j.amount);
    CompactSizePrefixFree(|i.scriptPubkey|, x, |j.scriptPubkey|, y);
    SplitAt(i.scriptPubkey, Le32(i.sequence), j.scriptPubkey, Le32(j.sequence));
    Le32Injective(i.sequence, j.sequence);
  }

  // The mode in which input `i` is signed, and the queries that takes.
  function InputMode(h: Blake2b256, sighash: u8, i: TransparentInput): Mode {
    SomeTransparentInputs(sighash, h(TxinQuery(i)))
  }

  function InputQueries(h: Blake2b256, t: TxState, sighash: u8, i: TransparentInput): set<Query> {
    Queries(h, t, InputMode(h, sighash, i)) + {TxinQuery(i)}
  }

  lemma CollisionGrows(h: Blake2b256, a: set<Query>, b: set<Query>, a': set<Query>, b': set<Query>)
    requires Collision(h, a, b) && a <= a' && b <= b'
    ensures Collision(h, a', b')
  {
    var q, q' :| q in a && q' in b && q != q' && h(q) == h(q');
    assert q in a' && q' in b';
  }

  /** Inputs that differ in prevout, amount, script or sequence have different digests, even across transactions. */
  lemma InputDigestBinds(h: Blake2b256, t: TxState, s: u8, i: TransparentInput, u: TxState, s': u8, j: TransparentInput)
    requires i.Valid() && j.Valid()
    requires DigestOf(h, t, InputMode(h, s, i)) == DigestOf(h, u, InputMode(h, s', j))
    ensures (i == j && s == s' && SameCoverage(h, t, InputMode(h, s, i), u, InputMode(h, s', j)))
         || Collision(h, InputQueries(h, t, s, i), InputQueries(h, u, s', j))
  {
    var m, n := InputMode(h, s, i), InputMode(h, s', j);
    DigestBinds(h, t, m, u, n);
    if Collision(h, Queries(h, t, m), Queries(h, u, n)) {
      CollisionGrows(h, Queries(h, t, m), Queries(h, u, n), InputQueries(h, t, s, i), InputQueries(h, u, s', j));
    } else if TxinQuery(i) != TxinQuery(j) {
      assert TxinQuery(i) in InputQueries(h, t, s, i) && TxinQuery(j) in InputQueries(h, u, s', j);
    } else {
      TxinDataInjective(i, j);
    }
  }

  /** The shielded digest of a transaction with transparent inputs is none of its per-input digests. */
  lemma ShieldedDigestIsNoInputDigest(h: Blake2b256, t: TxState, inputCount: nat, outputCount: nat, s: u8,
                                      i: TransparentInput)
    requires i.Valid() && inputCount > 0
    requires DigestOf(h, t, ShieldedMode(h, inputCount, outputCount)) == DigestOf(h, t, InputMode(h, s, i))
    ensures Collision(h, Queries(h, t, ShieldedMode(h, inputCount, outputCount))
                      + {EmptyQuery(TransparentInputPerso())},
                      InputQueries(h, t, s, i))
  {
    var m, n := ShieldedMode(h, inputCount, outputCount), InputMode(h, s, i);
    var qs, qs' := Queries(h, t, m) + {EmptyQuery(TransparentInputPerso())}, InputQueries(h, t, s, i);
    DigestBinds(h, t, m, t, n);
    if Collision(h, Queries(h, t, m), Queries(h, t, n)) {
      CollisionGrows(h, Queries(h, t, m), Queries(h, t, n), qs, qs');
    } else {
      assert |TxinData(i)| >= 44;
      assert EmptyQuery(TransparentInputPerso()) in qs && TxinQuery(i) in qs';
    }
  }
}
