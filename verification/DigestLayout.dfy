/**
 What the hashed data is, byte by byte: every node of the signature digest tree of
 src/parser/compute.rs and every streamed component hash of src/parser/pczt/transparent.rs,
 read back from its bytes.
 */
module DigestLayout {
  import opened Outcomes
  import opened Words
  import opened Bytes
  import opened SignatureDigest
  import opened SignedContent

  /** The personalizations, as bytes: the nodes of the tree. */
  lemma TreePersonalizations()
    ensures HeadersPerso()
            == [0x5A, 0x54, 0x78, 0x49, 0x64, 0x48, 0x65, 0x61, 0x64, 0x65, 0x72, 0x73, 0x48, 0x61, 0x73, 0x68]
    ensures TransparentPerso()
            == [0x5A, 0x54, 0x78, 0x49, 0x64, 0x54, 0x72, 0x61, 0x6E, 0x73, 0x70, 0x61, 0x48, 0x61, 0x73, 0x68]
    ensures SaplingPerso()
            == [0x5A, 0x54, 0x78, 0x49, 0x64, 0x53, 0x61, 0x70, 0x6C, 0x69, 0x6E, 0x67, 0x48, 0x61, 0x73, 0x68]
    ensures TxPersoPrefix()
            == [0x5A, 0x63, 0x61, 0x73, 0x68, 0x54, 0x78, 0x48, 0x61, 0x73, 0x68, 0x5F]
  {}

  /** Those of the Orchard bundle, by version. */
  lemma OrchardPersonalizations()
    ensures OrchardV5Perso()
            == [0x5A, 0x54, 0x78, 0x49, 0x64, 0x4F, 0x72, 0x63, 0x68, 0x61, 0x72, 0x64, 0x48, 0x61, 0x73, 0x68]
    ensures OrchardV6Perso()
            == [0x5A, 0x54, 0x78, 0x49, 0x64, 0x4F, 0x72, 0x63, 0x68, 0x61, 0x72, 0x64, 0x48, 0x5F, 0x76, 0x36]
  {}

  /** Those of the Ironwood bundle and of one input. */
  lemma OtherPersonalizations()
    ensures IronwoodPerso()
            == [0x5A, 0x54, 0x78, 0x49, 0x64, 0x49, 0x72, 0x6F, 0x6E, 0x77, 0x64, 0x5F, 0x48, 0x5F, 0x76, 0x36]
    ensures TransparentInputPerso()
            == [0x5A, 0x63, 0x61, 0x73, 0x68, 0x5F, 0x5F, 0x5F, 0x54, 0x78, 0x49, 0x6E, 0x48, 0x61, 0x73, 0x68]
  {}

  /** Those of the outpoints, sequence numbers and outputs. */
  lemma ListPersonalizations()
    ensures PrevoutsPerso()
            == [0x5A, 0x54, 0x78, 0x49, 0x64, 0x50, 0x72, 0x65, 0x76, 0x6F, 0x75, 0x74, 0x48, 0x61, 0x73, 0x68]
    ensures SequencePerso()
            == [0x5A, 0x54, 0x78, 0x49, 0x64, 0x53, 0x65, 0x71, 0x75, 0x65, 0x6E, 0x63, 0x48, 0x61, 0x73, 0x68]
    ensures OutputsPerso()
            == [0x5A, 0x54, 0x78, 0x49, 0x64, 0x4F, 0x75, 0x74, 0x70, 0x75, 0x74, 0x73, 0x48, 0x61, 0x73, 0x68]
  {}

  /** Those of the amounts and scripts spent. */
  lemma SpentPersonalizations()
    ensures AmountsPerso()
            == [0x5A, 0x54, 0x78, 0x54, 0x72, 0x41, 0x6D, 0x6F, 0x75, 0x6E, 0x74, 0x73, 0x48, 0x61, 0x73, 0x68]
    ensures ScriptsPerso()
            == [0x5A, 0x54, 0x78, 0x54, 0x72, 0x53, 0x63, 0x72, 0x69, 0x70, 0x74, 0x73, 0x48, 0x61, 0x73, 0x68]
  {}

  // Bytes [from, from + n) of d.
  function At(d: seq<u8>, from: nat, n: nat): seq<u8>
    requires from + n <= |d|
  {
    d[from..from + n]
  }

  lemma Le32Value(n: u32)
    ensures BytesVal(Le32(n)) == n
  {
    assert Pow256(4) == 0x1_0000_0000;
    ToBytesVal(n, 4);
  }

  // ---------------------------------------------------------------- header

  lemma FiveWords(a: seq<u8>, b: seq<u8>, c: seq<u8>, d: seq<u8>, e: seq<u8>)
    requires |a| == 4 && |b| == 4 && |c| == 4 && |d| == 4 && |e| == 4
    ensures var s := a + b + c + d + e;
            && |s| == 20 && At(s, 0, 4) == a && At(s, 4, 4) == b && At(s, 8, 4) == c && At(s, 12, 4) == d
            && At(s, 16, 4) == e
  {}

  /** T.1: version word, version group, branch, locktime, expiry height, four bytes each. */
  lemma HeaderLayout(t: TxState)
    ensures HeaderQuery(t).perso == HeadersPerso() && |HeaderQuery(t).data| == 20
    ensures var d := HeaderQuery(t).data;
            && BytesVal(At(d, 0, 4)) == (if t.isV6 then 0x8000_0006 else if t.txVersion == V5 then 0x8000_0005
                                         else 0x8000_0004)
            && BytesVal(At(d, 4, 4)) == (if t.isV6 then 0xD884_B698 else if t.txVersion == V5 then 0x26A7_270A
                                         else 0x892F_2085)
            && BytesVal(At(d, 8, 4)) == (if t.isV6 then t.branchIdRaw else t.branchId)
            && BytesVal(At(d, 12, 4)) == t.locktime
            && BytesVal(At(d, 16, 4)) == t.expiryHeight
  {
    var version := if t.isV6 then (0x8000_0006, V6_VERSION_GROUP_ID) else VersionWords(t.txVersion);
    var branch := if t.isV6 then t.branchIdRaw else t.branchId;
    FiveWords(Le32(version.0), Le32(version.1), Le32(branch), Le32(t.locktime), Le32(t.expiryHeight));
    Le32Value(version.0);
    Le32Value(version.1);
    Le32Value(branch);
    Le32Value(t.locktime);
    Le32Value(t.expiryHeight);
  }

  // ---------------------------------------------------------------- transparent digest

  lemma ThreeHashes(a: Digest, b: Digest, c: Digest)
    ensures var s := a + b + c; |s| == 96 && At(s, 0, 32) == a && At(s, 32, 32) == b && At(s, 64, 32) == c
  {}

  lemma SixHashes(x: u8, a: Digest, b: Digest, c: Digest, d: Digest, e: Digest, f: Digest)
    ensures var s := [x] + a + b + c + d + e + f;
            && |s| == 193 && s[0] == x && At(s, 1, 32) == a && At(s, 33, 32) == b && At(s, 65, 32) == c
            && At(s, 97, 32) == d && At(s, 129, 32) == e && At(s, 161, 32) == f
  {}

  /** S.2 and T.2: nothing; prevouts, sequence, outputs; or the sighash type and the six hashes of S.2. */
  lemma TransparentLayout(t: TxState, mode: Mode)
    ensures TransparentQuery(t, mode).perso == TransparentPerso()
    ensures var d := TransparentQuery(t, mode).data;
            match mode
            case NoTransparentInputsOrOutputs => d == []
            case NoTransparentInputs =>
              && |d| == 96
              && At(d, 0, 32) == t.prevoutsHash && At(d, 32, 32) == t.sequenceHash && At(d, 64, 32) == t.outputsHash
            case SomeTransparentInputs(sighashType, txin) =>
              && |d| == 193 && d[0] == sighashType
              && At(d, 1, 32) == t.prevoutsHash && At(d, 33, 32) == t.amountsHash && At(d, 65, 32) == t.scriptsHash
              && At(d, 97, 32) == t.sequenceHash && At(d, 129, 32) == t.outputsHash && At(d, 161, 32) == txin
  {
    match mode
    case NoTransparentInputsOrOutputs =>
    case NoTransparentInputs => ThreeHashes(t.prevoutsHash, t.sequenceHash, t.outputsHash);
    case SomeTransparentInputs(s, txin) =>
      SixHashes(s, t.prevoutsHash, t.amountsHash, t.scriptsHash, t.sequenceHash, t.outputsHash, txin);
  }

  // ---------------------------------------------------------------- final digest

  // BLAKE2b of nothing, under a personalization.
  function EmptyHash(h: Blake2b256, perso: seq<u8>): Digest { h(Query(perso, [])) }

  lemma FiveHashes(a: Digest, b: Digest, c: Digest, d: Digest, e: seq<u8>)
    ensures var s := a + b + c + d + e;
            && |s| == 128 + |e| && At(s, 0, 32) == a && At(s, 32, 32) == b && At(s, 64, 32) == c && At(s, 96, 32) == d
            && At(s, 128, |e|) == e
  {}

  lemma PersoAndBranch(p: seq<u8>, b: seq<u8>)
    requires |p| == 12 && |b| == 4
    ensures |p + b| == 16 && At(p + b, 0, 12) == p && At(p + b, 12, 4) == b
  {}

  /**
   The root: personalized by the branch, over the header, transparent, Sapling and Orchard
   digests and, in a V6 transaction, the Ironwood digest. A bundle that is absent has the
   digest of nothing under its own personalization.
   */
  lemma RootLayout(h: Blake2b256, t: TxState, mode: Mode)
    ensures var q := FinalQuery(h, t, mode);
            && DigestOf(h, t, mode) == h(q)
            && |q.perso| == 16 && At(q.perso, 0, 12) == TxPersoPrefix() && BytesVal(At(q.perso, 12, 4)) == t.branchId
            && |q.data| == (if t.isV6 then 160 else 128)
            && At(q.data, 0, 32) == h(HeaderQuery(t))
            && At(q.data, 32, 32) == h(TransparentQuery(t, mode))
            && At(q.data, 64, 32) == EmptyHash(h, SaplingPerso())
            && At(q.data, 96, 32) == (if !AllZero(t.orchardDigest) then t.orchardDigest
                                      else EmptyHash(h, if t.isV6 then OrchardV6Perso() else OrchardV5Perso()))
            && (t.isV6 ==> At(q.data, 128, 32) == if t.hasIronwoodBundle then t.ironwoodDigest
                                                  else EmptyHash(h, IronwoodPerso()))
  {
    PersoAndBranch(TxPersoPrefix(), Le32(t.branchId));
    Le32Value(t.branchId);
    FiveHashes(h(HeaderQuery(t)), h(TransparentQuery(t, mode)), h(EmptyQuery(SaplingPerso())), EffectiveOrchard(h, t),
               if t.isV6 then EffectiveIronwood(h, t) else []);
  }

  /** Which mode a signature is made in: S.2g for a shielded action, the input's own digest for an input. */
  lemma ModeOfSignature(h: Blake2b256, c: Content, input: Option<nat>)
    requires input.Some? ==> input.value < |c.inputs|
    ensures SigningDigest(h, c, input) == DigestOf(h, c.tx, SigningMode(h, c, input))
    ensures var m := SigningMode(h, c, input);
            && (m == NoTransparentInputsOrOutputs <==> c.inputs == [] && c.outputs == [])
            && (m == NoTransparentInputs <==> c.inputs == [] && c.outputs != [])
            && (m.SomeTransparentInputs? ==>
                  && m.sighashType == 1
                  && m.txinSigDigest == if input.None? then EmptyHash(h, TransparentInputPerso())
                                        else h(TxinQuery(c.inputs[input.value])))
  {}

  // ---------------------------------------------------------------- scripts and inputs

  /** A CompactSize: one byte below 253, otherwise a marker and two, four or eight little-endian bytes. */
  lemma CompactSizeLayout(n: nat)
    requires n < 0x1_0000_0000_0000_0000
    ensures var d := CompactSize(n);
            if n < 0xFD then d == [n]
            else if n <= 0xFFFF then |d| == 3 && d[0] == 0xFD && BytesVal(d[1..]) == n
            else if n <= 0xFFFF_FFFF then |d| == 5 && d[0] == 0xFE && BytesVal(d[1..]) == n
            else |d| == 9 && d[0] == 0xFF && BytesVal(d[1..]) == n
  {
    assert Pow256(2) == 0x1_0000 && Pow256(4) == 0x1_0000_0000;
    assert Pow256(8) == 0x1_0000_0000_0000_0000 by { PowerOfEight(); }
    var k := if n <= 0xFFFF then 2 else if n <= 0xFFFF_FFFF then 4 else 8;
    if n >= 0xFD {
      ToBytesVal(n, k);
      assert CompactSize(n)[1..] == ToBytes(n, k);
    }
  }

  lemma PowerOfEight()
    ensures Pow256(8) == 0x1_0000_0000_0000_0000
  {
    assert Pow256(4) == 0x1_0000_0000;
  }

  /** S.2g: outpoint, amount, script with its length, sequence. */
  lemma TxinLayout(i: TransparentInput)
    requires i.Valid()
    ensures TxinQuery(i).perso == TransparentInputPerso()
    ensures var d, k := TxinQuery(i).data, |CompactSize(|i.scriptPubkey|)|;
            && |d| == 48 + k + |i.scriptPubkey|
            && At(d, 0, 36) == i.prevout && At(d, 36, 8) == i.amount
            && At(d, 44, k) == CompactSize(|i.scriptPubkey|)
            && At(d, 44 + k, |i.scriptPubkey|) == i.scriptPubkey
            && BytesVal(At(d, 44 + k + |i.scriptPubkey|, 4)) == i.sequence
  {
    Le32Value(i.sequence);
    var d, k := TxinData(i), |CompactSize(|i.scriptPubkey|)|;
    assert At(d, 44 + k + |i.scriptPubkey|, 4) == Le32(i.sequence);
  }

  // ---------------------------------------------------------------- component hashes

  // Entry k of data made of entries of n bytes.
  lemma {:induction false} FixedEntry<T>(f: T -> seq<u8>, xs: seq<T>, n: nat, j: nat, k: nat)
    requires j <= k < |xs| && forall i :: 0 <= i < |xs| ==> |f(xs[i])| == n
    ensures n * (k - j) + n <= |Concat(f, xs, j)| && At(Concat(f, xs, j), n * (k - j), n) == f(xs[k])
    decreases |xs| - j
  {
    FixedLength(f, xs, n, j);
    FixedLength(f, xs, n, j + 1);
    Rows(n, k - j, |xs| - j);
    var head, tail := f(xs[j]), Concat(f, xs, j + 1);
    if j < k {
      FixedEntry(f, xs, n, j + 1, k);
      Rows(n, k - j - 1, |xs| - j - 1);
      Behind(head, tail, n * (k - j - 1), n);
    } else {
      InFront(head, tail);
    }
  }

  lemma Behind(head: seq<u8>, tail: seq<u8>, from: nat, n: nat)
    requires from + n <= |tail|
    ensures |head| + from + n <= |head + tail| && At(head + tail, |head| + from, n) == At(tail, from, n)
  {}

  lemma InFront(head: seq<u8>, tail: seq<u8>)
    ensures At(head + tail, 0, |head|) == head
  {}

  lemma Rows(n: nat, a: nat, b: nat)
    requires a < b
    ensures n * a + n <= n * b && n * (a + 1) == n * a + n
  {
    var c := b - a - 1;
    assert n * b == n * a + n + n * c;
  }

  lemma {:induction false} FixedLength<T>(f: T -> seq<u8>, xs: seq<T>, n: nat, j: nat)
    requires j <= |xs| && forall i :: 0 <= i < |xs| ==> |f(xs[i])| == n
    ensures |Concat(f, xs, j)| == n * (|xs| - j)
    decreases |xs| - j
  {
    if j < |xs| {
      FixedLength(f, xs, n, j + 1);
      Rows(n, |xs| - j - 1, |xs| - j);
    }
  }

  /**
   The three hashes of fixed-size fields: outpoints, amounts and sequence numbers of all the
   inputs, in order.
   */
  lemma InputFieldsLayout(ins: seq<TransparentInput>, k: nat)
    requires k < |ins| && forall i :: 0 <= i < |ins| ==> ins[i].Valid()
    ensures var q := InputQueriesOf(ins);
            && q[0].perso == PrevoutsPerso() && q[1].perso == SequencePerso() && q[2].perso == AmountsPerso()
            && |q[0].data| == 36 * |ins| && |q[1].data| == 4 * |ins| && |q[2].data| == 8 * |ins|
            && At(q[0].data, 36 * k, 36) == ins[k].prevout
            && BytesVal(At(q[1].data, 4 * k, 4)) == ins[k].sequence
            && At(q[2].data, 8 * k, 8) == ins[k].amount
  {
    FixedLength(PrevoutOf, ins, 36, 0);
    FixedLength(SequenceOf, ins, 4, 0);
    FixedLength(AmountOf, ins, 8, 0);
    FixedEntry(PrevoutOf, ins, 36, 0, k);
    FixedEntry(SequenceOf, ins, 4, 0, k);
    FixedEntry(AmountOf, ins, 8, 0, k);
    Le32Value(ins[k].sequence);
  }

  /** The scripts hash: each script after its length; no inputs, no data. */
  lemma ScriptsLayout(ins: seq<TransparentInput>, i: TransparentInput)
    ensures InputQueriesOf(ins)[3].perso == ScriptsPerso()
    ensures InputQueriesOf(ins + [i])[3].data
            == InputQueriesOf(ins)[3].data + CompactSize(|i.scriptPubkey|) + i.scriptPubkey
    ensures forall k :: 0 <= k < 4 ==> InputQueriesOf([])[k].data == []
  {
    InputsDataSnoc(ins, i);
  }

  /** The outputs hash: of each output its amount, then its script after its length. */
  lemma OutputsLayout(outs: seq<TransparentOutput>, o: TransparentOutput)
    ensures OutputsQuery(outs).perso == OutputsPerso() && OutputsQuery([]).data == []
    ensures OutputsQuery(outs + [o]).data
            == OutputsQuery(outs).data + o.amount + CompactSize(|o.scriptPubkey|) + o.scriptPubkey
  {
    OutputsDataSnoc(outs, o);
  }

  /** Which hash of the transaction state is which. */
  lemma ComponentsCovered(h: Blake2b256, c: Content)
    requires Covers(h, c)
    ensures var q := InputQueriesOf(c.inputs);
            && c.tx.prevoutsHash == h(q[0]) && c.tx.sequenceHash == h(q[1])
            && c.tx.amountsHash == h(q[2]) && c.tx.scriptsHash == h(q[3])
            && c.tx.outputsHash == h(OutputsQuery(c.outputs))
  {}
}
