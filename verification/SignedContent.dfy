/**
 What a PCZT signature covers: the component hashes of src/tx.rs as the streamed
 hashers of src/parser/pczt/transparent.rs fill them, and the digest signed for a
 transparent input or for a shielded action.
 */
module SignedContent {
  import opened Outcomes
  import opened Words
  import opened Bytes
  import opened SignatureDigest

  function PrevoutsPerso(): seq<u8> { Ascii("ZTxIdPrevoutHash") }
  function SequencePerso(): seq<u8> { Ascii("ZTxIdSequencHash") }
  function OutputsPerso(): seq<u8> { Ascii("ZTxIdOutputsHash") }
  function AmountsPerso(): seq<u8> { Ascii("ZTxTrAmountsHash") }
  function ScriptsPerso(): seq<u8> { Ascii("ZTxTrScriptsHash") }

  datatype TransparentOutput = TransparentOutput(amount: seq<u8>, scriptPubkey: seq<u8>) {
    predicate Valid() { |amount| == 8 && |scriptPubkey| < 0x1_0000_0000 }
  }

  // write_transparent_script.
  function ScriptData(script: seq<u8>): seq<u8> { CompactSize(|script|) + script }

  // What one input adds to each hasher, and one output to the outputs hasher.
  function PrevoutOf(i: TransparentInput): seq<u8> { i.prevout }
  function SequenceOf(i: TransparentInput): seq<u8> { Le32(i.sequence) }
  function AmountOf(i: TransparentInput): seq<u8> { i.amount }
  function ScriptOf(i: TransparentInput): seq<u8> { ScriptData(i.scriptPubkey) }
  function OutputOf(o: TransparentOutput): seq<u8> { o.amount + ScriptData(o.scriptPubkey) }

  // The data of xs[k..], entry after entry.
  function Concat<T>(f: T -> seq<u8>, xs: seq<T>, k: nat): seq<u8>
    requires k <= |xs|
    decreases |xs| - k
  {
    if k == |xs| then [] else f(xs[k]) + Concat(f, xs, k + 1)
  }

  lemma {:induction false} ConcatSnoc<T>(f: T -> seq<u8>, xs: seq<T>, x: T, k: nat)
    requires k <= |xs|
    ensures Concat(f, xs + [x], k) == Concat(f, xs, k) + f(x)
    decreases |xs| - k
  {
    if k < |xs| {
      ConcatSnoc(f, xs, x, k + 1);
    } else {
      assert Concat(f, xs + [x], k + 1) == [];
    }
  }

  // The four hashers of the transparent inputs.
  datatype InputStreams = InputStreams(prevouts: seq<u8>, sequence: seq<u8>, amounts: seq<u8>, scripts: seq<u8>)

  function HeadHashed(s: InputStreams, i: TransparentInput): InputStreams {
    s.(prevouts := s.prevouts + PrevoutOf(i), sequence := s.sequence + SequenceOf(i),
       amounts := s.amounts + AmountOf(i))
  }

  function ScriptHashed(s: InputStreams, i: TransparentInput): InputStreams {
    s.(scripts := s.scripts + ScriptOf(i))
  }

  function InputsData(ins: seq<TransparentInput>): InputStreams {
    InputStreams(Concat(PrevoutOf, ins, 0), Concat(SequenceOf, ins, 0), Concat(AmountOf, ins, 0),
                 Concat(ScriptOf, ins, 0))
  }

  function OutputsData(outs: seq<TransparentOutput>): seq<u8> { Concat(OutputOf, outs, 0) }

  // Streaming an input, head first and script later, extends the data by that input.
  lemma InputsDataSnoc(ins: seq<TransparentInput>, i: TransparentInput)
    ensures InputsData(ins + [i]) == ScriptHashed(HeadHashed(InputsData(ins), i), i)
  {
    ConcatSnoc(PrevoutOf, ins, i, 0);
    ConcatSnoc(SequenceOf, ins, i, 0);
    ConcatSnoc(AmountOf, ins, i, 0);
    ConcatSnoc(ScriptOf, ins, i, 0);
  }

  lemma OutputsDataSnoc(outs: seq<TransparentOutput>, o: TransparentOutput)
    ensures OutputsData(outs + [o]) == OutputsData(outs) + o.amount + ScriptData(o.scriptPubkey)
  {
    ConcatSnoc(OutputOf, outs, o, 0);
  }

  // ---------------------------------------------------------------- coverage

  // The transaction as it was reviewed: the digest state, the transparent inputs and the
  // transparent outputs.
  datatype Content = Content(tx: TxState, inputs: seq<TransparentInput>, outputs: seq<TransparentOutput>) {
    predicate Valid() {
      && (forall i :: 0 <= i < |inputs| ==> inputs[i].Valid())
      && (forall i :: 0 <= i < |outputs| ==> outputs[i].Valid())
    }
  }

  // The global fields of a PCZT header.
  datatype Global = Global(isV6: bool, branchId: u32, locktime: u32, expiryHeight: u32)

  // The digest fields a header fixes.
  predicate HeaderTaken(t: TxState, g: Global) {
    && t.isV6 == g.isV6 && t.txVersion == V5 && t.branchId == g.branchId && t.branchIdRaw == g.branchId
    && t.locktime == g.locktime && t.expiryHeight == g.expiryHeight
  }

  function InputQueriesOf(ins: seq<TransparentInput>): seq<Query> {
    var s := InputsData(ins);
    [Query(PrevoutsPerso(), s.prevouts), Query(SequencePerso(), s.sequence),
     Query(AmountsPerso(), s.amounts), Query(ScriptsPerso(), s.scripts)]
  }

  function OutputsQuery(outs: seq<TransparentOutput>): Query { Query(OutputsPerso(), OutputsData(outs)) }

  predicate CoversInputs(h: Blake2b256, t: TxState, ins: seq<TransparentInput>) {
    var q := InputQueriesOf(ins);
    t.prevoutsHash == h(q[0]) && t.sequenceHash == h(q[1]) && t.amountsHash == h(q[2]) && t.scriptsHash == h(q[3])
  }

  predicate CoversOutputs(h: Blake2b256, t: TxState, outs: seq<TransparentOutput>) {
    t.outputsHash == h(OutputsQuery(outs))
  }

  predicate Covers(h: Blake2b256, c: Content) {
    c.Valid() && CoversInputs(h, c.tx, c.inputs) && CoversOutputs(h, c.tx, c.outputs)
  }

  // The mode a transparent input is signed in, or a shielded action when none is given.
  function SigningMode(h: Blake2b256, c: Content, input: Option<nat>): Mode
    requires input.Some? ==> input.value < |c.inputs|
  {
    if input.Some? then InputMode(h, SIGHASH_ALL, c.inputs[input.value])
    else ShieldedMode(h, |c.inputs|, |c.outputs|)
  }

  function SigningDigest(h: Blake2b256, c: Content, input: Option<nat>): Digest
    requires input.Some? ==> input.value < |c.inputs|
  {
    DigestOf(h, c.tx, SigningMode(h, c, input))
  }

  // ---------------------------------------------------------------- binding

  // Entries can be read off the front of the data, whatever follows.
  ghost predicate Readable<T(!new)>(f: T -> seq<u8>, a: seq<T>, b: seq<T>) {
    && (forall x :: x in a || x in b ==> f(x) != [])
    && (forall x, y, u, v {:trigger Reads(f, x, u, y, v)} :: x in a && y in b ==> Reads(f, x, u, y, v))
  }

  predicate Reads<T>(f: T -> seq<u8>, x: T, u: seq<u8>, y: T, v: seq<u8>) {
    f(x) + u == f(y) + v ==> f(x) == f(y) && u == v
  }

  lemma {:induction false} ConcatInjective<T(!new)>(f: T -> seq<u8>, a: seq<T>, b: seq<T>, k: nat)
    requires Readable(f, a, b) && k <= |a| && k <= |b| && Concat(f, a, k) == Concat(f, b, k)
    ensures |a| == |b| && forall i :: k <= i < |a| ==> f(a[i]) == f(b[i])
    decreases |a| - k
  {
    if k < |a| && k < |b| {
      assert a[k] in a && b[k] in b;
      assert Reads(f, a[k], Concat(f, a, k + 1), b[k], Concat(f, b, k + 1));
      ConcatInjective(f, a, b, k + 1);
    } else {
      ConcatNonEmpty(f, a, k);
      ConcatNonEmpty(f, b, k);
    }
  }

  lemma ConcatNonEmpty<T>(f: T -> seq<u8>, a: seq<T>, k: nat)
    requires k <= |a| && forall x :: x in a ==> f(x) != []
    ensures Concat(f, a, k) == [] <==> k == |a|
  {
    if k < |a| { assert a[k] in a; }
  }

  // Entries of one width.
  lemma FixedWidth<T(!new)>(f: T -> seq<u8>, a: seq<T>, b: seq<T>, n: nat)
    requires n > 0 && (forall x :: x in a || x in b ==> |f(x)| == n)
    ensures Readable(f, a, b)
  {
    forall x, y, u, v | x in a && y in b ensures Reads(f, x, u, y, v) {
      if f(x) + u == f(y) + v { SplitAt(f(x), u, f(y), v); }
    }
  }

  lemma ScriptReads(s: seq<u8>, u: seq<u8>, t: seq<u8>, v: seq<u8>)
    requires |s| < 0x1_0000_0000 && |t| < 0x1_0000_0000 && ScriptData(s) + u == ScriptData(t) + v
    ensures s == t && u == v
  {
    assert ScriptData(s) + u == CompactSize(|s|) + (s + u);
    assert ScriptData(t) + v == CompactSize(|t|) + (t + v);
    CompactSizePrefixFree(|s|, s + u, |t|, t + v);
    SplitAt(s, u, t, v);
  }

  lemma ScriptDataInjective(s: seq<u8>, t: seq<u8>)
    requires |s| < 0x1_0000_0000 && |t| < 0x1_0000_0000 && ScriptData(s) == ScriptData(t)
    ensures s == t
  {
    assert ScriptData(s) + [] == ScriptData(t) + [];
    ScriptReads(s, [], t, []);
  }

  lemma ScriptsReadable(a: seq<TransparentInput>, b: seq<TransparentInput>)
    requires (forall x :: x in a || x in b ==> x.Valid())
    ensures Readable(ScriptOf, a, b)
  {
    forall x, y, u, v | x in a && y in b ensures Reads(ScriptOf, x, u, y, v) {
      if ScriptOf(x) + u == ScriptOf(y) + v { ScriptReads(x.scriptPubkey, u, y.scriptPubkey, v); }
    }
  }

  lemma OutputReads(x: TransparentOutput, u: seq<u8>, y: TransparentOutput, v: seq<u8>)
    requires x.Valid() && y.Valid() && OutputOf(x) + u == OutputOf(y) + v
    ensures x == y && u == v
  {
    assert OutputOf(x) + u == x.amount + (ScriptData(x.scriptPubkey) + u);
    assert OutputOf(y) + v == y.amount + (ScriptData(y.scriptPubkey) + v);
    SplitAt(x.amount, ScriptData(x.scriptPubkey) + u, y.amount, ScriptData(y.scriptPubkey) + v);
    ScriptReads(x.scriptPubkey, u, y.scriptPubkey, v);
  }

  // The outputs hash data determines the outputs.
  lemma OutputsDataInjective(a: seq<TransparentOutput>, b: seq<TransparentOutput>)
    requires (forall x :: x in a || x in b ==> x.Valid()) && OutputsData(a) == OutputsData(b)
    ensures a == b
  {
    forall x, y, u, v | x in a && y in b ensures Reads(OutputOf, x, u, y, v) {
      if OutputOf(x) + u == OutputOf(y) + v { OutputReads(x, u, y, v); }
    }
    ConcatInjective(OutputOf, a, b, 0);
    forall i | 0 <= i < |a| ensures a[i] == b[i] {
      assert OutputOf(a[i]) + [] == OutputOf(b[i]) + [];
      OutputReads(a[i], [], b[i], []);
    }
  }

  lemma SameInput(x: TransparentInput, y: TransparentInput)
    requires x.Valid() && y.Valid()
    requires PrevoutOf(x) == PrevoutOf(y) && SequenceOf(x) == SequenceOf(y)
    requires AmountOf(x) == AmountOf(y) && ScriptOf(x) == ScriptOf(y)
    ensures x == y
  {
    Le32Injective(x.sequence, y.sequence);
    ScriptDataInjective(x.scriptPubkey, y.scriptPubkey);
  }

  // The data of the four input hashers determines the inputs.
  lemma InputsDataInjective(a: seq<TransparentInput>, b: seq<TransparentInput>)
    requires (forall x :: x in a || x in b ==> x.Valid()) && InputsData(a) == InputsData(b)
    ensures a == b
  {
    FixedWidth(PrevoutOf, a, b, 36);
    ConcatInjective(PrevoutOf, a, b, 0);
    FixedWidth(SequenceOf, a, b, 4);
    ConcatInjective(SequenceOf, a, b, 0);
    FixedWidth(AmountOf, a, b, 8);
    ConcatInjective(AmountOf, a, b, 0);
    ScriptsReadable(a, b);
    ConcatInjective(ScriptOf, a, b, 0);
    forall i | 0 <= i < |a| ensures a[i] == b[i] {
      SameInput(a[i], b[i]);
    }
  }

  // Every query made for a content and one of its signatures.
  function ContentQueries(h: Blake2b256, c: Content, input: Option<nat>): set<Query>
    requires input.Some? ==> input.value < |c.inputs|
  {
    var q := InputQueriesOf(c.inputs);
    Queries(h, c.tx, SigningMode(h, c, input)) + {q[0], q[1], q[2], q[3], OutputsQuery(c.outputs)}
  }

  lemma ComponentsBind(h: Blake2b256, a: Content, i: Option<nat>, b: Content, j: Option<nat>)
    requires Covers(h, a) && Covers(h, b)
    requires (i.Some? ==> i.value < |a.inputs|) && (j.Some? ==> j.value < |b.inputs|)
    requires TransparentFields(a.tx, SigningMode(h, a, i)) == TransparentFields(b.tx, SigningMode(h, b, j))
    requires !Collision(h, ContentQueries(h, a, i), ContentQueries(h, b, j))
    ensures a.inputs == b.inputs && a.outputs == b.outputs
  {
    var m := SigningMode(h, a, i);
    assert m == SigningMode(h, b, j);
    SameComponents(a.tx, b.tx, m);
    if m.NoTransparentInputs? {
      OutputsBind(h, a, i, b, j);
    } else if m.SomeTransparentInputs? {
      OutputsBind(h, a, i, b, j);
      InputsBind(h, a, i, b, j);
    }
  }

  lemma SameComponents(t: TxState, u: TxState, m: Mode)
    requires TransparentFields(t, m) == TransparentFields(u, m)
    ensures !m.NoTransparentInputsOrOutputs? ==>
              t.prevoutsHash == u.prevoutsHash && t.sequenceHash == u.sequenceHash && t.outputsHash == u.outputsHash
    ensures m.SomeTransparentInputs? ==> t.amountsHash == u.amountsHash && t.scriptsHash == u.scriptsHash
  {
    var x, y := TransparentFields(t, m).1, TransparentFields(u, m).1;
    assert forall k :: 0 <= k < |x| ==> x[k] == y[k];
    match m
    case NoTransparentInputsOrOutputs =>
    case NoTransparentInputs => assert x[0] == y[0] && x[1] == y[1] && x[2] == y[2];
    case SomeTransparentInputs(_, _) =>
      assert x[0] == y[0] && x[1] == y[1] && x[2] == y[2] && x[3] == y[3] && x[4] == y[4];
  }

  lemma OutputsBind(h: Blake2b256, a: Content, i: Option<nat>, b: Content, j: Option<nat>)
    requires Covers(h, a) && Covers(h, b) && a.tx.outputsHash == b.tx.outputsHash
    requires (i.Some? ==> i.value < |a.inputs|) && (j.Some? ==> j.value < |b.inputs|)
    requires !Collision(h, ContentQueries(h, a, i), ContentQueries(h, b, j))
    ensures a.outputs == b.outputs
  {
    assert OutputsQuery(a.outputs) in ContentQueries(h, a, i) && OutputsQuery(b.outputs) in ContentQueries(h, b, j);
    OutputsDataInjective(a.outputs, b.outputs);
  }

  lemma InputsBind(h: Blake2b256, a: Content, i: Option<nat>, b: Content, j: Option<nat>)
    requires Covers(h, a) && Covers(h, b)
    requires a.tx.prevoutsHash == b.tx.prevoutsHash && a.tx.sequenceHash == b.tx.sequenceHash
    requires a.tx.amountsHash == b.tx.amountsHash && a.tx.scriptsHash == b.tx.scriptsHash
    requires (i.Some? ==> i.value < |a.inputs|) && (j.Some? ==> j.value < |b.inputs|)
    requires !Collision(h, ContentQueries(h, a, i), ContentQueries(h, b, j))
    ensures a.inputs == b.inputs
  {
    var p, q := InputQueriesOf(a.inputs), InputQueriesOf(b.inputs);
    assert forall k :: 0 <= k < 4 ==> p[k] in ContentQueries(h, a, i) && q[k] in ContentQueries(h, b, j);
    assert p[0] == q[0] && p[1] == q[1] && p[2] == q[2] && p[3] == q[3];
    InputsDataInjective(a.inputs, b.inputs);
  }

  /**
   Two signatures over the same digest cover the same header, the same transparent inputs
   and outputs and the same shielded digests, or a hash collision is in hand.
   */
  lemma SignatureBindsContent(h: Blake2b256, a: Content, i: Option<nat>, b: Content, j: Option<nat>)
    requires Covers(h, a) && Covers(h, b)
    requires (i.Some? ==> i.value < |a.inputs|) && (j.Some? ==> j.value < |b.inputs|)
    requires SigningDigest(h, a, i) == SigningDigest(h, b, j)
    ensures || (&& a.inputs == b.inputs && a.outputs == b.outputs
                && SameCoverage(h, a.tx, SigningMode(h, a, i), b.tx, SigningMode(h, b, j)))
            || Collision(h, ContentQueries(h, a, i), ContentQueries(h, b, j))
  {
    var m, n := SigningMode(h, a, i), SigningMode(h, b, j);
    DigestBinds(h, a.tx, m, b.tx, n);
    if Collision(h, Queries(h, a.tx, m), Queries(h, b.tx, n)) {
      CollisionGrows(h, Queries(h, a.tx, m), Queries(h, b.tx, n), ContentQueries(h, a, i), ContentQueries(h, b, j));
    } else if !Collision(h, ContentQueries(h, a, i), ContentQueries(h, b, j)) {
      ComponentsBind(h, a, i, b, j);
    }
  }
}
