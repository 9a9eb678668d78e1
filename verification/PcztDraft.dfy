/**
 The part of a PCZT session the signature digests are computed from: the digest fields of
 the transaction, the transparent inputs and outputs, the streamed hashers and the cached
 digests (src/parser/pczt/transparent.rs, orchard.rs and ironwood.rs).
 */
module PcztDraft {
  import opened Outcomes
  import opened Words
  import opened Bytes
  import opened Paths
  import opened SignatureDigest
  import opened SignedContent
  import opened SigningSpec
  import opened PcztState

  datatype Draft = Draft(
    tx: TxState,
    inputs: seq<TransparentInput>,
    outputs: seq<TransparentOutput>,
    hashers: InputStreams,
    outputsHasher: seq<u8>,
    currentInput: TransparentInput,
    currentAmount: seq<u8>,
    script: seq<u8>,
    orchardDigest: Option<Digest>,    // cached signature digests
    ironwoodDigest: Option<Digest>)
  {
    function Covered(): Content { Content(tx, inputs, outputs) }

    function Cached(pool: Pool): Option<Digest> { if pool == Orchard then orchardDigest else ironwoodDigest }
  }

  function Zeros32(): Digest { Zeros(32) }

  function NewTx(g: Global): TxState {
    TxState(g.isV6, V5, g.branchId, g.branchId, g.locktime, g.expiryHeight, Zeros32(), Zeros32(), Zeros32(), Zeros32(),
            Zeros32(), Zeros32(), false, Zeros32())
  }

  function NewDraft(g: Global): Draft {
    Draft(NewTx(g), [], [], InputStreams([], [], [], []), [], TransparentInput([], [], [], 0), [], [], None, None)
  }

  // ---------------------------------------------------------------- steps

  // Prevout, sequence and amount of an input.
  function HeadRead(d: Draft, prevout: seq<u8>, sequence: u32, amount: nat): Draft {
    var i := TransparentInput(prevout, ToBytes(amount, 8), [], sequence);
    d.(currentInput := i, hashers := HeadHashed(d.hashers, i))
  }

  // Script bytes: the first part of a script replaces what was there.
  function ScriptGathered(d: Draft, first: bool, bytes: seq<u8>): Draft {
    d.(script := if first then bytes else d.script + bytes)
  }

  // The script of an input is complete.
  function InputScriptDone(d: Draft): Draft {
    var i := d.currentInput.(scriptPubkey := d.script);
    d.(currentInput := i, hashers := ScriptHashed(d.hashers, i))
  }

  function InputsFinalized(h: Blake2b256, tx: TxState, s: InputStreams): TxState {
    tx.(prevoutsHash := h(Query(PrevoutsPerso(), s.prevouts)), sequenceHash := h(Query(SequencePerso(), s.sequence)),
        amountsHash := h(Query(AmountsPerso(), s.amounts)), scriptsHash := h(Query(ScriptsPerso(), s.scripts)))
  }

  function InputsClosed(h: Blake2b256, d: Draft): Draft { d.(tx := InputsFinalized(h, d.tx, d.hashers)) }

  // The input record joins the list; the last one closes the hashers.
  function InputAdded(h: Blake2b256, d: Draft, last: bool): Draft {
    var d' := d.(inputs := d.inputs + [d.currentInput]);
    if last then InputsClosed(h, d') else d'
  }

  function AmountRead(d: Draft, amount: nat): Draft {
    d.(currentAmount := ToBytes(amount, 8), outputsHasher := d.outputsHasher + ToBytes(amount, 8))
  }

  function OutputScriptDone(d: Draft): Draft { d.(outputsHasher := d.outputsHasher + ScriptData(d.script)) }

  function CurrentOutput(d: Draft): TransparentOutput { TransparentOutput(d.currentAmount, d.script) }

  function OutputsClosed(h: Blake2b256, d: Draft): Draft {
    d.(tx := d.tx.(outputsHash := h(Query(OutputsPerso(), d.outputsHasher))))
  }

  function OutputJoined(h: Blake2b256, d: Draft, last: bool): Draft {
    var d' := d.(outputs := d.outputs + [CurrentOutput(d)]);
    if last then OutputsClosed(h, d') else d'
  }

  // The flag of an Ironwood bundle, and the digest that ends a bundle.
  function BundleFlagged(d: Draft, pool: Pool): Draft {
    if pool == Ironwood then d.(tx := d.tx.(hasIronwoodBundle := true)) else d
  }

  function BundleDigested(d: Draft, pool: Pool, digest: Digest): Draft {
    if pool == Orchard then d.(tx := d.tx.(orchardDigest := digest)) else d.(tx := d.tx.(ironwoodDigest := digest))
  }

  // A reset of the parser alone drops what the parser holds.
  function ParserCleared(d: Draft): Draft {
    d.(inputs := [], currentAmount := [], script := [], orchardDigest := None, ironwoodDigest := None)
  }

  // ---------------------------------------------------------------- invariant

  predicate InputsOpen(st: State) { st.WaitInputsCount? || InInput(st) }
  predicate OutputsOpen(st: State) { st.InputsDone? || InOutput(st) }
  predicate Closed(st: State) { st.OutputsDone? || st.Shielded? }

  // The hashers hold the recorded inputs and what was read of the current one.
  ghost predicate InputsStreamed(st: State, d: Draft) {
    var s := InputsData(d.inputs);
    d.hashers ==
      if !MidInput(st) then s
      else if st.WaitInputScript? || st.ProcessInputScript? then HeadHashed(s, d.currentInput)
      else ScriptHashed(HeadHashed(s, d.currentInput), d.currentInput)
  }

  ghost predicate OutputsStreamed(st: State, d: Draft) {
    var s := OutputsData(d.outputs);
    d.outputsHasher ==
      if !MidOutput(st) then s
      else if st.WaitOutputScript? || st.ProcessOutputScript? then s + d.currentAmount
      else s + d.currentAmount + ScriptData(d.script)
  }

  // Sizes of what is being read.
  ghost predicate CurrentOk(st: State, d: Draft) {
    && (MidInput(st) ==> |d.currentInput.prevout| == PREVOUT_SIZE && |d.currentInput.amount| == 8)
    && (st.ProcessInputScript? || st.ProcessOutputScript? || st.WaitOutputDerivation? ==> |d.script| <= MAX_SCRIPT)
    && (st.WaitInputSighashType? || st.WaitInputDerivation? ==> |d.currentInput.scriptPubkey| <= MAX_SCRIPT)
    && (MidOutput(st) ==> |d.currentAmount| == 8)
  }

  ghost predicate Streamed(h: Blake2b256, st: State, d: Draft) {
    && CurrentOk(st, d) && d.Covered().Valid()
    && (if InputsOpen(st) then InputsStreamed(st, d) && d.outputs == [] && d.outputsHasher == []
        else CoversInputs(h, d.tx, d.inputs))
    && (OutputsOpen(st) ==> OutputsStreamed(st, d))
    && (Closed(st) ==> CoversOutputs(h, d.tx, d.outputs))
  }

  ghost predicate DraftInv(h: Blake2b256, p: PcztParser, d: Draft, m: Monitor) {
    && m.txins == d.inputs && m.txouts == d.outputs
    && |d.inputs| == |p.inputs| && |d.outputs| == p.outputParsedCount
    && (Closed(p.state) ==> p.outputCount == p.outputParsedCount && p.inputCount == |p.inputs|)
    && Streamed(h, p.state, d)
    && (m.reviewed ==> Closed(p.state) && m.content == Some(d.Covered()))
    && (!m.reviewed ==> d.orchardDigest == None && d.ironwoodDigest == None)
    && (forall pool :: d.Cached(pool).Some? ==> d.Cached(pool).value == SigningDigest(h, d.Covered(), None))
  }

  // ---------------------------------------------------------------- streams

  lemma AddValidInput(d: Draft, i: TransparentInput)
    requires d.Covered().Valid() && i.Valid()
    ensures d.(inputs := d.inputs + [i]).Covered().Valid()
  {}

  lemma AddValidOutput(d: Draft, o: TransparentOutput)
    requires d.Covered().Valid() && o.Valid()
    ensures d.(outputs := d.outputs + [o]).Covered().Valid()
  {}

  lemma HeadStreams(h: Blake2b256, d: Draft, prevout: seq<u8>, sequence: u32, amount: nat)
    requires Streamed(h, WaitInput, d) && |prevout| == PREVOUT_SIZE
    ensures Streamed(h, WaitInputScript, HeadRead(d, prevout, sequence, amount))
  {}

  // One part of an input script, and the state it leads to.
  function InputScriptPart(d: Draft, st: State, bytes: seq<u8>, complete: bool): Draft {
    var d' := ScriptGathered(d, st.WaitInputScript?, bytes);
    if complete then InputScriptDone(d') else d'
  }

  function AfterInputScript(complete: bool): State { if complete then WaitInputSighashType else ProcessInputScript }

  lemma InputScriptStreams(h: Blake2b256, st: State, d: Draft, bytes: seq<u8>, complete: bool)
    requires Streamed(h, st, d) && (st.WaitInputScript? || st.ProcessInputScript?)
    requires |ScriptGathered(d, st.WaitInputScript?, bytes).script| <= MAX_SCRIPT
    ensures Streamed(h, AfterInputScript(complete), InputScriptPart(d, st, bytes, complete))
  {}

  function OutputScriptPart(d: Draft, st: State, bytes: seq<u8>, complete: bool): Draft {
    var d' := ScriptGathered(d, st.WaitOutputScript?, bytes);
    if complete then OutputScriptDone(d') else d'
  }

  function AfterOutputScript(complete: bool): State { if complete then WaitOutputDerivation else ProcessOutputScript }

  lemma OutputScriptStreams(h: Blake2b256, st: State, d: Draft, bytes: seq<u8>, complete: bool)
    requires Streamed(h, st, d) && (st.WaitOutputScript? || st.ProcessOutputScript?)
    requires |ScriptGathered(d, st.WaitOutputScript?, bytes).script| <= MAX_SCRIPT
    ensures Streamed(h, AfterOutputScript(complete), OutputScriptPart(d, st, bytes, complete))
  {}

  lemma RecordStreams(h: Blake2b256, d: Draft, last: bool)
    requires Streamed(h, WaitInputDerivation, d)
    ensures Streamed(h, if last then InputsDone else WaitInput, InputAdded(h, d, last))
  {
    AddValidInput(d, d.currentInput);
    InputsDataSnoc(d.inputs, d.currentInput);
  }

  lemma NoInputsStream(h: Blake2b256, d: Draft)
    requires Streamed(h, WaitInputsCount, d)
    ensures Streamed(h, InputsDone, InputsClosed(h, d)) && Streamed(h, WaitInput, d)
  {}

  lemma AmountStreams(h: Blake2b256, d: Draft, amount: nat)
    requires Streamed(h, WaitOutput, d)
    ensures Streamed(h, WaitOutputScript, AmountRead(d, amount))
  {}

  lemma OutputStreams(h: Blake2b256, d: Draft, last: bool)
    requires Streamed(h, WaitOutputDerivation, d)
    ensures Streamed(h, if last then OutputsDone else WaitOutput, OutputJoined(h, d, last))
  {
    AddValidOutput(d, CurrentOutput(d));
    OutputsDataSnoc(d.outputs, CurrentOutput(d));
  }

  lemma NoOutputsStream(h: Blake2b256, d: Draft)
    requires Streamed(h, InputsDone, d)
    ensures Streamed(h, OutputsDone, OutputsClosed(h, d)) && Streamed(h, WaitOutput, d)
  {}

  // Past the outputs the state no longer matters, and neither do the shielded digests.
  lemma ClosedStreams(h: Blake2b256, st: State, st': State, d: Draft)
    requires Streamed(h, st, d) && Closed(st) && Closed(st')
    ensures Streamed(h, st', d)
  {}

  lemma FlagStreams(h: Blake2b256, st: State, d: Draft, pool: Pool)
    requires Streamed(h, st, d) && Closed(st)
    ensures Streamed(h, st, BundleFlagged(d, pool))
  {}

  lemma DigestStreams(h: Blake2b256, st: State, d: Draft, pool: Pool, digest: Digest)
    requires Streamed(h, st, d) && Closed(st)
    ensures Streamed(h, st, BundleDigested(d, pool, digest))
  {}

  // ---------------------------------------------------------------- the invariant along a session

  // Steps that leave the draft, its lists and the section alone.
  ghost predicate SameSection(p: PcztParser, p': PcztParser) {
    && (p'.state == p.state || (Closed(p.state) && Closed(p'.state)))
    && |p'.inputs| == |p.inputs| && p'.inputCount == p.inputCount
    && p'.outputParsedCount == p.outputParsedCount && p'.outputCount == p.outputCount
  }

  ghost predicate SameLists(m: Monitor, m': Monitor) {
    m'.txins == m.txins && m'.txouts == m.txouts && m'.reviewed == m.reviewed && m'.content == m.content
  }

  lemma DraftKept(h: Blake2b256, p: PcztParser, p': PcztParser, d: Draft, m: Monitor, m': Monitor)
    requires DraftInv(h, p, d, m) && SameSection(p, p') && SameLists(m, m')
    ensures DraftInv(h, p', d, m')
  {
    if p'.state != p.state { ClosedStreams(h, p.state, p'.state, d); }
  }

  // Events the draft does not see.
  lemma UnseenByDraft(m: Monitor, e: Event)
    requires !e.Reset? && !e.InputRecorded? && !e.OutputRecorded? && !e.Reviewed? && !e.LegacyReviewed?
    ensures SameLists(m, Step(m, e))
  {}

  // A count ends its packet; a section without entries closes at once.
  lemma InputsStartKeepsDraft(h: Blake2b256, p: PcztParser, p': PcztParser, d: Draft, m: Monitor)
    requires DraftInv(h, p, d, m) && p.state == WaitInputsCount && (p'.state == InputsDone || p'.state == WaitInput)
    requires p'.inputs == p.inputs && p'.outputParsedCount == p.outputParsedCount
    ensures DraftInv(h, p', if p'.state == InputsDone then InputsClosed(h, d) else d, m)
  {
    NoInputsStream(h, d);
  }

  lemma OutputsStartKeepsDraft(h: Blake2b256, p: PcztParser, p': PcztParser, d: Draft, m: Monitor)
    requires DraftInv(h, p, d, m) && p.state == InputsDone && (p'.state == OutputsDone || p'.state == WaitOutput)
    requires p'.inputs == p.inputs && p'.inputCount == |p.inputs| && p'.outputParsedCount == p.outputParsedCount
    requires p'.state == OutputsDone ==> p'.outputCount == p'.outputParsedCount
    ensures DraftInv(h, p', if p'.state == OutputsDone then OutputsClosed(h, d) else d, m)
  {
    NoOutputsStream(h, d);
  }

  // A session starts with an empty draft.
  lemma NewDraftInv(h: Blake2b256, p: PcztParser, g: Global, m: Monitor)
    requires p.state == WaitInputsCount && p.inputs == [] && p.outputParsedCount == 0
    requires m.txins == [] && m.txouts == [] && !m.reviewed
    ensures DraftInv(h, p, NewDraft(g), m)
  {}

  lemma HeadKeepsDraft(h: Blake2b256, p: PcztParser, d: Draft, m: Monitor, prevout: seq<u8>, sequence: u32, amount: nat)
    requires DraftInv(h, p, d, m) && p.state == WaitInput && |prevout| == PREVOUT_SIZE
    ensures DraftInv(h, p.(state := WaitInputScript), HeadRead(d, prevout, sequence, amount),
                     Step(m, InputValue(prevout, sequence, amount)))
  {
    HeadStreams(h, d, prevout, sequence, amount);
  }

  lemma InputScriptKeepsDraft(h: Blake2b256, p: PcztParser, d: Draft, m: Monitor, bytes: seq<u8>, complete: bool)
    requires DraftInv(h, p, d, m) && (p.state.WaitInputScript? || p.state.ProcessInputScript?)
    requires |ScriptGathered(d, p.state.WaitInputScript?, bytes).script| <= MAX_SCRIPT
    ensures DraftInv(h, p.(state := AfterInputScript(complete)), InputScriptPart(d, p.state, bytes, complete),
                     Step(m, ScriptRead(bytes)))
  {
    InputScriptStreams(h, p.state, d, bytes, complete);
  }

  lemma SighashKeepsDraft(h: Blake2b256, p: PcztParser, d: Draft, m: Monitor)
    requires DraftInv(h, p, d, m) && p.state == WaitInputSighashType
    ensures DraftInv(h, p.(state := WaitInputDerivation), d, m)
  {}

  lemma InputKeepsDraft(h: Blake2b256, p: PcztParser, p': PcztParser, d: Draft, m: Monitor, path: Path)
    requires DraftInv(h, p, d, m) && p.state == WaitInputDerivation
    requires var last := |p.inputs| + 1 == p.inputCount;
             && p'.state == (if last then InputsDone else WaitInput) && |p'.inputs| == |p.inputs| + 1
             && p'.outputParsedCount == p.outputParsedCount
    ensures DraftInv(h, p', InputAdded(h, d, |p.inputs| + 1 == p.inputCount),
                     Step(m, InputRecorded(path, d.currentInput)))
  {
    RecordStreams(h, d, |p.inputs| + 1 == p.inputCount);
  }

  lemma AmountKeepsDraft(h: Blake2b256, p: PcztParser, p': PcztParser, d: Draft, m: Monitor, amount: nat)
    requires DraftInv(h, p, d, m) && p.state == WaitOutput && p'.state == WaitOutputScript
    requires |p'.inputs| == |p.inputs| && p'.outputParsedCount == p.outputParsedCount
    ensures DraftInv(h, p', AmountRead(d, amount), Step(m, OutputValue(amount)))
  {
    AmountStreams(h, d, amount);
  }

  lemma OutputScriptKeepsDraft(h: Blake2b256, p: PcztParser, d: Draft, m: Monitor, bytes: seq<u8>, complete: bool)
    requires DraftInv(h, p, d, m) && (p.state.WaitOutputScript? || p.state.ProcessOutputScript?)
    requires |ScriptGathered(d, p.state.WaitOutputScript?, bytes).script| <= MAX_SCRIPT
    ensures DraftInv(h, p.(state := AfterOutputScript(complete)), OutputScriptPart(d, p.state, bytes, complete),
                     Step(m, ScriptRead(bytes)))
  {
    OutputScriptStreams(h, p.state, d, bytes, complete);
  }

  lemma OutputKeepsDraft(h: Blake2b256, p: PcztParser, p': PcztParser, d: Draft, m: Monitor, hidden: Option<Path>)
    requires DraftInv(h, p, d, m) && p.state == WaitOutputDerivation && p.inputCount == |p.inputs|
    requires var last := p.outputCount == p.outputParsedCount + 1;
             && p'.state == (if last then OutputsDone else WaitOutput)
             && p'.inputs == p.inputs && p'.inputCount == p.inputCount
             && p'.outputParsedCount == p.outputParsedCount + 1 && p'.outputCount == p.outputCount
    ensures DraftInv(h, p', OutputJoined(h, d, p.outputCount == p.outputParsedCount + 1),
                     Step(m, OutputRecorded(hidden, CurrentOutput(d))))
  {
    OutputStreams(h, d, p.outputCount == p.outputParsedCount + 1);
  }

  // A bundle starts, or ends with its digest, before the review.
  lemma StartKeepsDraft(h: Blake2b256, p: PcztParser, p': PcztParser, d: Draft, m: Monitor, pool: Pool)
    requires DraftInv(h, p, d, m) && SameSection(p, p') && Closed(p.state) && Closed(p'.state) && !m.reviewed
    ensures DraftInv(h, p', BundleFlagged(d, pool), m)
  {
    FlagStreams(h, p.state, d, pool);
    ClosedStreams(h, p.state, p'.state, BundleFlagged(d, pool));
  }

  lemma TrailerKeepsDraft(h: Blake2b256, p: PcztParser, d: Draft, m: Monitor, pool: Pool, digest: Digest)
    requires DraftInv(h, p, d, m) && Closed(p.state) && !m.reviewed
    ensures DraftInv(h, p, BundleDigested(d, pool, digest), m)
  {
    DigestStreams(h, p.state, d, pool, digest);
  }

  // The approval is of what the draft holds, and its hashes cover it.
  lemma ReviewKeepsDraft(h: Blake2b256, p: PcztParser, p': PcztParser, d: Draft, m: Monitor, e: Event)
    requires DraftInv(h, p, d, m) && SameSection(p, p') && Closed(p.state) && Closed(p'.state)
    requires !m.reviewed && e.Reviewed? && e.content == d.Covered()
    ensures DraftInv(h, p', d, Step(m, e)) && Covers(h, d.Covered())
    ensures d.inputs == m.txins && d.outputs == m.txouts
  {
    ClosedStreams(h, p.state, p'.state, d);
  }

  // The digest a bundle's actions sign, once computed.
  function DigestCached(d: Draft, pool: Pool, digest: Digest): Draft {
    if pool == Orchard then d.(orchardDigest := Some(digest)) else d.(ironwoodDigest := Some(digest))
  }

  lemma CacheKeepsDraft(h: Blake2b256, p: PcztParser, d: Draft, m: Monitor, pool: Pool, digest: Digest)
    requires DraftInv(h, p, d, m) && m.reviewed && digest == SigningDigest(h, d.Covered(), None)
    ensures DraftInv(h, p, DigestCached(d, pool, digest), m)
  {
    var d' := DigestCached(d, pool, digest);
    assert d'.Covered() == d.Covered();
    forall q | d'.Cached(q).Some? ensures d'.Cached(q).value == SigningDigest(h, d'.Covered(), None) {
      assert q == pool || d'.Cached(q) == d.Cached(q);
    }
  }
}
