/**
 The invariant of a PCZT session: how far the parse is, what the counters count and what
 the sums hold, state by state, tied to the monitor of SigningSpec (src/parser/pczt.rs and
 its submodules, src/handlers/pczt.rs).
 */
module PcztInvariant {
  import opened Outcomes
  import opened Words
  import opened Bytes
  import opened Paths
  import SignatureDigest
  import opened SignedContent
  import opened Transaction
  import opened SigningSpec
  import opened PcztState
  import opened PcztDraft

  type Hash = SignatureDigest.Blake2b256

  function SaturatingAdd(a: nat, b: nat): nat { if a + b > U64_MAX then U64_MAX else a + b }

  // ---------------------------------------------------------------- invariants of a PCZT session

  // What a bundle adds to the transparent value: spends less outputs.
  function Net(b: Bundle): int { b.sums.spend - b.sums.output }

  // Nothing of the bundle has been parsed.
  predicate IsEmpty(b: Bundle) {
    && !b.present && b.records == [] && b.tally.signedCount == 0 && b.tally.realSpendCount == 0
    && b.valueBalance == 0 && b.sums.spend == 0 && b.sums.output == 0
  }

  ghost predicate BundleComplete(b: Bundle) {
    && b.valueBalance == Net(b)
    && (if b.present then |b.records| == b.actionCount && b.actionCount <= MAX_ACTIONS else b.records == [])
  }

  // A parser that has seen nothing.
  ghost predicate IsNew(p: PcztParser) {
    p.state == WaitHeaderAndGlobal && p.inputs == [] && p.outputParsedCount == 0 && p.totalOutputAmount == 0
      && NoBundles(p)
  }

  ghost predicate NoOutputs(p: PcztParser, t: TxInfo) {
    p.outputParsedCount == 0 && p.totalOutputAmount == 0 && t.outputs == [] && !t.isChangeFound
  }

  ghost predicate NoBundles(p: PcztParser) {
    IsEmpty(p.orchard) && IsEmpty(p.ironwood) && !p.isV6Tx && p.keyPath == None && !p.outputsReviewed && !p.pcztFinished
  }

  ghost predicate InputsComplete(p: PcztParser, s: TxSigningState) {
    |p.inputs| == p.inputCount && p.inputCount == s.totalInputs && s.totalInputs <= MAX_INPUTS
  }

  ghost predicate StepOk(p: PcztParser, t: TxInfo, pool: Pool, step: ShieldedStep) {
    var b := p.Bundle(pool);
    if step == ActionsDone then
      BundleComplete(b) && (p.outputsReviewed <==> pool == Ironwood || !t.isV6)
    else
      && b.present && !p.outputsReviewed && b.actionCount <= MAX_ACTIONS
      && b.valueBalance == 0
      && (if step == WaitTrailer then |b.records| == b.actionCount else |b.records| < b.actionCount)
      && (!step.WaitAction? && !step.WaitZip32Derivation? && !step.WaitTrailer? ==>
            p.currentPath.Some? && p.keyPath == p.currentPath && SigningPath(p.currentPath.value))
  }

  ghost predicate ShieldedPhase(p: PcztParser, t: TxInfo, s: TxSigningState, pool: Pool, step: ShieldedStep) {
    && InputsComplete(p, s)
    && (pool == Orchard ==> IsEmpty(p.ironwood))
    && (pool == Ironwood ==> t.isV6 && BundleComplete(p.orchard))
    && p.isV6Tx == p.ironwood.present
    && StepOk(p, t, pool, step)
  }

  // How far the parse is, state by state.
  ghost predicate Phase(p: PcztParser, t: TxInfo, s: TxSigningState) {
    && !p.state.WaitHeaderAndGlobal?
    && (p.pcztFinished ==> p.outputsReviewed)
    && (p.state.WaitInputsCount? ==> p.inputs == [] && s.totalInputs == 0 && NoOutputs(p, t) && NoBundles(p))
    && (InInput(p.state) ==>
          |p.inputs| < p.inputCount && p.inputCount == s.totalInputs && s.totalInputs <= MAX_INPUTS && NoOutputs(p, t)
            && NoBundles(p))
    && (p.state.InputsDone? ==> InputsComplete(p, s) && NoOutputs(p, t) && NoBundles(p))
    && (InOutput(p.state) ==>
          InputsComplete(p, s) && p.outputParsedCount < p.outputCount && p.outputCount <= MAX_OUTPUTS && NoBundles(p))
    && (p.state.OutputsDone? ==> InputsComplete(p, s) && p.outputParsedCount <= MAX_OUTPUTS && NoBundles(p))
    && (p.state.Shielded? ==> ShieldedPhase(p, t, s, p.state.pool, p.state.step))
  }

  // All the transparent inputs have been read.
  predicate InputsRead(p: PcztParser) { !p.state.WaitInputsCount? && |p.inputs| == p.inputCount }

  /**
   is_transparent_inputs_finished does not list WaitTransparentOutputScript: in a session
   it tells whether the inputs are read in every other state, and in that one it denies it.
   */
  lemma InputsFinishedExactly(p: PcztParser, t: TxInfo, s: TxSigningState)
    requires Phase(p, t, s)
    ensures p.InputsFinished() <==> InputsRead(p) && p.state != WaitOutputScript
    ensures p.state == WaitOutputScript ==> InputsRead(p)
  {}

  ghost predicate CountsOk(b: Bundle) {
    b.tally.signedCount == CountSigned(b.records) && b.tally.realSpendCount == CountReal(b.records)
      && SignedReal(b.records)
  }

  ghost predicate Counts(p: PcztParser, s: TxSigningState) {
    && s.alreadySigned == CountSigned(p.inputs)
    && (forall i :: 0 <= i < |p.inputs| ==> p.inputs[i].isReal)
    && CountsOk(p.orchard) && CountsOk(p.ironwood)
  }

  // The sums never reach the point where the saturating additions lose value, and their
  // difference is the monitor's balance.
  ghost predicate Money(p: PcztParser, t: TxInfo, m: Monitor) {
    && t.totalAmount <= MAX_MONEY * (|p.inputs| + if MidInput(p.state) then 1 else 0)
    && p.totalOutputAmount <= MAX_MONEY * (p.outputParsedCount + if MidOutput(p.state) then 1 else 0)
    && m.balance == t.totalAmount - p.totalOutputAmount
                    + Net(p.orchard) + Net(p.ironwood)
  }

  ghost predicate Mirrors(p: PcztParser, t: TxInfo, m: Monitor) {
    && m.reviewed == p.outputsReviewed && m.finished == p.pcztFinished
    && m.inputs == |p.inputs| && m.orchardActions == |p.orchard.records|
    && m.ironwoodActions == |p.ironwood.records|
    && (!m.reviewed ==>
          && m.outputs == |t.outputs| && m.visible == CountVisible(t.outputs)
          && (!t.isChangeFound ==> m.visible == m.outputs)
          && (m.shieldedPath.Some? ==> p.keyPath == m.shieldedPath))
    && (p.keyPath.Some? && !AfterHead(p.state) ==> p.keyPath == m.shieldedPath)
  }

  ghost predicate PcztInv(p: PcztParser, t: TxInfo, s: TxSigningState, m: Monitor) {
    && Phase(p, t, s) && Counts(p, s) && Money(p, t, m) && Mirrors(p, t, m)
    && SlotsMatch(p.inputs, p.orchard.records, p.ironwood.records, m.required, m.signed)
  }

  // The change account plays no part in the invariant.
  lemma ChangeKeepsInv(p: PcztParser, t: TxInfo, s: TxSigningState, m: Monitor, change: Option<u32>)
    requires PcztInv(p, t, s, m)
    ensures PcztInv(p, t.(changeAccount := change), s, m.(change := change))
  {}

  // The number of transparent inputs, then of outputs.
  function InputsCounted(p: PcztParser, n: nat): PcztParser {
    p.(inputCount := n, inputs := [], outputsReviewed := false, pcztFinished := false, orchard := Cleared(p.orchard, 0),
       state := if n == 0 then InputsDone else WaitInput)
  }

  lemma InputsStartKeepsInv(p: PcztParser, t: TxInfo, s: TxSigningState, m: Monitor, n: nat)
    requires PcztInv(p, t, s, m) && p.state == WaitInputsCount && n <= MAX_INPUTS
    ensures PcztInv(InputsCounted(p, n), t, s.(totalInputs := n), m)
  {}

  function OutputsCounted(p: PcztParser, n: nat): PcztParser {
    p.(outputCount := n, outputParsedCount := 0, totalOutputAmount := 0, outputsReviewed := false,
       pcztFinished := false, state := if n == 0 then OutputsDone else WaitOutput)
  }

  function OutputsCleared(t: TxInfo): TxInfo { t.(outputs := [], isChangeFound := false) }

  lemma OutputsStartKeepsInv(p: PcztParser, t: TxInfo, s: TxSigningState, m: Monitor, n: nat)
    requires PcztInv(p, t, s, m) && p.state == InputsDone && n <= MAX_OUTPUTS
    ensures PcztInv(OutputsCounted(p, n), OutputsCleared(t), s, m)
  {}

  // A transparent input amount enters the total.
  function InputCounted(t: TxInfo, amount: nat): TxInfo { t.(totalAmount := SaturatingAdd(t.totalAmount, amount)) }

  lemma InputValueKeepsInv(p: PcztParser, t: TxInfo, s: TxSigningState, m: Monitor, prevout: seq<u8>, sequence: u32,
                           amount: nat)
    requires PcztInv(p, t, s, m) && p.state == WaitInput && amount <= MAX_MONEY
    ensures PcztInv(p.(state := WaitInputScript), InputCounted(t, amount), s,
                    Step(m, InputValue(prevout, sequence, amount)))
  {}

  // Reading on within an input or an output.
  lemma ScriptKeepsInv(p: PcztParser, t: TxInfo, s: TxSigningState, m: Monitor, next: State, bytes: seq<u8>)
    requires PcztInv(p, t, s, m)
    requires (MidInput(p.state) && MidInput(next)) || (MidOutput(p.state) && MidOutput(next))
    ensures PcztInv(p.(state := next), t, s, Step(m, ScriptRead(bytes))) && PcztInv(p.(state := next), t, s, m)
  {}

  // The head of an action.
  lemma HeadKeepsInv(p: PcztParser, t: TxInfo, s: TxSigningState, m: Monitor, pool: Pool, spend: nat)
    requires PcztInv(p, t, s, m) && p.state == Shielded(pool, WaitAction)
    ensures PcztInv(p.(currentSpend := spend, state := Shielded(pool, WaitZip32Derivation)), t, s,
                    Step(m, ActionHeadRead(pool, spend)))
  {}

  // The record of a transparent input.
  function InputParsed(p: PcztParser, path: Path): PcztParser {
    p.(inputs := p.inputs + [Record(path, true, false)],
       state := if |p.inputs| + 1 == p.inputCount then InputsDone else WaitInput)
  }

  lemma InputKeepsInv(p: PcztParser, t: TxInfo, s: TxSigningState, m: Monitor, path: Path,
                      txin: SignatureDigest.TransparentInput)
    requires PcztInv(p, t, s, m) && p.state == WaitInputDerivation
    ensures PcztInv(InputParsed(p, path), t, s, Step(m, InputRecorded(path, txin)))
  {
    AddInput(p.inputs, p.orchard.records, p.ironwood.records, m.required, m.signed, path);
    CountSnoc(p.inputs, Record(path, true, false));
  }

  // A transparent output amount enters the total.
  function OutputCounted(p: PcztParser, amount: nat): PcztParser {
    p.(totalOutputAmount := SaturatingAdd(p.totalOutputAmount, amount), state := WaitOutputScript)
  }

  lemma OutputValueKeepsInv(p: PcztParser, t: TxInfo, s: TxSigningState, m: Monitor, amount: nat)
    requires PcztInv(p, t, s, m) && p.state == WaitOutput && amount <= MAX_MONEY
    ensures PcztInv(OutputCounted(p, amount), t, s, Step(m, OutputValue(amount)))
  {}

  // A PCZT epoch stays one until its reset.
  lemma PcztStays(m: Monitor, e: Event)
    requires m.kind == Pczt && Allowed(m, e) && e != Event.Reset
    ensures Step(m, e).kind == Pczt
    ensures e.Signed? ==> Step(m, e).change == m.change && Step(m, e).finished == !e.complete
  {}

  // One more transparent output.
  lemma OutputKeepsInv(p: PcztParser, t: TxInfo, s: TxSigningState, m: Monitor, hidden: Option<Path>,
                       txout: TransparentOutput)
    requires PcztInv(p, t, s, m) && p.state == WaitOutputDerivation && !(hidden.Some? && t.isChangeFound)
    ensures PcztInv(OutputParsed(p), OutputAdded(t, hidden.Some?), s, Step(m, OutputRecorded(hidden, txout)))
  {
    CountVisibleSnoc(t.outputs, TxOutput(hidden.Some?));
  }

  function OutputParsed(p: PcztParser): PcztParser {
    p.(outputParsedCount := p.outputParsedCount + 1,
       state := if p.outputCount == p.outputParsedCount + 1 then OutputsDone else WaitOutput)
  }

  // The derivation of an action names the path its signature will use.
  function ActionDerived(p: PcztParser, pool: Pool, path: Path): PcztParser {
    p.(currentPath := Some(path), state := Shielded(pool, WaitActionOutput))
  }

  lemma DerivedKeepsInv(p: PcztParser, t: TxInfo, s: TxSigningState, m: Monitor, pool: Pool, path: Path)
    requires PcztInv(p, t, s, m) && p.state == Shielded(pool, WaitZip32Derivation)
    requires p.keyPath == Some(path) && SigningPath(path)
    ensures PcztInv(ActionDerived(p, pool, path), t, s, m)
  {}

  // The signing record of an action joins its bundle.
  function RecordAdded(b: Bundle, path: Path, spend: nat, output: nat): Bundle {
    b.(records := b.records + [Record(path, spend != 0, false)],
       tally := Tally(b.tally.signedCount, b.tally.realSpendCount + if spend != 0 then 1 else 0),
       sums := Sums(b.sums.spend + spend, b.sums.output + output))
  }

  function ActionParsed(p: PcztParser, pool: Pool, b: Bundle): PcztParser {
    var next := Shielded(pool, if |b.records| == b.actionCount then WaitTrailer else WaitAction);
    if pool == Orchard then p.(orchard := b, currentPath := None, currentSpend := 0, state := next)
    else p.(ironwood := b, currentPath := None, currentSpend := 0, state := next)
  }

  function KindOf(recovery: Recovery): ShieldedOutput {
    match recovery
    case Internal => Hidden
    case External(_) => Shown
    case _ => Dummy
  }

  function OutputRecovered(t: TxInfo, kind: ShieldedOutput): TxInfo {
    if kind == Dummy then t else OutputAdded(t, kind == Hidden)
  }

  lemma RecordAddedCounts(b: Bundle, path: Path, spend: nat, output: nat)
    requires CountsOk(b)
    ensures CountsOk(RecordAdded(b, path, spend, output))
  {
    CountSnoc(b.records, Record(path, spend != 0, false));
  }

  // The slots after an action joined the bundle of its pool.
  ghost predicate ActionSlots(p: PcztParser, m: Monitor, pool: Pool, path: Path, spend: nat) {
    var r, slot := Record(path, spend != 0, false), Action(pool, |p.Bundle(pool).records|);
    var required := if spend == 0 then m.required else m.required[slot := path];
    if pool == Orchard then SlotsMatch(p.inputs, p.orchard.records + [r], p.ironwood.records, required, m.signed)
    else SlotsMatch(p.inputs, p.orchard.records, p.ironwood.records + [r], required, m.signed)
  }

  lemma ActionAddsSlot(p: PcztParser, m: Monitor, pool: Pool, path: Path, spend: nat)
    requires SlotsMatch(p.inputs, p.orchard.records, p.ironwood.records, m.required, m.signed)
    ensures ActionSlots(p, m, pool, path, spend)
  {
    var r := Record(path, spend != 0, false);
    match pool
    case Orchard => AddOrchard(p.inputs, p.orchard.records, p.ironwood.records, m.required, m.signed, r);
    case Ironwood => AddIronwood(p.inputs, p.orchard.records, p.ironwood.records, m.required, m.signed, r);
  }

  lemma ActionPhase(p: PcztParser, t: TxInfo, s: TxSigningState, pool: Pool, path: Path, spend: nat, output: nat,
                    kind: ShieldedOutput)
    requires Phase(p, t, s) && p.state == Shielded(pool, WaitOutputMetadata)
    ensures Phase(ActionParsed(p, pool, RecordAdded(p.Bundle(pool), path, spend, output)), OutputRecovered(t, kind), s)
  {}

  lemma ActionMirrors(p: PcztParser, t: TxInfo, m: Monitor, pool: Pool, path: Path, spend: nat, output: nat,
                      kind: ShieldedOutput)
    requires Mirrors(p, t, m) && Money(p, t, m) && p.state == Shielded(pool, WaitOutputMetadata)
    requires p.keyPath == Some(path) && !(kind == Hidden && t.isChangeFound)
    ensures var p' := ActionParsed(p, pool, RecordAdded(p.Bundle(pool), path, spend, output));
            var t' := OutputRecovered(t, kind);
            var m' := Step(m, ActionRecorded(pool, path, spend, output, kind));
            Mirrors(p', t', m') && Money(p', t', m')
  {
    CountVisibleSnoc(t.outputs, TxOutput(kind == Hidden));
  }

  lemma ActionKeepsInv(p: PcztParser, t: TxInfo, s: TxSigningState, m: Monitor, pool: Pool, path: Path,
                       spend: nat, output: nat, kind: ShieldedOutput)
    requires PcztInv(p, t, s, m) && p.state == Shielded(pool, WaitOutputMetadata) && p.currentPath == Some(path)
    requires !(kind == Hidden && t.isChangeFound)
    ensures PcztInv(ActionParsed(p, pool, RecordAdded(p.Bundle(pool), path, spend, output)),
                    OutputRecovered(t, kind), s, Step(m, ActionRecorded(pool, path, spend, output, kind)))
  {
    RecordAddedCounts(p.Bundle(pool), path, spend, output);
    ActionAddsSlot(p, m, pool, path, spend);
    ActionPhase(p, t, s, pool, path, spend, output, kind);
    ActionMirrors(p, t, m, pool, path, spend, output, kind);
  }

  // reset_orchard_bundle_state and its Ironwood twin.
  function Cleared(b: Bundle, n: nat): Bundle { Bundle(b.present, n, [], Tally(0, 0), 0, Sums(0, 0)) }

  // The first packet of a bundle.
  function BundleStarted(p: PcztParser, pool: Pool, n: nat): PcztParser {
    if pool == Orchard then
      p.(orchard := Bundle.Bundle(true, n, [], Tally(0, 0), 0, Sums(0, 0)), pcztFinished := false,
         state := Shielded(Orchard, WaitAction))
    else
      p.(ironwood := Bundle.Bundle(true, n, [], Tally(0, 0), 0, Sums(0, 0)), pcztFinished := false, isV6Tx := true,
         state := Shielded(Ironwood, WaitAction))
  }

  // Where the bundle of a pool may start.
  predicate StartsBundle(p: PcztParser, pool: Pool) {
    p.state == if pool == Orchard then OutputsDone else Shielded(Orchard, ActionsDone)
  }

  lemma StartKeepsInv(p: PcztParser, t: TxInfo, s: TxSigningState, m: Monitor, pool: Pool, n: nat)
    requires PcztInv(p, t, s, m) && StartsBundle(p, pool) && (pool == Ironwood ==> t.isV6) && 0 < n <= MAX_ACTIONS
    ensures PcztInv(BundleStarted(p, pool, n), t, s, m)
  {
    match pool
    case Orchard => assert p.orchard.records == [];
    case Ironwood => assert p.ironwood.records == [];
  }

  // The bundle of a pool closed with its value balance.
  function BundleClosed(p: PcztParser, pool: Pool, balance: int): PcztParser {
    if pool == Orchard then
      p.(orchard := p.orchard.(valueBalance := balance), state := Shielded(Orchard, ActionsDone))
    else
      p.(ironwood := p.ironwood.(valueBalance := balance), state := Shielded(Ironwood, ActionsDone))
  }

  // A bundle is ready to close: all actions are in, or it is empty.
  ghost predicate Closable(p: PcztParser, t: TxInfo, pool: Pool) {
    || p.state == Shielded(pool, WaitTrailer)
    || (StartsBundle(p, pool) && IsEmpty(p.Bundle(pool)) && !p.pcztFinished && (pool == Ironwood ==> t.isV6))
  }

  predicate DefersReview(t: TxInfo, pool: Pool) { pool == Orchard && t.isV6 }

  lemma CloseKeepsInv(p: PcztParser, t: TxInfo, s: TxSigningState, m: Monitor, pool: Pool, balance: int)
    requires PcztInv(p, t, s, m) && Closable(p, t, pool) && DefersReview(t, pool)
    requires balance == Net(p.Bundle(pool))
    ensures PcztInv(BundleClosed(p, pool, balance), t, s, m)
  {}

  function Approved(p: PcztParser): PcztParser {
    p.(outputsReviewed := true, keyPath := if p.ShieldedDone() then None else p.keyPath)
  }

  // What the review computes as the fee.
  function Fees(p: PcztParser, t: TxInfo): int {
    t.totalAmount + p.orchard.valueBalance + p.ironwood.valueBalance - p.totalOutputAmount
  }

  lemma ReviewKeepsInv(p: PcztParser, t: TxInfo, t': TxInfo, s: TxSigningState, m: Monitor, pool: Pool, balance: int,
                       e: Event)
    requires PcztInv(p, t, s, m) && Closable(p, t, pool) && !DefersReview(t, pool) && t' == t.(outputs := t'.outputs)
    requires balance == Net(p.Bundle(pool)) && e.Reviewed?
    ensures Fees(BundleClosed(p, pool, balance), t) == m.balance && !m.reviewed
    ensures PcztInv(Approved(BundleClosed(p, pool, balance)), t', s, Step(m, e))
  {}

  // A session starts with nothing parsed.
  lemma FreshSession(p: PcztParser, t: TxInfo, s: TxSigningState, m: Monitor, g: Global)
    requires p.state == WaitInputsCount && p.inputs == [] && p.outputParsedCount == 0 && p.totalOutputAmount == 0
             && NoBundles(p)
    requires t.outputs == [] && !t.isChangeFound && t.totalAmount == 0 && s == NEW_SIGNING
    requires IsFresh(m)
    ensures PcztInv(p, t, s, Step(m, PcztStarted(g)))
  {
    forall slot ensures SlotMatches(Entries(p.inputs, p.orchard.records, p.ironwood.records, slot), m.required,
                                    m.signed, slot) {}
  }

  // are_pczt_signatures_done.
  predicate SignaturesDone(p: PcztParser, s: TxSigningState) {
    (s.totalInputs == 0 || s.alreadySigned >= s.totalInputs) && p.ShieldedDone()
  }

  lemma {:induction false} AllReal(rs: seq<Record>, k: nat)
    requires k <= |rs| && forall i :: 0 <= i < |rs| ==> rs[i].isReal
    ensures RealBelow(rs, k) == k
  {
    if k > 0 { AllReal(rs, k - 1); }
  }

  lemma BundleDone(b: Bundle)
    requires CountsOk(b) && (!b.present ==> b.records == [])
    ensures Done(b) <==> AllSigned(b.records)
  {
    CountsDecide(b.records);
  }

  // The counters tell exactly when every slot is signed.
  lemma DoneDecides(p: PcztParser, s: TxSigningState, required: map<Slot, Path>, signed: set<Slot>)
    requires Counts(p, s) && InputsComplete(p, s)
             && SlotsMatch(p.inputs, p.orchard.records, p.ironwood.records, required, signed)
    requires (!p.orchard.present ==> p.orchard.records == []) && (!p.ironwood.present ==> p.ironwood.records == [])
    ensures SignaturesDone(p, s) <==> signed == required.Keys
  {
    CountsDecide(p.inputs);
    AllReal(p.inputs, |p.inputs|);
    BundleDone(p.orchard);
    BundleDone(p.ironwood);
    DoneIsComplete(p.inputs, p.orchard.records, p.ironwood.records, required, signed);
  }

  // Reviewed outputs mean a fully parsed transaction.
  lemma ReviewedIsParsed(p: PcztParser, t: TxInfo, s: TxSigningState)
    requires Phase(p, t, s) && p.outputsReviewed
    ensures p.state.Shielded? && p.state.step == ActionsDone && InputsComplete(p, s)
    ensures (!p.orchard.present ==> p.orchard.records == []) && (!p.ironwood.present ==> p.ironwood.records == [])
  {}

  function InputSigned(p: PcztParser, i: nat): PcztParser
    requires i < |p.inputs|
  {
    p.(inputs := Mark(p.inputs, i))
  }

  function SignatureCounted(s: TxSigningState): TxSigningState { s.(alreadySigned := SaturatingInc(s.alreadySigned)) }

  lemma SignInputKeepsInv(p: PcztParser, t: TxInfo, s: TxSigningState, m: Monitor, i: nat, e: Event)
    requires PcztInv(p, t, s, m) && p.IsFinished() && i < |p.inputs| && !p.inputs[i].signed
    requires e.Signed? && e.slot == Transparent(i)
    ensures Transparent(i) in m.required && m.required[Transparent(i)] == p.inputs[i].path
            && Transparent(i) !in m.signed
    ensures var p', s' := InputSigned(p, i), SignatureCounted(s);
            && (SignaturesDone(p', s') <==> m.signed + {Transparent(i)} == m.required.Keys)
            && (!SignaturesDone(p', s') && !e.complete ==> PcztInv(p', t, s', Step(m, e)))
  {
    var p', s' := InputSigned(p, i), SignatureCounted(s);
    ReviewedIsParsed(p, t, s);
    assert SlotMatches(Entries(p.inputs, p.orchard.records, p.ironwood.records, Transparent(i)), m.required, m.signed,
                       Transparent(i));
    MarkInput(p.inputs, p.orchard.records, p.ironwood.records, m.required, m.signed, i);
    CountMark(p.inputs, i);
    CountsDecide(p.inputs);
    assert Counts(p', s');
    DoneDecides(p', s', m.required, m.signed + {Transparent(i)});
  }

  function EntrySigned(b: Bundle, i: nat): Bundle
    requires i < |b.records|
  {
    b.(records := Mark(b.records, i), tally := Tally(SaturatingInc(b.tally.signedCount), b.tally.realSpendCount))
  }

  // mark_orchard_action_signed and its Ironwood twin: the key is released with the last
  // shielded signature.
  function WithSignedBundle(p: PcztParser, pool: Pool, b: Bundle): PcztParser {
    if pool == Orchard then p.(orchard := b, keyPath := if Done(b) && Done(p.ironwood) then None else p.keyPath)
    else p.(ironwood := b, keyPath := if Done(p.orchard) && Done(b) then None else p.keyPath)
  }

  lemma EntrySignedCounts(b: Bundle, i: nat)
    requires CountsOk(b) && i < |b.records| && b.records[i].isReal && !b.records[i].signed && |b.records| <= MAX_ACTIONS
    ensures CountsOk(EntrySigned(b, i))
  {
    CountMark(b.records, i);
    CountsDecide(b.records);
  }

  lemma SignActionKeepsInv(p: PcztParser, t: TxInfo, s: TxSigningState, m: Monitor, pool: Pool, i: nat, e: Event)
    requires PcztInv(p, t, s, m) && p.IsFinished() && |p.Bundle(pool).records| <= MAX_ACTIONS
    requires i < |p.Bundle(pool).records| && p.Bundle(pool).records[i].isReal && !p.Bundle(pool).records[i].signed
    requires e.Signed? && e.slot == Action(pool, i)
    ensures var slot := Action(pool, i);
            slot in m.required && m.required[slot] == p.Bundle(pool).records[i].path && slot !in m.signed
    ensures var p' := WithSignedBundle(p, pool, EntrySigned(p.Bundle(pool), i));
            && (SignaturesDone(p', s) <==> m.signed + {Action(pool, i)} == m.required.Keys)
            && (!SignaturesDone(p', s) && !e.complete ==> PcztInv(p', t, s, Step(m, e)))
  {
    var b, slot := p.Bundle(pool), Action(pool, i);
    var p' := WithSignedBundle(p, pool, EntrySigned(b, i));
    ReviewedIsParsed(p, t, s);
    assert SlotMatches(Entries(p.inputs, p.orchard.records, p.ironwood.records, slot), m.required, m.signed, slot);
    EntrySignedCounts(b, i);
    match pool {
      case Orchard => MarkOrchard(p.inputs, p.orchard.records, p.ironwood.records, m.required, m.signed, i);
      case Ironwood => MarkIronwood(p.inputs, p.orchard.records, p.ironwood.records, m.required, m.signed, i);
    }
    DoneDecides(p', s, m.required, m.signed + {slot});
  }

  lemma FinishKeepsInv(p: PcztParser, t: TxInfo, s: TxSigningState, m: Monitor)
    requires PcztInv(p, t, s, m) && p.outputsReviewed
    ensures PcztInv(p.(pcztFinished := true), t, s, Step(m, Finished))
  {}

  // ---------------------------------------------------------------- what is being read

  // The action whose head has been read is not recorded yet.
  predicate AfterHead(st: State) { st.Shielded? && (st.step.WaitZip32Derivation? || MidAction(st)) }

  // Between the derivation of an action and its output metadata.
  predicate MidAction(st: State) {
    st.Shielded? && !st.step.WaitAction? && !st.step.WaitZip32Derivation? && !st.step.WaitTrailer?
      && !st.step.ActionsDone?
  }

  ghost predicate InputInReading(st: State, d: Draft, r: Option<Reading>) {
    && r.Some? && r.value.InputReading?
    && d.currentInput.prevout == r.value.prevout && d.currentInput.sequence == r.value.sequence
    && |d.currentInput.amount| == 8 && BytesVal(d.currentInput.amount) == r.value.amount
    && r.value.script == if st.WaitInputScript? then [] else if st.ProcessInputScript? then d.script
                         else d.currentInput.scriptPubkey
  }

  ghost predicate OutputInReading(st: State, d: Draft, r: Option<Reading>) {
    && r.Some? && r.value.OutputReading?
    && |d.currentAmount| == 8 && BytesVal(d.currentAmount) == r.value.amount
    && r.value.script == if st.WaitOutputScript? then [] else d.script
  }

  // The monitor knows the header, the entry being read and the head of the action.
  ghost predicate ReadingInv(p: PcztParser, d: Draft, m: Monitor) {
    && m.header.Some? && HeaderTaken(d.tx, m.header.value)
    && (if MidInput(p.state) then InputInReading(p.state, d, m.reading)
        else if MidOutput(p.state) then OutputInReading(p.state, d, m.reading)
        else m.reading == None)
    && m.head == if AfterHead(p.state) then Some(Head(p.state.pool, p.currentSpend)) else None
  }

  ghost predicate SameHeader(t: SignatureDigest.TxState, u: SignatureDigest.TxState) {
    && u.isV6 == t.isV6 && u.txVersion == t.txVersion && u.branchId == t.branchId && u.branchIdRaw == t.branchIdRaw
    && u.locktime == t.locktime && u.expiryHeight == t.expiryHeight
  }

  ghost predicate SameReading(m: Monitor, m': Monitor) {
    m'.header == m.header && m'.reading == m.reading && m'.head == m.head
  }

  predicate Between(st: State) { !MidInput(st) && !MidOutput(st) && !AfterHead(st) }

  // Nothing is being read, before and after.
  lemma ReadingRests(p: PcztParser, p': PcztParser, d: Draft, d': Draft, m: Monitor, m': Monitor)
    requires ReadingInv(p, d, m) && SameReading(m, m') && SameHeader(d.tx, d'.tx) && Between(p.state)
             && Between(p'.state)
    ensures ReadingInv(p', d', m')
  {}

  // Steps within an action.
  lemma ReadingGoesOn(p: PcztParser, p': PcztParser, d: Draft, d': Draft, m: Monitor, m': Monitor)
    requires ReadingInv(p, d, m) && SameReading(m, m') && SameHeader(d.tx, d'.tx)
    requires AfterHead(p.state) && AfterHead(p'.state) && p'.state.pool == p.state.pool
             && p'.currentSpend == p.currentSpend
    ensures ReadingInv(p', d', m')
  {}

  // The state does not change, nor what is being read.
  lemma ReadingStands(p: PcztParser, p': PcztParser, d: Draft, m: Monitor, m': Monitor)
    requires ReadingInv(p, d, m) && SameReading(m, m') && p'.state == p.state && p'.currentSpend == p.currentSpend
    ensures ReadingInv(p', d, m')
  {}

  // Events that are no part of a reading.
  lemma UnseenByReading(m: Monitor, e: Event)
    requires e.ChangeRecorded? || e.Reviewed? || e.Finished? || e.Signed?
    ensures SameReading(m, Step(m, e))
  {}

  lemma AmountBytes(amount: nat)
    requires amount <= MAX_MONEY
    ensures BytesVal(ToBytes(amount, 8)) == amount
  {
    assert Pow256(4) == 0x1_0000_0000;
    assert Pow256(8) == 0x1_0000_0000_0000_0000;
    ToBytesVal(amount, 8);
  }

  lemma HeadReads(p: PcztParser, d: Draft, m: Monitor, prevout: seq<u8>, sequence: u32, amount: nat)
    requires ReadingInv(p, d, m) && p.state == WaitInput && amount <= MAX_MONEY
    ensures ReadingInv(p.(state := WaitInputScript), HeadRead(d, prevout, sequence, amount),
                       Step(m, InputValue(prevout, sequence, amount)))
  {
    AmountBytes(amount);
  }

  lemma InputScriptReads(p: PcztParser, d: Draft, m: Monitor, bytes: seq<u8>, complete: bool)
    requires ReadingInv(p, d, m) && (p.state.WaitInputScript? || p.state.ProcessInputScript?)
    ensures ReadingInv(p.(state := AfterInputScript(complete)), InputScriptPart(d, p.state, bytes, complete),
                       Step(m, ScriptRead(bytes)))
  {
    assert [] + bytes == bytes;
  }

  lemma SighashReads(p: PcztParser, d: Draft, m: Monitor)
    requires ReadingInv(p, d, m) && p.state == WaitInputSighashType
    ensures ReadingInv(p.(state := WaitInputDerivation), d, m)
  {}

  lemma InputReads(h: Hash, p: PcztParser, p': PcztParser, d: Draft, m: Monitor, path: Path, last: bool)
    requires ReadingInv(p, d, m) && p.state == WaitInputDerivation && Between(p'.state)
    ensures InputAsRead(m.reading, d.currentInput)
    ensures ReadingInv(p', InputAdded(h, d, last), Step(m, InputRecorded(path, d.currentInput)))
  {}

  lemma AmountReads(p: PcztParser, d: Draft, m: Monitor, amount: nat)
    requires ReadingInv(p, d, m) && p.state == WaitOutput && amount <= MAX_MONEY
    ensures ReadingInv(OutputCounted(p, amount), AmountRead(d, amount), Step(m, OutputValue(amount)))
  {
    AmountBytes(amount);
  }

  lemma OutputScriptReads(p: PcztParser, d: Draft, m: Monitor, bytes: seq<u8>, complete: bool)
    requires ReadingInv(p, d, m) && (p.state.WaitOutputScript? || p.state.ProcessOutputScript?)
    ensures ReadingInv(p.(state := AfterOutputScript(complete)), OutputScriptPart(d, p.state, bytes, complete),
                       Step(m, ScriptRead(bytes)))
  {
    assert [] + bytes == bytes;
  }

  lemma OutputReads(h: Hash, p: PcztParser, p': PcztParser, d: Draft, m: Monitor, hidden: Option<Path>, last: bool)
    requires ReadingInv(p, d, m) && p.state == WaitOutputDerivation && Between(p'.state)
    ensures OutputAsRead(m.reading, CurrentOutput(d))
    ensures ReadingInv(p', OutputJoined(h, d, last), Step(m, OutputRecorded(hidden, CurrentOutput(d))))
  {}

  lemma ActionReads(p: PcztParser, p': PcztParser, d: Draft, m: Monitor, e: Event)
    requires ReadingInv(p, d, m) && AfterHead(p.state) && e.ActionRecorded? && Between(p'.state)
    ensures m.head == Some(Head(p.state.pool, p.currentSpend)) && m.reading == None
    ensures ReadingInv(p', d, Step(m, e))
  {}

  // ---------------------------------------------------------------- the whole invariant

  // The invariant has three sides: what is parsed and counted, what the digests cover, and
  // what is being read.
  datatype Side = Bookkeeping | Digesting | InProgress

  ghost predicate Holds(side: Side, h: Hash, p: PcztParser, t: TxInfo, s: TxSigningState, d: Draft, m: Monitor)
  {
    match side
    case Bookkeeping => PcztInv(p, t, s, m)
    case Digesting => DraftInv(h, p, d, m) && d.tx.isV6 == t.isV6
    case InProgress => ReadingInv(p, d, m)
  }

  ghost predicate SessionOk(h: Hash, p: PcztParser, t: TxInfo, s: TxSigningState, d: Draft, m: Monitor)
  {
    forall side {:trigger Holds(side, h, p, t, s, d, m)} :: Holds(side, h, p, t, s, d, m)
  }

  lemma Open(h: Hash, p: PcztParser, t: TxInfo, s: TxSigningState, d: Draft, m: Monitor)
    requires SessionOk(h, p, t, s, d, m)
    ensures PcztInv(p, t, s, m) && DraftInv(h, p, d, m) && d.tx.isV6 == t.isV6
  {
    assert Holds(Bookkeeping, h, p, t, s, d, m) && Holds(Digesting, h, p, t, s, d, m);
  }

  lemma OpenReading(h: Hash, p: PcztParser, t: TxInfo, s: TxSigningState, d: Draft, m: Monitor)
    requires SessionOk(h, p, t, s, d, m)
    ensures ReadingInv(p, d, m)
  {
    assert Holds(InProgress, h, p, t, s, d, m);
  }

  lemma Close(h: Hash, p: PcztParser, t: TxInfo, s: TxSigningState, d: Draft, m: Monitor)
    requires PcztInv(p, t, s, m) && DraftInv(h, p, d, m) && d.tx.isV6 == t.isV6 && ReadingInv(p, d, m)
    ensures SessionOk(h, p, t, s, d, m)
  {}

  // An event the digests do not see, within one section.
  lemma UnseenKeeps(h: Hash, p: PcztParser, p': PcztParser, t: TxInfo, t': TxInfo,
                    s: TxSigningState, s': TxSigningState, d: Draft, m: Monitor, e: Event)
    requires SessionOk(h, p, t, s, d, m) && PcztInv(p', t', s', Step(m, e)) && SameSection(p, p') && t'.isV6 == t.isV6
    requires !e.Reset? && !e.InputRecorded? && !e.OutputRecorded? && !e.Reviewed? && !e.LegacyReviewed?
    requires ReadingInv(p', d, Step(m, e))
    ensures SessionOk(h, p', t', s', d, Step(m, e))
  {
    assert Holds(Digesting, h, p, t, s, d, m);
    UnseenByDraft(m, e);
    DraftKept(h, p, p', d, m, Step(m, e));
    Close(h, p', t', s', d, Step(m, e));
  }

  // A step of the parser within one section, without an event.
  lemma StepKeeps(h: Hash, p: PcztParser, p': PcztParser, t: TxInfo, s: TxSigningState, d: Draft, m: Monitor)
    requires SessionOk(h, p, t, s, d, m) && PcztInv(p', t, s, m) && SameSection(p, p') && ReadingInv(p', d, m)
    ensures SessionOk(h, p', t, s, d, m)
  {
    assert Holds(Digesting, h, p, t, s, d, m);
    DraftKept(h, p, p', d, m, m);
    Close(h, p', t, s, d, m);
  }

  // A session has seen its header.
  lemma SessionStarted(h: Hash, p: PcztParser, t: TxInfo, s: TxSigningState, d: Draft, m: Monitor)
    requires SessionOk(h, p, t, s, d, m)
    ensures !p.state.WaitHeaderAndGlobal?
  {
    Open(h, p, t, s, d, m);
  }

  // An entry is awaited only while there is room for it.
  lemma RoomLeft(h: Hash, p: PcztParser, t: TxInfo, s: TxSigningState, d: Draft, m: Monitor)
    requires SessionOk(h, p, t, s, d, m)
    ensures p.state == WaitInput ==> |p.inputs| < p.inputCount
    ensures p.state == WaitOutput ==> p.outputParsedCount < p.outputCount
  {
    Open(h, p, t, s, d, m);
  }

  // ---------------------------------------------------------------- steps of a session

  lemma InputsStartStep(h: Hash, p: PcztParser, t: TxInfo, s: TxSigningState, d: Draft, m: Monitor, n: nat)
    requires SessionOk(h, p, t, s, d, m) && p.state == WaitInputsCount && n <= MAX_INPUTS
    ensures SessionOk(h, InputsCounted(p, n), t, s.(totalInputs := n), if n == 0 then InputsClosed(h, d) else d, m)
  {
    Open(h, p, t, s, d, m);
    OpenReading(h, p, t, s, d, m);
    ReadingRests(p, InputsCounted(p, n), d, if n == 0 then InputsClosed(h, d) else d, m, m);
    InputsStartKeepsInv(p, t, s, m, n);
    InputsStartKeepsDraft(h, p, InputsCounted(p, n), d, m);
    Close(h, InputsCounted(p, n), t, s.(totalInputs := n), if n == 0 then InputsClosed(h, d) else d, m);
  }

  lemma InputHeadStep(h: Hash, p: PcztParser, t: TxInfo, s: TxSigningState, d: Draft, m: Monitor,
                      prevout: seq<u8>, sequence: u32, amount: nat)
    requires SessionOk(h, p, t, s, d, m) && m.kind == Pczt && p.state == WaitInput
    requires |prevout| == PREVOUT_SIZE && amount <= MAX_MONEY
    ensures t.totalAmount + amount <= U64_MAX
    ensures var e := InputValue(prevout, sequence, amount);
            && Allowed(m, e)
            && SessionOk(h, p.(state := WaitInputScript), InputCounted(t, amount), s,
                         HeadRead(d, prevout, sequence, amount), Step(m, e))
  {
    Open(h, p, t, s, d, m);
    OpenReading(h, p, t, s, d, m);
    HeadReads(p, d, m, prevout, sequence, amount);
    InputValueKeepsInv(p, t, s, m, prevout, sequence, amount);
    HeadKeepsDraft(h, p, d, m, prevout, sequence, amount);
    Close(h, p.(state := WaitInputScript), InputCounted(t, amount), s, HeadRead(d, prevout, sequence, amount),
          Step(m, InputValue(prevout, sequence, amount)));
  }

  lemma InputScriptStep(h: Hash, p: PcztParser, t: TxInfo, s: TxSigningState, d: Draft, m: Monitor, bytes: seq<u8>,
                        complete: bool)
    requires SessionOk(h, p, t, s, d, m) && m.kind == Pczt && (p.state.WaitInputScript? || p.state.ProcessInputScript?)
    requires |ScriptGathered(d, p.state.WaitInputScript?, bytes).script| <= MAX_SCRIPT
    ensures Allowed(m, ScriptRead(bytes))
    ensures SessionOk(h, p.(state := AfterInputScript(complete)), t, s, InputScriptPart(d, p.state, bytes, complete),
                      Step(m, ScriptRead(bytes)))
  {
    Open(h, p, t, s, d, m);
    OpenReading(h, p, t, s, d, m);
    InputScriptReads(p, d, m, bytes, complete);
    ScriptKeepsInv(p, t, s, m, AfterInputScript(complete), bytes);
    InputScriptKeepsDraft(h, p, d, m, bytes, complete);
    Close(h, p.(state := AfterInputScript(complete)), t, s, InputScriptPart(d, p.state, bytes, complete),
          Step(m, ScriptRead(bytes)));
  }

  lemma SighashStep(h: Hash, p: PcztParser, t: TxInfo, s: TxSigningState, d: Draft, m: Monitor)
    requires SessionOk(h, p, t, s, d, m) && p.state == WaitInputSighashType
    ensures SessionOk(h, p.(state := WaitInputDerivation), t, s, d, m)
  {
    Open(h, p, t, s, d, m);
    OpenReading(h, p, t, s, d, m);
    SighashReads(p, d, m);
    ScriptKeepsInv(p, t, s, m, WaitInputDerivation, []);
    SighashKeepsDraft(h, p, d, m);
    Close(h, p.(state := WaitInputDerivation), t, s, d, m);
  }

  lemma InputStep(h: Hash, p: PcztParser, t: TxInfo, s: TxSigningState, d: Draft, m: Monitor, path: Path)
    requires SessionOk(h, p, t, s, d, m) && m.kind == Pczt && p.state == WaitInputDerivation && SigningPath(path)
    ensures var e, p' := InputRecorded(path, d.currentInput), InputParsed(p, path);
            Allowed(m, e) && SessionOk(h, p', t, s, InputAdded(h, d, p'.state == InputsDone), Step(m, e))
  {
    Open(h, p, t, s, d, m);
    OpenReading(h, p, t, s, d, m);
    InputReads(h, p, InputParsed(p, path), d, m, path, InputParsed(p, path).state == InputsDone);
    var e, p' := InputRecorded(path, d.currentInput), InputParsed(p, path);
    InputKeepsInv(p, t, s, m, path, d.currentInput);
    InputKeepsDraft(h, p, p', d, m, path);
    Close(h, p', t, s, InputAdded(h, d, p'.state == InputsDone), Step(m, e));
  }

  lemma OutputsStartStep(h: Hash, p: PcztParser, t: TxInfo, s: TxSigningState, d: Draft, m: Monitor, n: nat)
    requires SessionOk(h, p, t, s, d, m) && p.state == InputsDone && n <= MAX_OUTPUTS
    ensures SessionOk(h, OutputsCounted(p, n), OutputsCleared(t), s, if n == 0 then OutputsClosed(h, d) else d, m)
  {
    Open(h, p, t, s, d, m);
    OpenReading(h, p, t, s, d, m);
    ReadingRests(p, OutputsCounted(p, n), d, if n == 0 then OutputsClosed(h, d) else d, m, m);
    OutputsStartKeepsInv(p, t, s, m, n);
    OutputsStartKeepsDraft(h, p, OutputsCounted(p, n), d, m);
    Close(h, OutputsCounted(p, n), OutputsCleared(t), s, if n == 0 then OutputsClosed(h, d) else d, m);
  }

  lemma OutputHeadStep(h: Hash, p: PcztParser, t: TxInfo, s: TxSigningState, d: Draft, m: Monitor, amount: nat)
    requires SessionOk(h, p, t, s, d, m) && m.kind == Pczt && p.state == WaitOutput && amount <= MAX_MONEY
    ensures p.totalOutputAmount + amount <= U64_MAX
    ensures var e := OutputValue(amount);
            Allowed(m, e) && SessionOk(h, OutputCounted(p, amount), t, s, AmountRead(d, amount), Step(m, e))
  {
    Open(h, p, t, s, d, m);
    OpenReading(h, p, t, s, d, m);
    AmountReads(p, d, m, amount);
    OutputValueKeepsInv(p, t, s, m, amount);
    AmountKeepsDraft(h, p, OutputCounted(p, amount), d, m, amount);
    Close(h, OutputCounted(p, amount), t, s, AmountRead(d, amount), Step(m, OutputValue(amount)));
  }

  lemma OutputScriptStep(h: Hash, p: PcztParser, t: TxInfo, s: TxSigningState, d: Draft, m: Monitor, bytes: seq<u8>,
                         complete: bool)
    requires SessionOk(h, p, t, s, d, m) && m.kind == Pczt
             && (p.state.WaitOutputScript? || p.state.ProcessOutputScript?)
    requires |ScriptGathered(d, p.state.WaitOutputScript?, bytes).script| <= MAX_SCRIPT
    ensures Allowed(m, ScriptRead(bytes))
    ensures SessionOk(h, p.(state := AfterOutputScript(complete)), t, s, OutputScriptPart(d, p.state, bytes, complete),
                      Step(m, ScriptRead(bytes)))
  {
    Open(h, p, t, s, d, m);
    OpenReading(h, p, t, s, d, m);
    OutputScriptReads(p, d, m, bytes, complete);
    ScriptKeepsInv(p, t, s, m, AfterOutputScript(complete), bytes);
    OutputScriptKeepsDraft(h, p, d, m, bytes, complete);
    Close(h, p.(state := AfterOutputScript(complete)), t, s, OutputScriptPart(d, p.state, bytes, complete),
          Step(m, ScriptRead(bytes)));
  }

  // An output, an action or a trailer in progress precedes the review.
  lemma BeforeReview(h: Hash, p: PcztParser, t: TxInfo, s: TxSigningState, d: Draft, m: Monitor)
    requires SessionOk(h, p, t, s, d, m)
    ensures p.state == WaitOutputDerivation || (p.state.Shielded? && !p.state.step.ActionsDone?) ==> !p.outputsReviewed
    ensures m.reviewed == p.outputsReviewed && m.finished == p.pcztFinished
    ensures p.outputsReviewed ==>
              p.state.Shielded? && p.state.step == ActionsDone && InputsComplete(p, s) && m.content == Some(d.Covered())
    ensures |d.inputs| == |p.inputs|
  {
    Open(h, p, t, s, d, m);
  }

  lemma AccountStep(h: Hash, p: PcztParser, t: TxInfo, s: TxSigningState, d: Draft, m: Monitor, account: u32)
    requires SessionOk(h, p, t, s, d, m) && m.kind == Pczt && !p.outputsReviewed
    requires m.change == None || m.change == Some(account)
    ensures var e := ChangeRecorded(account);
            Allowed(m, e) && SessionOk(h, p, t.(changeAccount := Some(account)), s, d, Step(m, e))
  {
    Open(h, p, t, s, d, m);
    OpenReading(h, p, t, s, d, m);
    UnseenByReading(m, ChangeRecorded(account));
    ReadingStands(p, p, d, m, Step(m, ChangeRecorded(account)));
    ChangeKeepsInv(p, t, s, m, Some(account));
    UnseenKeeps(h, p, p, t, t.(changeAccount := Some(account)), s, s, d, m, ChangeRecorded(account));
  }

  lemma OutputStep(h: Hash, p: PcztParser, t: TxInfo, s: TxSigningState, d: Draft, m: Monitor, hidden: Option<Path>)
    requires SessionOk(h, p, t, s, d, m) && m.kind == Pczt && m.change == t.changeAccount
             && p.state == WaitOutputDerivation
    requires !(hidden.Some? && t.isChangeFound)
    requires hidden.Some? ==> ChangePath(hidden.value) && t.changeAccount == DerivationAccount(hidden.value)
    ensures var e, p' := OutputRecorded(hidden, CurrentOutput(d)), OutputParsed(p);
            && Allowed(m, e)
            && SessionOk(h, p', OutputAdded(t, hidden.Some?), s, OutputJoined(h, d, p'.state == OutputsDone),
                         Step(m, e))
  {
    Open(h, p, t, s, d, m);
    OpenReading(h, p, t, s, d, m);
    OutputReads(h, p, OutputParsed(p), d, m, hidden, OutputParsed(p).state == OutputsDone);
    var e, p' := OutputRecorded(hidden, CurrentOutput(d)), OutputParsed(p);
    OutputKeepsInv(p, t, s, m, hidden, CurrentOutput(d));
    OutputKeepsDraft(h, p, p', d, m, hidden);
    Close(h, p', OutputAdded(t, hidden.Some?), s, OutputJoined(h, d, p'.state == OutputsDone), Step(m, e));
  }

  lemma BundleStartStep(h: Hash, p: PcztParser, t: TxInfo, s: TxSigningState, d: Draft, m: Monitor, pool: Pool, n: nat)
    requires SessionOk(h, p, t, s, d, m) && StartsBundle(p, pool) && (pool == Ironwood ==> t.isV6)
             && 0 < n <= MAX_ACTIONS
    ensures SessionOk(h, BundleStarted(p, pool, n), t, s, BundleFlagged(d, pool), m)
  {
    Open(h, p, t, s, d, m);
    OpenReading(h, p, t, s, d, m);
    ReadingRests(p, BundleStarted(p, pool, n), d, BundleFlagged(d, pool), m, m);
    StartKeepsInv(p, t, s, m, pool, n);
    StartKeepsDraft(h, p, BundleStarted(p, pool, n), d, m, pool);
    Close(h, BundleStarted(p, pool, n), t, s, BundleFlagged(d, pool), m);
  }

  // A bundle that may start but holds no action may close at once.
  lemma EmptyCloses(h: Hash, p: PcztParser, t: TxInfo, s: TxSigningState, d: Draft, m: Monitor, pool: Pool)
    requires SessionOk(h, p, t, s, d, m) && StartsBundle(p, pool) && (pool == Ironwood ==> t.isV6)
    ensures Closable(p, t, pool) && Net(p.Bundle(pool)) == 0
  {
    Open(h, p, t, s, d, m);
  }

  lemma TrailerStep(h: Hash, p: PcztParser, t: TxInfo, s: TxSigningState, d: Draft, m: Monitor, pool: Pool,
                    digest: SignatureDigest.Digest)
    requires SessionOk(h, p, t, s, d, m) && p.state == Shielded(pool, WaitTrailer)
    ensures SessionOk(h, p, t, s, BundleDigested(d, pool, digest), m)
  {
    Open(h, p, t, s, d, m);
    OpenReading(h, p, t, s, d, m);
    ReadingRests(p, p, d, BundleDigested(d, pool, digest), m, m);
    TrailerKeepsDraft(h, p, d, m, pool, digest);
    Close(h, p, t, s, BundleDigested(d, pool, digest), m);
  }

  lemma DeferStep(h: Hash, p: PcztParser, t: TxInfo, s: TxSigningState, d: Draft, m: Monitor, pool: Pool, balance: int)
    requires SessionOk(h, p, t, s, d, m) && Closable(p, t, pool) && DefersReview(t, pool)
             && balance == Net(p.Bundle(pool))
    ensures SessionOk(h, BundleClosed(p, pool, balance), t, s, d, m) && !p.outputsReviewed
  {
    Open(h, p, t, s, d, m);
    OpenReading(h, p, t, s, d, m);
    ReadingRests(p, BundleClosed(p, pool, balance), d, d, m, m);
    CloseKeepsInv(p, t, s, m, pool, balance);
    StepKeeps(h, p, BundleClosed(p, pool, balance), t, s, d, m);
  }

  // The outputs the monitor saw before the review.
  lemma OutputsSeen(h: Hash, p: PcztParser, t: TxInfo, s: TxSigningState, d: Draft, m: Monitor)
    requires SessionOk(h, p, t, s, d, m) && !p.outputsReviewed
    ensures m.outputs == |t.outputs| && m.visible == CountVisible(t.outputs)
  {
    Open(h, p, t, s, d, m);
  }

  lemma ReviewStep(h: Hash, p: PcztParser, t: TxInfo, s: TxSigningState, d: Draft, m: Monitor,
                   pool: Pool, balance: int, outputs: seq<TxOutput>, e: Event)
    requires SessionOk(h, p, t, s, d, m) && Closable(p, t, pool) && !DefersReview(t, pool)
             && balance == Net(p.Bundle(pool))
    requires e.Reviewed? && e.content == d.Covered()
    ensures Fees(BundleClosed(p, pool, balance), t) == m.balance && !m.reviewed && !p.outputsReviewed
    ensures m.reading == None && m.head == None && m.header.Some? && HeaderTaken(d.tx, m.header.value)
    ensures Covers(h, d.Covered()) && d.inputs == m.txins && d.outputs == m.txouts
    ensures SessionOk(h, Approved(BundleClosed(p, pool, balance)), t.(outputs := outputs), s, d, Step(m, e))
  {
    Open(h, p, t, s, d, m);
    OpenReading(h, p, t, s, d, m);
    UnseenByReading(m, e);
    ReadingRests(p, Approved(BundleClosed(p, pool, balance)), d, d, m, Step(m, e));
    var p' := Approved(BundleClosed(p, pool, balance));
    ReviewKeepsInv(p, t, t.(outputs := outputs), s, m, pool, balance, e);
    ReviewKeepsDraft(h, p, p', d, m, e);
    Close(h, p', t.(outputs := outputs), s, d, Step(m, e));
  }

  lemma HeadReadStep(h: Hash, p: PcztParser, t: TxInfo, s: TxSigningState, d: Draft, m: Monitor, pool: Pool, spend: nat)
    requires SessionOk(h, p, t, s, d, m) && m.kind == Pczt && p.state == Shielded(pool, WaitAction)
    ensures var e := ActionHeadRead(pool, spend);
            && Allowed(m, e)
            && SessionOk(h, p.(currentSpend := spend, state := Shielded(pool, WaitZip32Derivation)), t, s, d,
                         Step(m, e))
  {
    Open(h, p, t, s, d, m);
    OpenReading(h, p, t, s, d, m);
    HeadKeepsInv(p, t, s, m, pool, spend);
    var p' := p.(currentSpend := spend, state := Shielded(pool, WaitZip32Derivation));
    UnseenKeeps(h, p, p', t, t, s, s, d, m, ActionHeadRead(pool, spend));
  }

  /** A PCZT is ready to sign exactly when the monitor has seen it finished; its records are the monitor's slots. */
  lemma SlotsOfSession(h: Hash, p: PcztParser, t: TxInfo, s: TxSigningState, d: Draft, m: Monitor, slot: Slot)
    requires SessionOk(h, p, t, s, d, m)
    ensures p.IsFinished() <==> m.finished
    ensures SlotMatches(Entries(p.inputs, p.orchard.records, p.ironwood.records, slot), m.required, m.signed, slot)
    ensures p.keyPath.Some? && m.finished ==> p.keyPath == m.shieldedPath
    ensures slot.Transparent? && slot.index < |p.inputs| ==> p.inputs[slot.index].isReal
  {
    Open(h, p, t, s, d, m);
    FinishedExactly(p, t, s, m);
  }

  lemma FinishedExactly(p: PcztParser, t: TxInfo, s: TxSigningState, m: Monitor)
    requires Phase(p, t, s) && Mirrors(p, t, m)
    ensures p.IsFinished() <==> m.finished
    ensures m.finished ==> p.state.Shielded? && p.state.step == ActionsDone
  {}

  // A key is derived while no action depends on it, at its path.
  lemma KeyStep(h: Hash, p: PcztParser, t: TxInfo, s: TxSigningState, d: Draft, m: Monitor, path: Path)
    requires SessionOk(h, p, t, s, d, m) && p.keyPath == None && p.state.Shielded? && !MidAction(p.state)
    requires AfterHead(p.state) || m.shieldedPath == Some(path)
    ensures SessionOk(h, p.(keyPath := Some(path)), t, s, d, m)
  {
    Open(h, p, t, s, d, m);
    OpenReading(h, p, t, s, d, m);
    ReadingStands(p, p.(keyPath := Some(path)), d, m, m);
    StepKeeps(h, p, p.(keyPath := Some(path)), t, s, d, m);
  }

  lemma DerivedStep(h: Hash, p: PcztParser, t: TxInfo, s: TxSigningState, d: Draft, m: Monitor, pool: Pool, path: Path)
    requires SessionOk(h, p, t, s, d, m) && p.state == Shielded(pool, WaitZip32Derivation)
    requires p.keyPath == Some(path) && SigningPath(path)
    ensures SessionOk(h, ActionDerived(p, pool, path), t, s, d, m)
  {
    Open(h, p, t, s, d, m);
    OpenReading(h, p, t, s, d, m);
    ReadingGoesOn(p, ActionDerived(p, pool, path), d, d, m, m);
    DerivedKeepsInv(p, t, s, m, pool, path);
    StepKeeps(h, p, ActionDerived(p, pool, path), t, s, d, m);
  }

  // Reading on within an action; its path is known.
  lemma MidActionStep(h: Hash, p: PcztParser, t: TxInfo, s: TxSigningState, d: Draft, m: Monitor, pool: Pool,
                      step: ShieldedStep)
    requires SessionOk(h, p, t, s, d, m) && MidAction(p.state) && p.state.pool == pool
             && MidAction(Shielded(pool, step))
    ensures p.currentPath.Some?
    ensures SessionOk(h, p.(state := Shielded(pool, step)), t, s, d, m)
  {
    Open(h, p, t, s, d, m);
    OpenReading(h, p, t, s, d, m);
    ReadingGoesOn(p, p.(state := Shielded(pool, step)), d, d, m, m);
    StepKeeps(h, p, p.(state := Shielded(pool, step)), t, s, d, m);
  }

  // An action that ends: its event is allowed and keeps the invariant.
  lemma ActionStep(h: Hash, p: PcztParser, t: TxInfo, s: TxSigningState, d: Draft, m: Monitor,
                   pool: Pool, path: Path, output: nat, kind: ShieldedOutput)
    requires SessionOk(h, p, t, s, d, m) && m.kind == Pczt
    requires p.state == Shielded(pool, WaitOutputMetadata) && p.currentPath == Some(path)
    requires kind == Dummy ==> output == 0
    requires kind == Hidden ==> !t.isChangeFound && m.change.Some? && m.change == DerivationAccount(path)
    ensures var e := ActionRecorded(pool, path, p.currentSpend, output, kind);
            var p' := ActionParsed(p, pool, RecordAdded(p.Bundle(pool), path, p.currentSpend, output));
            Allowed(m, e) && SessionOk(h, p', OutputRecovered(t, kind), s, d, Step(m, e))
  {
    Open(h, p, t, s, d, m);
    OpenReading(h, p, t, s, d, m);
    var e := ActionRecorded(pool, path, p.currentSpend, output, kind);
    var p' := ActionParsed(p, pool, RecordAdded(p.Bundle(pool), path, p.currentSpend, output));
    ActionKeepsInv(p, t, s, m, pool, path, p.currentSpend, output, kind);
    ActionReads(p, p', d, m, e);
    UnseenKeeps(h, p, p', t, OutputRecovered(t, kind), s, s, d, m, e);
  }

  lemma FinishStep(h: Hash, p: PcztParser, t: TxInfo, s: TxSigningState, d: Draft, m: Monitor)
    requires SessionOk(h, p, t, s, d, m) && m.kind == Pczt && p.outputsReviewed
    ensures Allowed(m, Finished) && SessionOk(h, p.(pcztFinished := true), t, s, d, Step(m, Finished))
  {
    Open(h, p, t, s, d, m);
    OpenReading(h, p, t, s, d, m);
    UnseenByReading(m, Finished);
    ReadingStands(p, p.(pcztFinished := true), d, m, Step(m, Finished));
    FinishKeepsInv(p, t, s, m);
    UnseenKeeps(h, p, p.(pcztFinished := true), t, t, s, s, d, m, Finished);
  }

  // The signature of an input, and of an action: allowed, complete exactly when nothing
  // is left to sign, and keeping the invariant otherwise.
  lemma SignInputStep(h: Hash, p: PcztParser, t: TxInfo, s: TxSigningState, d: Draft, m: Monitor, i: nat, e: Event)
    requires SessionOk(h, p, t, s, d, m) && m.kind == Pczt && m.change == t.changeAccount && p.IsFinished()
    requires (m.swap && m.released.Some? ==> m.released == Some(m.epoch))
    requires i < |p.inputs| && !p.inputs[i].signed && ChangeReturns(t.changeAccount, p.inputs[i].path)
    requires e.Signed? && e.slot == Transparent(i) && e.path == p.inputs[i].path && e.content == d.Covered()
    requires e.complete <==> SignaturesDone(InputSigned(p, i), SignatureCounted(s))
    ensures Allowed(m, e)
    ensures !e.complete ==> SessionOk(h, InputSigned(p, i), t, SignatureCounted(s), d, Step(m, e))
  {
    Open(h, p, t, s, d, m);
    OpenReading(h, p, t, s, d, m);
    UnseenByReading(m, e);
    ReadingStands(p, InputSigned(p, i), d, m, Step(m, e));
    SignInputKeepsInv(p, t, s, m, i, e);
    if !e.complete { UnseenKeeps(h, p, InputSigned(p, i), t, t, s, SignatureCounted(s), d, m, e); }
  }

  lemma SignActionStep(h: Hash, p: PcztParser, t: TxInfo, s: TxSigningState, d: Draft, m: Monitor, pool: Pool, i: nat,
                       e: Event)
    requires SessionOk(h, p, t, s, d, m) && m.kind == Pczt && m.change == t.changeAccount && p.IsFinished()
    requires (m.swap && m.released.Some? ==> m.released == Some(m.epoch))
    requires i < |p.Bundle(pool).records|
    requires var r := p.Bundle(pool).records[i];
             r.isReal && !r.signed && ChangeReturns(t.changeAccount, r.path) && e.Signed? && e.path == r.path
    requires e.slot == Action(pool, i) && e.content == d.Covered()
    requires e.complete <==> SignaturesDone(WithSignedBundle(p, pool, EntrySigned(p.Bundle(pool), i)), s)
    ensures Allowed(m, e)
    ensures !e.complete ==> SessionOk(h, WithSignedBundle(p, pool, EntrySigned(p.Bundle(pool), i)), t, s, d, Step(m, e))
  {
    Open(h, p, t, s, d, m);
    OpenReading(h, p, t, s, d, m);
    ReviewedIsParsed(p, t, s);
    var p' := WithSignedBundle(p, pool, EntrySigned(p.Bundle(pool), i));
    UnseenByReading(m, e);
    ReadingStands(p, p', d, m, Step(m, e));
    SignActionKeepsInv(p, t, s, m, pool, i, e);
    if !e.complete { UnseenKeeps(h, p, p', t, t, s, s, d, m, e); }
  }

  lemma CacheStep(h: Hash, p: PcztParser, t: TxInfo, s: TxSigningState, d: Draft, m: Monitor, pool: Pool,
                  digest: SignatureDigest.Digest)
    requires SessionOk(h, p, t, s, d, m) && m.reviewed && digest == SigningDigest(h, d.Covered(), None)
    ensures SessionOk(h, p, t, s, DigestCached(d, pool, digest), m)
  {
    Open(h, p, t, s, d, m);
    OpenReading(h, p, t, s, d, m);
    CacheKeepsDraft(h, p, d, m, pool, digest);
    assert ReadingInv(p, DigestCached(d, pool, digest), m);
    Close(h, p, t, s, DigestCached(d, pool, digest), m);
  }

  // What the signing of a bundle finds: the counts the digest is computed for, and a
  // cached digest that is the digest.
  lemma CacheFound(h: Hash, p: PcztParser, t: TxInfo, s: TxSigningState, d: Draft, m: Monitor, pool: Pool)
    requires SessionOk(h, p, t, s, d, m) && m.reviewed
    ensures p.inputCount == |d.inputs| && p.outputCount == |d.outputs|
    ensures d.Cached(pool).Some? ==> d.Cached(pool).value == SigningDigest(h, d.Covered(), None)
  {
    Open(h, p, t, s, d, m);
  }
}
