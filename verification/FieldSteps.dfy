/**
 What one payload field of a PCZT packet does: in each state of the parser, which fields
 are accepted and what an accepted one changes and logs (src/parser/pczt.rs,
 src/parser/pczt/transparent.rs, orchard.rs and ironwood.rs).
 */
module FieldSteps {
  import opened Outcomes
  import opened Words
  import opened Bytes
  import opened Paths
  import SignatureDigest
  import opened SignedContent
  import opened Transaction
  import opened SigningSpec
  import opened PcztState
  import opened PcztDraft

  // The context of a PCZT session: parser, transaction, signing counters, digest state, log.
  datatype Snapshot = Snapshot(p: PcztParser, t: TxInfo, s: TxSigningState, d: Draft, log: seq<Event>)

  // The state belongs to the section: its packets are expected there.
  ghost predicate InSection(section: Section, st: State) {
    match section
    case Inputs =>
      || st == WaitInputsCount || st == WaitInput || st == WaitInputScript || st == ProcessInputScript
      || st == WaitInputSighashType || st == WaitInputDerivation
    case Outputs =>
      || st == InputsDone || st == WaitOutput || st == WaitOutputScript || st == ProcessOutputScript
      || st == WaitOutputDerivation
    case Actions(pool) =>
      || st == (if pool == Orchard then OutputsDone else Shielded(Orchard, ActionsDone))
      || (st.Shielded? && st.pool == pool && st.step != ActionsDone)
  }

  // ---------------------------------------------------------------- what is accepted

  // The script gathered once this part is read.
  ghost function ScriptAfter(x: Snapshot, bytes: seq<u8>): seq<u8> {
    if x.p.state == WaitInputScript || x.p.state == WaitOutputScript then bytes else x.d.script + bytes
  }

  ghost predicate InputAccepted(x: Snapshot, f: Field, more: bool) {
    match x.p.state
    case WaitInputsCount => f.Count? && f.n <= 32 && !more
    case WaitInput => f.InputHead? && |f.prevout| == 36 && f.amount <= 2_100_000_000_000_000 && !more
    case WaitInputScript => f.ScriptPart? && |ScriptAfter(x, f.bytes)| <= 252 && (f.complete ==> f.p2pkh && !more)
    case ProcessInputScript => f.ScriptPart? && |ScriptAfter(x, f.bytes)| <= 252 && (f.complete ==> f.p2pkh && !more)
    case WaitInputSighashType => f.SighashType? && f.all && more
    case WaitInputDerivation => f.InputDerivation? && SigningPath(f.path) && !more
    case _ => false
  }

  // The path names an account, and no other one was recorded before.
  ghost predicate NamesAccount(recorded: Option<u32>, path: Path) {
    DerivationAccount(path).Some? && (recorded == None || recorded == DerivationAccount(path))
  }

  // A declared change path is compliant, matches its key and names the recorded account; a
  // script is change only under the path its output declared, and only one is.
  ghost predicate OutputEndAccepted(t: TxInfo, f: Field) {
    && f.OutputDerivation? && f.kind != UnsupportedScript
    && (f.changePath.Some? ==>
          ChangePath(f.changePath.value) && f.keyMatches && NamesAccount(t.changeAccount, f.changePath.value))
    && (f.kind == ChangeScript ==> f.changePath.Some? && !t.isChangeFound)
  }

  ghost predicate OutputAccepted(x: Snapshot, f: Field, more: bool) {
    match x.p.state
    case InputsDone => f.Count? && f.n <= 10 && !more
    case WaitOutput => f.OutputHead? && f.amount <= 2_100_000_000_000_000 && !more
    case WaitOutputScript => f.ScriptPart? && |ScriptAfter(x, f.bytes)| <= 252 && (f.complete ==> !more)
    case ProcessOutputScript => f.ScriptPart? && |ScriptAfter(x, f.bytes)| <= 252 && (f.complete ==> !more)
    case WaitOutputDerivation => OutputEndAccepted(x.t, f) && !more
    case _ => false
  }

  // The session's key is the one at this path, or none is cached and the derivation succeeds.
  ghost predicate KeyAvailable(p: PcztParser, path: Path, derives: bool) {
    p.keyPath == Some(path) || (p.keyPath == None && derives)
  }

  // Which output sides are accepted, by the key that recovered them.
  ghost predicate Recovers(t: TxInfo, path: Path, output: nat, recovery: Recovery) {
    match recovery
    case Internal => !t.isChangeFound && NamesAccount(t.changeAccount, path)
    case External(withinBudget) => withinBudget
    case ZeroDummy => output == 0
    case Unrecoverable => false
  }

  ghost predicate SumsFit(p: PcztParser, pool: Pool, output: nat) {
    var sums := p.Bundle(pool).sums;
    sums.spend + p.currentSpend <= 0xFFFF_FFFF_FFFF_FFFF && sums.output + output <= 0xFFFF_FFFF_FFFF_FFFF
  }

  ghost predicate ActionEndAccepted(x: Snapshot, pool: Pool, f: Field) {
    && f.OutputMetadata? && f.valid && f.output <= 2_100_000_000_000_000
    && x.p.currentPath.Some? && SumsFit(x.p, pool, f.output)
    && Recovers(x.t, x.p.currentPath.value, f.output, f.recovery)
  }

  // Transparent inputs less outputs, plus the balances of the bundles when `pool` closes with
  // `balance`.
  ghost function FeeWith(x: Snapshot, pool: Pool, balance: int): int {
    x.t.totalAmount - x.p.totalOutputAmount
    + (if pool == Orchard then balance + x.p.ironwood.valueBalance else x.p.orchard.valueBalance + balance)
  }

  // Closing a bundle runs the review, except for the Orchard bundle of a V6 transaction.
  ghost predicate CloseAccepted(swap: bool, x: Snapshot, pool: Pool, balance: int, answer: Answer) {
    || (pool == Orchard && x.t.isV6)
    || (&& x.t.outputs != [] && 0 <= FeeWith(x, pool, balance) <= 0xFFFF_FFFF_FFFF_FFFF
        && (if swap then answer.exchange else answer.user))
  }

  ghost function Signed64(f: Field): int
    requires f.Trailer?
  {
    if f.sign == 0 then f.magnitude else 0 - f.magnitude
  }

  ghost predicate ActionAccepted(swap: bool, x: Snapshot, pool: Pool, f: Field, more: bool, answer: Answer) {
    && !more
    && if !x.p.state.Shielded? || x.p.state.pool != pool then
         && f.Count? && f.n <= 32 && (pool == Ironwood ==> x.t.isV6)
         && (f.n == 0 ==> CloseAccepted(swap, x, pool, 0, answer))
       else
         match x.p.state.step
         case WaitAction => f.ActionHead? && f.spend <= 2_100_000_000_000_000
         case WaitZip32Derivation =>
           && f.Zip32Derivation? && SigningPath(f.path) && KeyAvailable(x.p, f.path, f.derived)
           && (x.p.currentSpend != 0 ==> f.rkMatches)
         case WaitActionOutput => f.ActionOutput?
         case WaitOutputMetadata => ActionEndAccepted(x, pool, f)
         case WaitTrailer =>
           && f.Trailer? && f.magnitude <= 0x7FFF_FFFF_FFFF_FFFF && f.sign <= 1
           && x.p.Bundle(pool).sums.spend - x.p.Bundle(pool).sums.output == Signed64(f)
           && CloseAccepted(swap, x, pool, Signed64(f), answer)
         case _ => false
  }

  // A ciphertext comes in parts; only its end must end the packet.
  ghost predicate CiphertextAccepted(f: Field, more: bool) { f.Ciphertext? && (f.complete ==> !more) }

  ghost predicate InCiphertext(st: State, pool: Pool) {
    && st.Shielded? && st.pool == pool
    && (st.step == WaitEncCiphertextLen || st.step == ProcessEncCiphertext || st.step == WaitOutCiphertextLen
        || st.step == ProcessOutCiphertext)
  }

  ghost predicate FieldAccepted(swap: bool, section: Section, x: Snapshot, f: Field, more: bool, answer: Answer) {
    forall s {:trigger SectionAccepts(swap, s, x, f, more, answer)} :: s == section ==>
      SectionAccepts(swap, s, x, f, more, answer)
  }

  ghost predicate SectionAccepts(swap: bool, section: Section, x: Snapshot, f: Field, more: bool, answer: Answer) {
    && InSection(section, x.p.state)
    && match section
       case Inputs => InputAccepted(x, f, more)
       case Outputs => OutputAccepted(x, f, more)
       case Actions(pool) =>
         if InCiphertext(x.p.state, pool) then CiphertextAccepted(f, more)
         else ActionAccepted(swap, x, pool, f, more, answer)
  }

  // ---------------------------------------------------------------- transparent inputs

  // Only the digest state and the parser's state change, and nothing is logged.
  ghost predicate InputsStarted(h: SignatureDigest.Blake2b256, x: Snapshot, n: nat, y: Snapshot) {
    && y.p == x.p.(inputCount := n, inputs := [], orchard := y.p.orchard,
                   state := if n == 0 then InputsDone else WaitInput)
    && !y.p.orchard.present
    && y.s == x.s.(totalInputs := n) && y.t == x.t && y.log == x.log
    && (if n == 0 then CoversInputs(h, y.d.tx, []) && OnlyInputHashes(x.d, y.d)
        && y.d.inputs == x.d.inputs else y.d == x.d)
  }

  // Of the digest state only the list of inputs and the four input hashes differ.
  ghost predicate OnlyInputHashes(d: Draft, e: Draft) {
    e == d.(inputs := e.inputs,
            tx := d.tx.(prevoutsHash := e.tx.prevoutsHash, sequenceHash := e.tx.sequenceHash,
                        amountsHash := e.tx.amountsHash, scriptsHash := e.tx.scriptsHash))
  }

  // `after` is `before` followed by n bytes of value v.
  ghost predicate Grown(before: seq<u8>, after: seq<u8>, n: nat, v: nat) {
    |after| == |before| + n && before <= after && BytesVal(after[|before|..]) == v
  }

  ghost predicate InputHeadTaken(x: Snapshot, f: Field, y: Snapshot)
    requires f.InputHead?
  {
    && y.p == x.p.(state := WaitInputScript) && y.s == x.s
    && y.t == x.t.(totalAmount := x.t.totalAmount + f.amount)
    && y.log == x.log + [InputValue(f.prevout, f.sequence, f.amount)]
    && y.d == x.d.(currentInput := y.d.currentInput, hashers := y.d.hashers)
    && y.d.currentInput.prevout == f.prevout && y.d.currentInput.sequence == f.sequence
    && |y.d.currentInput.amount| == 8 && BytesVal(y.d.currentInput.amount) == f.amount
    && y.d.hashers.prevouts == x.d.hashers.prevouts + f.prevout
    && Grown(x.d.hashers.sequence, y.d.hashers.sequence, 4, f.sequence)
    && Grown(x.d.hashers.amounts, y.d.hashers.amounts, 8, f.amount)
    && y.d.hashers.scripts == x.d.hashers.scripts
  }

  // The whole script enters the hasher after its length, once it is complete.
  ghost predicate InputScriptTaken(x: Snapshot, f: Field, y: Snapshot)
    requires f.ScriptPart?
  {
    var script := ScriptAfter(x, f.bytes);
    && y.p == x.p.(state := if f.complete then WaitInputSighashType else ProcessInputScript)
    && y.s == x.s && y.t == x.t && y.log == x.log + [ScriptRead(f.bytes)]
    && y.d.script == script
    && if f.complete then
         y.d == x.d.(script := script, currentInput := x.d.currentInput.(scriptPubkey := script),
                     hashers := x.d.hashers.(scripts :=
                       x.d.hashers.scripts + (SignatureDigest.CompactSize(|script|) + script)))
       else y.d == x.d.(script := script)
  }

  ghost predicate SighashTypeTaken(x: Snapshot, y: Snapshot) {
    y.p == x.p.(state := WaitInputDerivation) && y.s == x.s && y.t == x.t && y.d == x.d && y.log == x.log
  }

  // One more record; with the last one the four hashes cover all the inputs.
  ghost predicate InputEndTaken(h: SignatureDigest.Blake2b256, x: Snapshot, f: Field, y: Snapshot)
    requires f.InputDerivation?
  {
    var last := |x.p.inputs| + 1 == x.p.inputCount;
    && y.p == x.p.(inputs := x.p.inputs + [Record(f.path, true, false)],
                   state := if last then InputsDone else WaitInput)
    && y.s == x.s && y.t == x.t && y.log == x.log + [InputRecorded(f.path, x.d.currentInput)]
    && y.d.inputs == x.d.inputs + [x.d.currentInput]
    && OnlyInputHashes(x.d, y.d) && (if last then CoversInputs(h, y.d.tx, y.d.inputs) else y.d.tx == x.d.tx)
  }

  ghost predicate InputTaken(h: SignatureDigest.Blake2b256, x: Snapshot, f: Field, y: Snapshot)
  {
    match x.p.state
    case WaitInputsCount => f.Count? && InputsStarted(h, x, f.n, y)
    case WaitInput => f.InputHead? && InputHeadTaken(x, f, y)
    case WaitInputSighashType => SighashTypeTaken(x, y)
    case WaitInputDerivation => f.InputDerivation? && InputEndTaken(h, x, f, y)
    case _ => f.ScriptPart? && InputScriptTaken(x, f, y)
  }

  // ---------------------------------------------------------------- transparent outputs

  ghost predicate OnlyOutputsHash(d: Draft, e: Draft) {
    e == d.(outputs := e.outputs, tx := d.tx.(outputsHash := e.tx.outputsHash))
  }

  ghost predicate OutputsStarted(h: SignatureDigest.Blake2b256, x: Snapshot, n: nat, y: Snapshot) {
    && y.p == x.p.(outputCount := n, outputParsedCount := 0, totalOutputAmount := 0,
                   state := if n == 0 then OutputsDone else WaitOutput)
    && y.s == x.s && y.t == x.t && y.log == x.log
    && (if n == 0 then CoversOutputs(h, y.d.tx, []) && OnlyOutputsHash(x.d, y.d) && y.d.outputs == x.d.outputs
        else y.d == x.d)
  }

  ghost predicate OutputHeadTaken(x: Snapshot, f: Field, y: Snapshot)
    requires f.OutputHead?
  {
    && y.p == x.p.(totalOutputAmount := x.p.totalOutputAmount + f.amount, state := WaitOutputScript)
    && y.s == x.s && y.t == x.t && y.log == x.log + [OutputValue(f.amount)]
    && y.d == x.d.(currentAmount := y.d.currentAmount, outputsHasher := x.d.outputsHasher + y.d.currentAmount)
    && |y.d.currentAmount| == 8 && BytesVal(y.d.currentAmount) == f.amount
  }

  ghost predicate OutputScriptTaken(x: Snapshot, f: Field, y: Snapshot)
    requires f.ScriptPart?
  {
    var script := ScriptAfter(x, f.bytes);
    && y.p == x.p.(state := if f.complete then WaitOutputDerivation else ProcessOutputScript)
    && y.s == x.s && y.t == x.t && y.log == x.log + [ScriptRead(f.bytes)]
    && if f.complete then
         y.d == x.d.(script := script,
                     outputsHasher := x.d.outputsHasher + (SignatureDigest.CompactSize(|script|) + script))
       else y.d == x.d.(script := script)
  }

  // The event of a recorded account.
  ghost function AccountEvents(path: Option<Path>): seq<Event> {
    if path.Some? && DerivationAccount(path.value).Some? then [ChangeRecorded(DerivationAccount(path.value).value)]
      else []
  }

  // A declared change path records its account whether or not the output is hidden; a hidden
  // output is under that path.
  ghost predicate OutputEndTaken(h: SignatureDigest.Blake2b256, x: Snapshot, f: Field, y: Snapshot)
    requires f.OutputDerivation?
  {
    var last := x.p.outputCount == x.p.outputParsedCount + 1;
    var isChange := f.kind == ChangeScript;
    var txout := TransparentOutput(x.d.currentAmount, x.d.script);
    && y.p == x.p.(outputParsedCount := x.p.outputParsedCount + 1, state := if last then OutputsDone else WaitOutput)
    && y.s == x.s
    && y.t == x.t.(changeAccount := if f.changePath.Some? then DerivationAccount(f.changePath.value)
                   else x.t.changeAccount,
                   outputs := x.t.outputs + [TxOutput(isChange)], isChangeFound := x.t.isChangeFound || isChange)
    && y.log == x.log + (AccountEvents(f.changePath)
                         + [OutputRecorded(if isChange then f.changePath else None, txout)])
    && y.d.outputs == x.d.outputs + [txout]
    && OnlyOutputsHash(x.d, y.d) && (if last then CoversOutputs(h, y.d.tx, y.d.outputs) else y.d.tx == x.d.tx)
  }

  ghost predicate OutputTaken(h: SignatureDigest.Blake2b256, x: Snapshot, f: Field, y: Snapshot)
  {
    match x.p.state
    case InputsDone => f.Count? && OutputsStarted(h, x, f.n, y)
    case WaitOutput => f.OutputHead? && OutputHeadTaken(x, f, y)
    case WaitOutputDerivation => f.OutputDerivation? && OutputEndTaken(h, x, f, y)
    case _ => f.ScriptPart? && OutputScriptTaken(x, f, y)
  }

  // ---------------------------------------------------------------- shielded bundles

  // A parser whose bundle of that pool is replaced.
  ghost function WithBundle(p: PcztParser, pool: Pool, b: Bundle): PcztParser {
    if pool == Orchard then p.(orchard := b) else p.(ironwood := b)
  }

  ghost predicate BundleStartTaken(x: Snapshot, pool: Pool, n: nat, y: Snapshot) {
    var b := Bundle.Bundle(true, n, [], Tally(0, 0), 0, Sums(0, 0));
    && y.p == WithBundle(x.p, pool, b).(pcztFinished := false, isV6Tx := x.p.isV6Tx || pool == Ironwood,
                                        state := Shielded(pool, WaitAction))
    && y.s == x.s && y.t == x.t && y.log == x.log
    && y.d == x.d.(tx := x.d.tx.(hasIronwoodBundle := x.d.tx.hasIronwoodBundle || pool == Ironwood))
  }

  ghost predicate HeadTaken(x: Snapshot, pool: Pool, f: Field, y: Snapshot)
    requires f.ActionHead?
  {
    && y.p == x.p.(currentSpend := f.spend, state := Shielded(pool, WaitZip32Derivation))
    && y.s == x.s && y.t == x.t && y.d == x.d && y.log == x.log + [ActionHeadRead(pool, f.spend)]
  }

  ghost predicate DerivationTaken(x: Snapshot, pool: Pool, f: Field, y: Snapshot)
    requires f.Zip32Derivation?
  {
    && y.p == x.p.(keyPath := Some(f.path), currentPath := Some(f.path), state := Shielded(pool, WaitActionOutput))
    && y.s == x.s && y.t == x.t && y.d == x.d && y.log == x.log
  }

  // Only the parser's state moves on.
  ghost predicate StepTaken(x: Snapshot, pool: Pool, step: ShieldedStep, y: Snapshot) {
    y.p == x.p.(state := Shielded(pool, step)) && y.s == x.s && y.t == x.t && y.d == x.d && y.log == x.log
  }

  ghost function AfterCiphertext(step: ShieldedStep, complete: bool): ShieldedStep {
    if step == WaitEncCiphertextLen || step == ProcessEncCiphertext then
      if complete then WaitOutCiphertextLen else ProcessEncCiphertext
    else
      if complete then WaitOutputMetadata else ProcessOutCiphertext
  }

  // One more action in its bundle and in the sums; its output joins the review unless it is a
  // dummy, hidden if it was recovered by the internal key.
  ghost predicate ActionEndTaken(x: Snapshot, pool: Pool, f: Field, y: Snapshot)
    requires f.OutputMetadata? && x.p.currentPath.Some?
  {
    var b, path, spend := x.p.Bundle(pool), x.p.currentPath.value, x.p.currentSpend;
    var b' := b.(records := b.records + [Record(path, spend != 0, false)],
                 tally := Tally(b.tally.signedCount, b.tally.realSpendCount + if spend != 0 then 1 else 0),
                 sums := Sums(b.sums.spend + spend, b.sums.output + f.output));
    var internal := f.recovery.Internal?;
    var kind := if internal then Hidden else if f.recovery.External? then Shown else Dummy;
    && y.p == WithBundle(x.p, pool, b').(currentPath := None, currentSpend := 0,
                state := Shielded(pool, if |b.records| + 1 == b.actionCount then WaitTrailer else WaitAction))
    && y.s == x.s && y.d == x.d
    && y.t == (if kind == Dummy then x.t
               else x.t.(changeAccount := if internal then DerivationAccount(path) else x.t.changeAccount,
                         outputs := x.t.outputs + [TxOutput(internal)], isChangeFound := x.t.isChangeFound || internal))
    && y.log == x.log + (AccountEvents(if internal then Some(path) else None)
                         + [ActionRecorded(pool, path, spend, f.output, kind)])
  }

  // The bundle closes with `balance`; what the digest state holds is what is approved.
  ghost predicate CloseTaken(swap: bool, x: Snapshot, pool: Pool, balance: int, y: Snapshot) {
    var closed := WithBundle(x.p, pool,
                             x.p.Bundle(pool).(valueBalance := balance)).(state := Shielded(pool, ActionsDone));
    && y.s == x.s
    && if pool == Orchard && x.t.isV6 then y.p == closed && y.t == x.t && y.log == x.log
       else
         && y.p == closed.(outputsReviewed := true, keyPath := if closed.ShieldedDone() then None else closed.keyPath)
         && y.t == x.t.(outputs := y.t.outputs) && RevealedIn(swap, x.t.outputs, y.t.outputs)
         && y.log == x.log + [Reviewed(if swap then Exchange(true) else User(true), FeeWith(x, pool, balance),
                                       CountVisible(y.t.outputs), Content(y.d.tx, y.d.inputs, y.d.outputs))]
  }

  ghost predicate TrailerTaken(swap: bool, x: Snapshot, pool: Pool, f: Field, y: Snapshot)
    requires f.Trailer?
  {
    && CloseTaken(swap, x, pool, Signed64(f), y)
    && y.d == x.d.(tx := if pool == Orchard then x.d.tx.(orchardDigest := f.digest)
                         else x.d.tx.(ironwoodDigest := f.digest))
  }

  ghost predicate ActionTaken(swap: bool, x: Snapshot, pool: Pool, f: Field, y: Snapshot)
  {
    if !x.p.state.Shielded? || x.p.state.pool != pool then
      f.Count? && if f.n == 0 then CloseTaken(swap, x, pool, 0, y) && y.d == x.d else BundleStartTaken(x, pool, f.n, y)
    else
      match x.p.state.step
      case WaitAction => f.ActionHead? && HeadTaken(x, pool, f, y)
      case WaitZip32Derivation => f.Zip32Derivation? && DerivationTaken(x, pool, f, y)
      case WaitActionOutput => StepTaken(x, pool, WaitEncCiphertextLen, y)
      case WaitOutputMetadata => f.OutputMetadata? && x.p.currentPath.Some? && ActionEndTaken(x, pool, f, y)
      case WaitTrailer => f.Trailer? && TrailerTaken(swap, x, pool, f, y)
      case _ => f.Ciphertext? && StepTaken(x, pool, AfterCiphertext(x.p.state.step, f.complete), y)
  }

  // ---------------------------------------------------------------- packets

  ghost predicate FieldTaken(h: SignatureDigest.Blake2b256, swap: bool, section: Section, x: Snapshot, f: Field,
                             more: bool, answer: Answer, y: Snapshot)
  {
    && FieldAccepted(swap, section, x, f, more, answer)
    && forall s {:trigger SectionTakes(h, swap, s, x, f, y)} :: s == section ==> SectionTakes(h, swap, s, x, f, y)
  }

  ghost predicate SectionTakes(h: SignatureDigest.Blake2b256, swap: bool, section: Section, x: Snapshot, f: Field,
                               y: Snapshot)
  {
    match section
    case Inputs => InputTaken(h, x, f, y)
    case Outputs => OutputTaken(h, x, f, y)
    case Actions(pool) => ActionTaken(swap, x, pool, f, y)
  }

  // What a refused field may have logged: the account it names, when the refusal comes after.
  ghost predicate FailureLogged(section: Section, x: Snapshot, f: Field, log: seq<Event>) {
    forall y {:trigger RefusalLogged(section, y, f, log)} :: y == x ==> RefusalLogged(section, y, f, log)
  }

  ghost predicate RefusalLogged(section: Section, x: Snapshot, f: Field, log: seq<Event>) {
    || log == x.log
    || (section == Outputs && f.OutputDerivation? && log == x.log + AccountEvents(f.changePath))
    || (section.Actions? && f.OutputMetadata? && f.recovery.Internal? && log == x.log + AccountEvents(x.p.currentPath))
  }

  // The fields of a packet are taken one after the other, and only the last one ends it.
  ghost predicate Chain(h: SignatureDigest.Blake2b256, swap: bool, section: Section, payload: seq<Field>,
                        answer: Answer, chain: seq<Snapshot>)
  {
    && 0 < |chain| <= |payload| + 1
    && forall c {:trigger Linked(h, swap, section, payload, answer, c)} :: c == chain ==>
         Linked(h, swap, section, payload, answer, c)
  }

  ghost predicate Linked(h: SignatureDigest.Blake2b256, swap: bool, section: Section, payload: seq<Field>,
                         answer: Answer, chain: seq<Snapshot>)
    requires 0 < |chain| <= |payload| + 1
  {
    forall i {:trigger Link(h, swap, section, payload, answer, chain, i)} :: 0 <= i < |chain| - 1 ==>
      Link(h, swap, section, payload, answer, chain, i)
  }

  ghost predicate Link(h: SignatureDigest.Blake2b256, swap: bool, section: Section, payload: seq<Field>, answer: Answer,
                       chain: seq<Snapshot>, i: nat)
    requires i + 1 < |chain| <= |payload| + 1
  {
    FieldTaken(h, swap, section, chain[i], payload[i], i + 1 < |payload|, answer, chain[i + 1])
  }

  // The section a packet belongs to has been read to its end.
  predicate SectionDone(p: PcztParser, section: Section) {
    match section
    case Inputs => p.InputsFinished()
    case Outputs => p.OutputsFinished()
    case Actions(pool) => p.ActionsFinished(pool)
  }

  // What a packet asks for at its end: its section read, the PCZT ready to sign.
  ghost predicate PacketEnds(section: Section, last: bool, finish: bool, p: PcztParser) {
    (last ==> SectionDone(p, section)) && (finish ==> p.IsReadyToSign())
  }

  // The field after the chain is not accepted, or no session has started.
  ghost predicate Refused(swap: bool, section: Section, payload: seq<Field>, answer: Answer, chain: seq<Snapshot>)
    requires 0 < |chain| <= |payload|
  {
    var k := |chain| - 1;
    || chain[k].p.state == WaitHeaderAndGlobal
    || !FieldAccepted(swap, section, chain[k], payload[k], k + 1 < |payload|, answer)
  }

  // A packet served in context x: its fields are taken in turn up to one that is refused, and
  // it succeeds exactly if none is and what it asks for at its end is the case.
  ghost predicate PacketServed(h: SignatureDigest.Blake2b256, swap: bool, section: Section, last: bool, finish: bool,
                               payload: seq<Field>, answer: Answer, x: Snapshot, chain: seq<Snapshot>, ok: bool,
                               y: Snapshot)
  {
    && Chain(h, swap, section, payload, answer, chain) && chain[0] == x
    && (|chain| <= |payload| ==> Refused(swap, section, payload, answer, chain))
    && (ok <==> |chain| == |payload| + 1 && PacketEnds(section, last, finish, chain[|payload|].p))
    && (ok ==> var z := chain[|payload|];
               y == if finish then z.(p := z.p.(pcztFinished := true), log := z.log + [Finished]) else z)
  }
}
