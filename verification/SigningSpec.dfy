/**
 What a host may obtain from a signing session, as a monitor over the events of a run.

 The monitor knows nothing of parsers or counters: it follows resets, recorded inputs
 and actions, approvals and released signatures, and rejects a run at the first event
 the application must never produce. SigningSession.dfy proves that every run of the
 command loop is accepted; the lemmas below say what acceptance means for whole runs.
 */
module SigningSpec {
  import opened Outcomes
  import opened Words
  import opened Bytes
  import opened Paths
  import opened SignatureDigest
  import opened SignedContent

  datatype Pool = Orchard | Ironwood
  datatype Slot = Transparent(index: nat) | Action(pool: Pool, index: nat)
  // The answer that stands for an approval: the user's at the review screen, or the
  // outcome of the check against the Exchange request.
  datatype Approval = User(agrees: bool) | Exchange(matches: bool)

  // In swap mode the Exchange request decides, otherwise the user.
  predicate Grants(swap: bool, approval: Approval) {
    approval == if swap then Exchange(true) else User(true)
  }

  // How the output side of a shielded action was treated.
  datatype ShieldedOutput = Hidden | Shown | Dummy

  datatype Event =
    | Reset                                         // the whole transaction context was reset
    | PcztStarted(header: Global)                   // a PCZT header was accepted
    // the head of a transparent input was read, and its amount entered the fee
    | InputValue(prevout: seq<u8>, sequence: u32, amount: nat)
    | ScriptRead(bytes: seq<u8>)                    // a part of a transparent script was read
    | InputRecorded(path: Path, txin: TransparentInput)  // a transparent input awaits its signature
    | OutputValue(amount: nat)                      // a transparent output amount entered the fee
    // a transparent output joined the review, or was hidden as change to a path
    | OutputRecorded(hidden: Option<Path>, txout: TransparentOutput)
    | ChangeRecorded(account: u32)                  // the change account was recorded
    | ActionHeadRead(pool: Pool, spend: nat)        // the head of a shielded action was read
    | ActionRecorded(pool: Pool, path: Path, spend: nat, output: nat, kind: ShieldedOutput)
    // outputs approved, `shown` of them displayed
    | Reviewed(approval: Approval, fee: int, shown: nat, content: Content)
    | Finished                                      // the host closed the PCZT, ready to sign
    | Signed(slot: Slot, path: Path, content: Content, digest: Digest, complete: bool)
    | LegacyParsed(inputs: Option<nat>)             // a legacy or trusted-input packet was accepted
    | LegacyChange(account: u32)
    | LegacyOutputRecorded(hiddenFor: Option<u32>)  // an output, hidden as change to an account or not
    | LegacyOutputsDone(validated: bool)            // `validated` against the Exchange request
    | LegacyReviewed(approval: Approval, shown: nat)
    | LegacySigned(path: Path, complete: bool)

  datatype Kind = Idle | Pczt | Legacy

  // The transparent input or output being read, and the shielded action.
  datatype Reading =
    | InputReading(prevout: seq<u8>, sequence: u32, amount: nat, script: seq<u8>)
    | OutputReading(amount: nat, script: seq<u8>)
  datatype Head = Head(pool: Pool, spend: nat)

  datatype Monitor = Monitor(
    swap: bool,
    epoch: nat,               // resets so far
    released: Option<nat>,    // epoch of the latest released signature
    completions: nat,         // signatures so far that completed their transaction
    kind: Kind,
    inputs: nat,              // transparent inputs recorded
    orchardActions: nat,
    ironwoodActions: nat,
    required: map<Slot, Path>,
    signed: set<Slot>,
    txins: seq<TransparentInput>,
    txouts: seq<TransparentOutput>,
    header: Option<Global>,   // of the PCZT
    reading: Option<Reading>,
    head: Option<Head>,
    content: Option<Content>, // what was approved
    balance: int,             // inputs and spends less outputs
    outputs: nat,
    visible: nat,             // outputs not hidden as change
    change: Option<u32>,
    shieldedPath: Option<Path>,
    reviewed: bool,
    finished: bool,
    legacyOutputs: bool,      // the outputs of a legacy transaction are in
    legacyValidated: bool,    // and were validated against the Exchange request
    legacyInputs: nat,
    legacySigned: nat)

  // Paths a key may sign with, and paths an output may be hidden under.
  predicate SigningPath(path: Path) { CheckBip44Compliance(path, OnlyCoinType) }
  predicate ChangePath(path: Path) { CheckBip44Compliance(path, Full(true)) }

  const COUNT_MAX: nat := 0xFFFF_FFFF
  const MAX_COMPACT_SIZE: nat := 0x0200_0000  // the largest count zcash_encoding::CompactSize reads

  function SaturatingInc(n: nat): nat { if n >= COUNT_MAX then COUNT_MAX else n + 1 }

  function Fresh(swap: bool, epoch: nat, released: Option<nat>, completions: nat): Monitor {
    Monitor(swap, epoch, released, completions, Idle, 0, 0, 0, map[], {}, [], [], None, None, None, None, 0, 0, 0,
            None, None, false, false, false, false, 0, 0)
  }

  // Nothing has happened since the last reset.
  predicate IsFresh(m: Monitor) { m == Fresh(m.swap, m.epoch, m.released, m.completions) }

  // The event closes a transaction with its last signature.
  predicate Completes(e: Event) { (e.Signed? || e.LegacySigned?) && e.complete }

  // The slot is one of the content, and the digest signed for it.
  predicate InContent(c: Content, slot: Slot) { slot.Transparent? ==> slot.index < |c.inputs| }

  function SlotInput(slot: Slot): Option<nat> { if slot.Transparent? then Some(slot.index) else None }

  function SlotDigest(h: Blake2b256, c: Content, slot: Slot): Digest
    requires InContent(c, slot)
  {
    SigningDigest(h, c, SlotInput(slot))
  }

  // What the hashes of an event must be: an approved content is covered by its component
  // hashes, and a signature is over the digest of its content in the mode of its slot.
  predicate EventHashed(h: Blake2b256, e: Event) {
    && (e.Reviewed? ==> Covers(h, e.content))
    && (e.Signed? ==> InContent(e.content, e.slot) && e.digest == SlotDigest(h, e.content, e.slot))
  }

  predicate Hashed(h: Blake2b256, log: seq<Event>) { forall i :: 0 <= i < |log| ==> EventHashed(h, log[i]) }

  // A signature may leave the device under the recorded change account and, in swap
  // mode, only in the epoch of the earlier ones.
  predicate MayRelease(m: Monitor, path: Path) {
    && ChangeReturns(m.change, path)
    && (m.swap && m.released.Some? ==> m.released == Some(m.epoch))
  }

  function Actions(m: Monitor, pool: Pool): nat {
    if pool == Orchard then m.orchardActions else m.ironwoodActions
  }

  predicate Building(m: Monitor) { m.kind == Pczt && !m.reviewed }

  // The user sees every output that is not hidden, or all of them when every one is hidden.
  predicate ShowsOutputs(m: Monitor, approval: Approval, shown: nat) {
    approval.User? ==> shown == if m.visible == 0 then m.outputs else m.visible
  }

  // The record of an input, or of an output, is what was read of it, its amount in eight
  // little-endian bytes.
  predicate InputAsRead(r: Option<Reading>, txin: TransparentInput) {
    && r.Some? && r.value.InputReading?
    && txin.prevout == r.value.prevout && txin.sequence == r.value.sequence && txin.scriptPubkey == r.value.script
    && |txin.amount| == 8 && BytesVal(txin.amount) == r.value.amount
  }

  predicate OutputAsRead(r: Option<Reading>, txout: TransparentOutput) {
    && r.Some? && r.value.OutputReading?
    && txout.scriptPubkey == r.value.script && |txout.amount| == 8 && BytesVal(txout.amount) == r.value.amount
  }

  predicate Allowed(m: Monitor, e: Event) {
    match e
    case Reset => true
    case PcztStarted(_) => m.kind == Idle
    case InputValue(_, _, _) => Building(m) && m.reading == None
    case ScriptRead(_) => Building(m) && m.reading.Some?
    case InputRecorded(path, txin) => Building(m) && SigningPath(path) && InputAsRead(m.reading, txin)
    case OutputValue(_) => Building(m) && m.reading == None
    case OutputRecorded(hidden, txout) =>
      && Building(m) && OutputAsRead(m.reading, txout)
      && (hidden.Some? ==>
            ChangePath(hidden.value) && m.change == DerivationAccount(hidden.value) && m.visible == m.outputs)
    case ChangeRecorded(a) => Building(m) && (m.change == None || m.change == Some(a))
    case ActionHeadRead(_, _) => Building(m) && m.head == None
    case ActionRecorded(pool, path, spend, output, kind) =>
      && Building(m) && SigningPath(path) && m.head == Some(Head(pool, spend))
      && (m.shieldedPath == None || m.shieldedPath == Some(path))
      && (kind == Dummy ==> output == 0)
      && (kind == Hidden ==> m.change.Some? && m.change == DerivationAccount(path) && m.visible == m.outputs)
    case Reviewed(approval, fee, shown, content) =>
      && Building(m) && m.reading == None && m.head == None
      && content.inputs == m.txins && content.outputs == m.txouts
      && m.header.Some? && HeaderTaken(content.tx, m.header.value)
      && fee == m.balance && fee >= 0
      && Grants(m.swap, approval)
      && m.outputs > 0 && ShowsOutputs(m, approval, shown)
    case Finished => m.kind == Pczt && m.reviewed
    case Signed(slot, path, content, _, complete) =>
      && m.content == Some(content)
      && m.kind == Pczt && m.reviewed && m.finished
      && slot in m.required && m.required[slot] == path && slot !in m.signed
      && MayRelease(m, path)
      && (complete <==> m.signed + {slot} == m.required.Keys)
    case LegacyParsed(inputs) =>
      m.kind != Pczt && (inputs.Some? ==> !m.reviewed && inputs.value <= MAX_COMPACT_SIZE)
    case LegacyChange(_) => m.kind == Legacy && !m.legacyOutputs
    case LegacyOutputRecorded(hidden) =>
      && m.kind == Legacy && !m.legacyOutputs
      && (hidden.Some? ==> m.change == hidden && m.visible == m.outputs)
    case LegacyOutputsDone(validated) =>
      m.kind == Legacy && !m.legacyOutputs && m.outputs > 0 && (m.swap ==> validated)
    case LegacyReviewed(approval, shown) =>
      && m.kind == Legacy && m.legacyOutputs && !m.reviewed
      && Grants(m.swap, approval) && (approval.Exchange? ==> approval.matches == m.legacyValidated)
      && ShowsOutputs(m, approval, shown)
    case LegacySigned(path, complete) =>
      && m.kind == Legacy && m.reviewed
      && MayRelease(m, path) && SigningPath(path)
      && (complete <==> SaturatingInc(m.legacySigned) == if m.legacyInputs == 0 then 1 else m.legacyInputs)
  }

  function ScriptGrown(r: Option<Reading>, bytes: seq<u8>): Option<Reading> {
    match r
    case None => None
    case Some(InputReading(prevout, sequence, a, script)) => Some(InputReading(prevout, sequence, a, script + bytes))
    case Some(OutputReading(a, script)) => Some(OutputReading(a, script + bytes))
  }

  function Step(m: Monitor, e: Event): Monitor {
    match e
    case Reset => Fresh(m.swap, m.epoch + 1, m.released, m.completions)
    case PcztStarted(header) => m.(kind := Pczt, header := Some(header))
    case InputValue(prevout, sequence, a) =>
      m.(balance := m.balance + a, reading := Some(InputReading(prevout, sequence, a, [])))
    case ScriptRead(bytes) => m.(reading := ScriptGrown(m.reading, bytes))
    case InputRecorded(path, input) =>
      m.(required := m.required[Transparent(m.inputs) := path], inputs := m.inputs + 1, txins := m.txins + [input],
         reading := None)
    case OutputValue(a) => m.(balance := m.balance - a, reading := Some(OutputReading(a, [])))
    case OutputRecorded(hidden, output) =>
      m.(outputs := m.outputs + 1, visible := m.visible + (if hidden.Some? then 0 else 1),
         txouts := m.txouts + [output], reading := None)
    case ChangeRecorded(a) => m.(change := Some(a))
    case ActionHeadRead(pool, spend) => m.(head := Some(Head(pool, spend)))
    case ActionRecorded(pool, path, spend, output, kind) =>
      m.(head := None,
         required := if spend == 0 then m.required else m.required[Action(pool, Actions(m, pool)) := path],
         orchardActions := m.orchardActions + (if pool == Orchard then 1 else 0),
         ironwoodActions := m.ironwoodActions + (if pool == Ironwood then 1 else 0),
         balance := m.balance + spend - output,
         outputs := m.outputs + (if kind == Dummy then 0 else 1),
         visible := m.visible + (if kind == Shown then 1 else 0),
         shieldedPath := Some(path))
    case Reviewed(_, _, _, content) => m.(reviewed := true, content := Some(content))
    case Finished => m.(finished := true)
    case Signed(slot, _, _, _, complete) =>
      m.(signed := m.signed + {slot}, released := Some(m.epoch), finished := !complete,
         completions := m.completions + if complete then 1 else 0)
    case LegacyParsed(inputs) =>
      m.(kind := Legacy, legacyInputs := if inputs.Some? then inputs.value else m.legacyInputs)
    case LegacyChange(a) => m.(change := Some(a))
    case LegacyOutputRecorded(hidden) =>
      m.(outputs := m.outputs + 1, visible := m.visible + if hidden.Some? then 0 else 1)
    case LegacyOutputsDone(validated) => m.(legacyOutputs := true, legacyValidated := validated)
    case LegacyReviewed(_, _) => m.(reviewed := true)
    case LegacySigned(_, complete) =>
      m.(legacySigned := SaturatingInc(m.legacySigned), released := Some(m.epoch),
         completions := m.completions + if complete then 1 else 0)
  }

  // The monitor after a log, or None once an event was not allowed.
  function Replay(swap: bool, log: seq<Event>): Option<Monitor> {
    if log == [] then Some(Fresh(swap, 0, None, 0))
    else
      match Replay(swap, log[..|log| - 1])
      case None => None
      case Some(m) => if Allowed(m, log[|log| - 1]) then Some(Step(m, log[|log| - 1])) else None
  }

  predicate Accepted(swap: bool, log: seq<Event>) { Replay(swap, log).Some? }

  // ---------------------------------------------------------------- whole runs

  // Event i is allowed and takes the monitor from ms[i] to ms[i + 1].
  ghost predicate StepAt(log: seq<Event>, ms: seq<Monitor>, i: nat)
    requires i < |log| && |ms| == |log| + 1
  {
    Allowed(ms[i], log[i]) && ms[i + 1] == Step(ms[i], log[i])
  }

  // The monitor states of an accepted log.
  ghost predicate IsTrace(swap: bool, log: seq<Event>, ms: seq<Monitor>) {
    && |ms| == |log| + 1
    && ms[0] == Fresh(swap, 0, None, 0)
    && forall i {:trigger StepAt(log, ms, i)} :: 0 <= i < |log| ==> StepAt(log, ms, i)
  }

  ghost function Trace(swap: bool, log: seq<Event>): (ms: seq<Monitor>)
    requires Accepted(swap, log)
    ensures IsTrace(swap, log, ms) && Replay(swap, log) == Some(ms[|log|])
  {
    if log == [] then [Fresh(swap, 0, None, 0)]
    else
      var n := |log| - 1;
      var ms := Trace(swap, log[..n]);
      TraceSnoc(swap, log, ms);
      ms + [Step(ms[n], log[n])]
  }

  // A trace shows the log accepted.
  lemma {:induction false} TraceAccepted(swap: bool, log: seq<Event>, ms: seq<Monitor>)
    requires IsTrace(swap, log, ms)
    ensures Replay(swap, log) == Some(ms[|log|])
  {
    if log != [] {
      var n := |log| - 1;
      TracePrefix(swap, log, ms);
      TraceAccepted(swap, log[..n], ms[..n + 1]);
      assert StepAt(log, ms, n);
    }
  }

  lemma TracePrefix(swap: bool, log: seq<Event>, ms: seq<Monitor>)
    requires IsTrace(swap, log, ms) && log != []
    ensures IsTrace(swap, log[..|log| - 1], ms[..|log|])
  {
    var n := |log| - 1;
    var log', ms' := log[..n], ms[..n + 1];
    forall i | 0 <= i < n ensures StepAt(log', ms', i) {
      assert StepAt(log, ms, i);
    }
  }

  lemma TraceSnoc(swap: bool, log: seq<Event>, ms: seq<Monitor>)
    requires |log| > 0 && IsTrace(swap, log[..|log| - 1], ms) && Allowed(ms[|log| - 1], log[|log| - 1])
    ensures IsTrace(swap, log, ms + [Step(ms[|log| - 1], log[|log| - 1])])
  {
    var n := |log| - 1;
    var r := ms + [Step(ms[n], log[n])];
    forall i | 0 <= i < |log| ensures StepAt(log, r, i) {
      if i < n { EarlierStep(log, ms, r, i); }
    }
  }

  lemma EarlierStep(log: seq<Event>, ms: seq<Monitor>, r: seq<Monitor>, i: nat)
    requires |ms| == |log| && |r| == |log| + 1 && r[..|log|] == ms && i < |log| - 1 && StepAt(log[..|log| - 1], ms, i)
    ensures StepAt(log, r, i)
  {
    assert r[i] == ms[i] && r[i + 1] == ms[i + 1];
  }

  // A longer log has the states of its prefixes.
  lemma {:induction false} TraceGrows(swap: bool, log: seq<Event>, ms: seq<Monitor>, log': seq<Event>,
                                      ms': seq<Monitor>, k: nat)
    requires IsTrace(swap, log, ms) && IsTrace(swap, log', ms') && log <= log' && k <= |log|
    ensures ms'[k] == ms[k]
  {
    if k > 0 {
      TraceGrows(swap, log, ms, log', ms', k - 1);
      assert StepAt(log, ms, k - 1) && StepAt(log', ms', k - 1);
    }
  }

  // The slot awaits its signature, and its path is the one hidden outputs return to.
  predicate SlotSignable(m: Monitor, slot: Slot) {
    m.kind == Pczt && m.finished && slot in m.required && slot !in m.signed && ChangeReturns(m.change, m.required[slot])
  }

  // Every shielded spend is signed under the path of all the actions.
  ghost predicate OneShieldedPath(m: Monitor) {
    forall slot :: slot in m.required && slot.Action? ==> m.shieldedPath == Some(m.required[slot])
  }

  lemma StepShieldedPath(log: seq<Event>, ms: seq<Monitor>, i: nat)
    requires i < |log| && |ms| == |log| + 1 && StepAt(log, ms, i) && OneShieldedPath(ms[i])
    ensures OneShieldedPath(ms[i + 1])
  {
    match log[i]
    case InputRecorded(_, _) =>
    case ActionRecorded(_, _, _, _, _) =>
    case _ =>
  }

  lemma {:induction false} ActionsShareTheirPath(swap: bool, log: seq<Event>, ms: seq<Monitor>, j: nat)
    requires IsTrace(swap, log, ms) && j <= |log|
    ensures OneShieldedPath(ms[j])
  {
    if j > 0 {
      ActionsShareTheirPath(swap, log, ms, j - 1);
      StepShieldedPath(log, ms, j - 1);
    }
  }

  // Events i up to j belong to one context epoch.
  ghost predicate SameEpoch(log: seq<Event>, i: nat, j: nat) {
    i <= j <= |log| && forall k :: i <= k < j ==> log[k] != Reset
  }

  // Event i precedes j in the same epoch.
  ghost predicate Earlier(log: seq<Event>, i: nat, j: nat) { i < j && SameEpoch(log, i, j) }

  predicate IsSignature(e: Event) { e.Signed? || e.LegacySigned? }
  predicate IsLegacy(e: Event) {
    || e.LegacyParsed? || e.LegacyChange? || e.LegacyOutputRecorded? || e.LegacyOutputsDone?
    || e.LegacyReviewed? || e.LegacySigned?
  }

  // What only grows, or stays, while no reset happens.
  ghost predicate Extends(m: Monitor, n: Monitor) {
    && m.signed <= n.signed
    && (m.kind == Pczt ==> n.kind == Pczt)
    && (m.kind == Pczt && m.change.Some? ==> n.change == m.change)
  }

  lemma StepExtends(log: seq<Event>, ms: seq<Monitor>, i: nat)
    requires i < |log| && |ms| == |log| + 1 && StepAt(log, ms, i) && log[i] != Reset
    ensures Extends(ms[i], ms[i + 1])
  {}

  lemma {:induction false} EpochExtends(swap: bool, log: seq<Event>, ms: seq<Monitor>, i: nat, j: nat)
    requires IsTrace(swap, log, ms) && SameEpoch(log, i, j)
    ensures Extends(ms[i], ms[j])
    decreases j - i
  {
    if i < j {
      EpochExtends(swap, log, ms, i, j - 1);
      StepExtends(log, ms, j - 1);
    }
  }

  // Only a reset moves the epoch, and only a signature moves the released epoch.
  lemma EpochOfStep(m: Monitor, e: Event)
    ensures Step(m, e).swap == m.swap && Step(m, e).epoch == m.epoch + (if e == Reset then 1 else 0)
    ensures Step(m, e).released == (if IsSignature(e) then Some(m.epoch) else m.released)
    ensures Step(m, e).completions == m.completions + (if Completes(e) then 1 else 0)
  {
    match e
    case Reset =>
    case Signed(_, _, _, _, _) =>
    case LegacySigned(_, _) =>
    case _ =>
  }

  lemma StepEpoch(log: seq<Event>, ms: seq<Monitor>, i: nat)
    requires i < |log| && |ms| == |log| + 1 && StepAt(log, ms, i)
    ensures ms[i + 1].swap == ms[i].swap && ms[i + 1].epoch == ms[i].epoch + (if log[i] == Reset then 1 else 0)
    ensures ms[i + 1].released == (if IsSignature(log[i]) then Some(ms[i].epoch) else ms[i].released)
    ensures IsSignature(log[i]) ==> MayRelease(ms[i], log[i].path)
  {
    EpochOfStep(ms[i], log[i]);
  }

  lemma {:induction false} EpochNumbers(swap: bool, log: seq<Event>, ms: seq<Monitor>, i: nat, j: nat)
    requires IsTrace(swap, log, ms) && i <= j <= |log|
    ensures ms[i].epoch <= ms[j].epoch && ms[i].swap == ms[j].swap
    ensures ms[i].epoch == ms[j].epoch ==> SameEpoch(log, i, j)
    decreases j - i
  {
    if i < j {
      EpochNumbers(swap, log, ms, i, j - 1);
      StepEpoch(log, ms, j - 1);
    }
  }

  // Once a signature was released in swap mode, every later one is released in its epoch.
  lemma {:induction false} ReleasedEpochStays(log: seq<Event>, ms: seq<Monitor>, i: nat, j: nat, epoch: nat)
    requires IsTrace(true, log, ms) && i <= j <= |log| && ms[i].released == Some(epoch)
    ensures ms[j].released == Some(epoch)
    decreases j - i
  {
    if i < j {
      ReleasedEpochStays(log, ms, i, j - 1, epoch);
      EpochNumbers(true, log, ms, 0, j - 1);
      StepEpoch(log, ms, j - 1);
    }
  }

  /** In swap mode all released signatures come from one context epoch. */
  lemma SwapSignaturesShareOneEpoch(log: seq<Event>, i: nat, j: nat)
    requires Accepted(true, log) && i < j < |log| && IsSignature(log[i]) && IsSignature(log[j])
    ensures SameEpoch(log, i, j)
  {
    var ms := Trace(true, log);
    StepEpoch(log, ms, i);
    ReleasedEpochStays(log, ms, i + 1, j, ms[i].epoch);
    EpochNumbers(true, log, ms, 0, j);
    StepEpoch(log, ms, j);
    EpochNumbers(true, log, ms, i, j);
  }

  // What a PCZT signature requires and leaves.
  lemma StepSigned(log: seq<Event>, ms: seq<Monitor>, i: nat)
    requires i < |log| && |ms| == |log| + 1 && StepAt(log, ms, i) && log[i].Signed?
    ensures var m, e := ms[i], log[i];
            && m.kind == Pczt && m.finished
            && e.slot in m.required && m.required[e.slot] == e.path
            && e.slot !in m.signed && e.slot in ms[i + 1].signed
            && ChangeReturns(m.change, e.path)
            && (e.complete <==> ms[i + 1].signed == m.required.Keys)
  {}

  /** No transparent input and no action is signed twice in one epoch. */
  lemma SignedAtMostOnce(swap: bool, log: seq<Event>, i: nat, j: nat)
    requires Accepted(swap, log) && Earlier(log, i, j) && j < |log| && log[i].Signed? && log[j].Signed?
    ensures log[i].slot != log[j].slot
  {
    var ms := Trace(swap, log);
    StepSigned(log, ms, i);
    EpochExtends(swap, log, ms, i + 1, j);
    StepSigned(log, ms, j);
  }

  // The account the outputs hidden or declared by an event belong to.
  lemma StepChange(log: seq<Event>, ms: seq<Monitor>, i: nat)
    requires i < |log| && |ms| == |log| + 1 && StepAt(log, ms, i)
    ensures log[i].ChangeRecorded? ==> ms[i + 1].kind == Pczt && ms[i + 1].change == Some(log[i].account)
    ensures IsSignature(log[i]) ==> ChangeReturns(ms[i].change, log[i].path)
  {
    match log[i]
    case ChangeRecorded(_) =>
    case Signed(_, _, _, _, _) =>
    case LegacySigned(_, _) =>
    case _ =>
  }

  lemma StepHides(log: seq<Event>, ms: seq<Monitor>, i: nat)
    requires i < |log| && |ms| == |log| + 1 && StepAt(log, ms, i)
    ensures log[i].OutputRecorded? && log[i].hidden.Some? ==>
              && ms[i].kind == Pczt && ms[i].change.Some? && ms[i].change == DerivationAccount(log[i].hidden.value)
              && ChangePath(log[i].hidden.value)
    ensures log[i].ActionRecorded? && log[i].kind == Hidden ==>
              ms[i].kind == Pczt && ms[i].change.Some? && ms[i].change == DerivationAccount(log[i].path)
  {
    match log[i]
    case OutputRecorded(_, _) =>
    case ActionRecorded(_, _, _, _, _) =>
    case _ =>
  }

  lemma StepKind(log: seq<Event>, ms: seq<Monitor>, i: nat)
    requires i < |log| && |ms| == |log| + 1 && StepAt(log, ms, i)
    ensures IsLegacy(log[i]) ==> ms[i].kind != Pczt
    ensures log[i].PcztStarted? ==> ms[i + 1].kind == Pczt
  {}

  /** Once recorded in a PCZT session, the change account governs every later signature of the epoch. */
  lemma ChangeAccountGoverns(swap: bool, log: seq<Event>, i: nat, j: nat)
    requires Accepted(swap, log) && Earlier(log, i, j) && j < |log| && log[i].ChangeRecorded? && IsSignature(log[j])
    ensures DerivationAccount(log[j].path) == Some(log[i].account)
  {
    var ms := Trace(swap, log);
    StepChange(log, ms, i);
    EpochExtends(swap, log, ms, i + 1, j);
    StepChange(log, ms, j);
  }

  /** Two records of the change account in one epoch agree. */
  lemma ChangeAccountIsStable(swap: bool, log: seq<Event>, i: nat, j: nat)
    requires Accepted(swap, log) && Earlier(log, i, j) && j < |log| && log[i].ChangeRecorded? && log[j].ChangeRecorded?
    ensures log[i].account == log[j].account
  {
    var ms := Trace(swap, log);
    StepChange(log, ms, i);
    EpochExtends(swap, log, ms, i + 1, j);
    StepChange(log, ms, j);
    EpochExtends(swap, log, ms, i + 1, j + 1);
  }

  predicate HidesOutput(e: Event) { (e.OutputRecorded? && e.hidden.Some?) || (e.ActionRecorded? && e.kind == Hidden) }

  // The path an output is hidden under.
  function HiddenUnder(e: Event): Path
    requires HidesOutput(e)
  {
    if e.OutputRecorded? then e.hidden.value else e.path
  }

  /**
   An output hidden from the review pays the account of every signature made in its
   epoch, and a transparent one is hidden only under a full BIP-44 change path.
   */
  lemma HiddenOutputsReturn(swap: bool, log: seq<Event>, i: nat, j: nat)
    requires Accepted(swap, log) && Earlier(log, i, j) && j < |log| && HidesOutput(log[i]) && IsSignature(log[j])
    ensures DerivationAccount(log[j].path).Some?
    ensures DerivationAccount(log[j].path) == DerivationAccount(HiddenUnder(log[i]))
    ensures log[i].OutputRecorded? ==> Bip44Path(log[i].hidden.value, 1)
  {
    var ms := Trace(swap, log);
    StepHides(log, ms, i);
    EpochExtends(swap, log, ms, i, j);
    StepChange(log, ms, j);
    AcceptedPaths(HiddenUnder(log[i]));
    FullExact(HiddenUnder(log[i]), true);
  }

  predicate HidesAny(e: Event) { HidesOutput(e) || (e.LegacyOutputRecorded? && e.hiddenFor.Some?) }

  lemma StepVisible(log: seq<Event>, ms: seq<Monitor>, i: nat)
    requires i < |log| && |ms| == |log| + 1 && StepAt(log, ms, i) && log[i] != Reset
    ensures HidesAny(log[i]) ==> ms[i].visible == ms[i].outputs
    ensures ms[i + 1].outputs - ms[i + 1].visible == ms[i].outputs - ms[i].visible + if HidesAny(log[i]) then 1 else 0
  {
    match log[i]
    case OutputRecorded(_, _) =>
    case ActionRecorded(_, _, _, _, _) =>
    case LegacyOutputRecorded(_) =>
    case _ =>
  }

  lemma {:induction false} HiddenStays(swap: bool, log: seq<Event>, ms: seq<Monitor>, i: nat, j: nat)
    requires IsTrace(swap, log, ms) && SameEpoch(log, i, j)
    ensures ms[j].outputs - ms[j].visible >= ms[i].outputs - ms[i].visible
    decreases j - i
  {
    if i < j {
      HiddenStays(swap, log, ms, i, j - 1);
      StepVisible(log, ms, j - 1);
    }
  }

  /** At most one output of a transaction is kept off its review, whatever pool it is in. */
  lemma OneHiddenOutput(swap: bool, log: seq<Event>, i: nat, j: nat)
    requires Accepted(swap, log) && Earlier(log, i, j) && j < |log| && HidesAny(log[i])
    ensures !HidesAny(log[j])
  {
    var ms := Trace(swap, log);
    if log[j] != Reset {
      StepVisible(log, ms, i);
      HiddenStays(swap, log, ms, i + 1, j);
      StepVisible(log, ms, j);
    }
  }

  /** No legacy or trusted-input packet is accepted after a PCZT started, until a reset. */
  lemma NoLegacyAfterPczt(swap: bool, log: seq<Event>, i: nat, j: nat)
    requires Accepted(swap, log) && i < j < |log| && log[i].PcztStarted? && IsLegacy(log[j])
    ensures !SameEpoch(log, i, j)
  {
    var ms := Trace(swap, log);
    StepKind(log, ms, i);
    StepKind(log, ms, j);
    if SameEpoch(log, i, j) {
      EpochExtends(swap, log, ms, i + 1, j);
    }
  }

  // ---------------------------------------------------------------- approval

  ghost predicate ReviewedBefore(log: seq<Event>, j: nat) {
    exists r: nat :: Earlier(log, r, j) && log[r].Reviewed?
  }

  // An approval of the outputs and then the close of the PCZT came before j in its epoch.
  ghost predicate ClosedBefore(log: seq<Event>, j: nat) {
    exists f: nat :: Earlier(log, f, j) && log[f].Finished? && ReviewedBefore(log, f)
  }

  lemma ReviewedStep(log: seq<Event>, j: nat)
    requires j < |log| && log[j] != Reset && (ReviewedBefore(log, j) || log[j].Reviewed?)
    ensures ReviewedBefore(log, j + 1)
  {
    if log[j].Reviewed? {
      assert Earlier(log, j, j + 1);
    } else {
      var r: nat :| Earlier(log, r, j) && log[r].Reviewed?;
      assert Earlier(log, r, j + 1);
    }
  }

  lemma ClosedStep(log: seq<Event>, j: nat)
    requires j < |log| && log[j] != Reset && (ClosedBefore(log, j) || (log[j].Finished? && ReviewedBefore(log, j)))
    ensures ClosedBefore(log, j + 1)
  {
    if log[j].Finished? && ReviewedBefore(log, j) {
      assert Earlier(log, j, j + 1);
    } else {
      var f: nat :| Earlier(log, f, j) && log[f].Finished? && ReviewedBefore(log, f);
      assert Earlier(log, f, j + 1);
    }
  }

  // How the approval flags of a PCZT epoch come about.
  lemma StepFlags(log: seq<Event>, ms: seq<Monitor>, i: nat)
    requires i < |log| && |ms| == |log| + 1 && StepAt(log, ms, i)
    ensures var m, n, e := ms[i], ms[i + 1], log[i];
            && (n.kind == Pczt ==> e != Reset && (m.kind == Pczt || (e.PcztStarted? && m.kind == Idle)))
            && (n.kind == Pczt && n.reviewed ==> m.reviewed || e.Reviewed?)
            && (n.kind == Pczt && n.finished ==> m.finished || (e == Finished && m.reviewed))
  {
    match log[i]
    case PcztStarted(_) =>
    case Reviewed(_, _, _, _) =>
    case Finished =>
    case _ =>
  }

  lemma StepIdle(log: seq<Event>, ms: seq<Monitor>, i: nat)
    requires i < |log| && |ms| == |log| + 1 && StepAt(log, ms, i) && ms[i + 1].kind == Idle
    ensures IsFresh(ms[i + 1])
  {}

  lemma IdleIsFresh(swap: bool, log: seq<Event>, ms: seq<Monitor>, j: nat)
    requires IsTrace(swap, log, ms) && j <= |log| && ms[j].kind == Idle
    ensures IsFresh(ms[j])
  {
    if j > 0 { StepIdle(log, ms, j - 1); }
  }

  lemma {:induction false} FlagsHaveCauses(swap: bool, log: seq<Event>, ms: seq<Monitor>, j: nat)
    requires IsTrace(swap, log, ms) && j <= |log| && ms[j].kind == Pczt
    ensures ms[j].reviewed ==> ReviewedBefore(log, j)
    ensures ms[j].finished ==> ClosedBefore(log, j)
  {
    if j > 0 {
      StepFlags(log, ms, j - 1);
      if ms[j - 1].kind == Pczt {
        FlagsHaveCauses(swap, log, ms, j - 1);
        if ms[j].reviewed { ReviewedStep(log, j - 1); }
        if ms[j].finished { ClosedStep(log, j - 1); }
      } else {
        IdleIsFresh(swap, log, ms, j - 1);
      }
    }
  }

  /** Every PCZT signature follows, in its epoch, an approval of the outputs and then the close of the PCZT. */
  lemma SignedAfterReview(swap: bool, log: seq<Event>, j: nat)
    requires Accepted(swap, log) && j < |log| && log[j].Signed?
    ensures ClosedBefore(log, j)
  {
    var ms := Trace(swap, log);
    StepSigned(log, ms, j);
    FlagsHaveCauses(swap, log, ms, j);
  }

  /** Every approval on record is a yes: the user's outside swap mode, the Exchange check's in swap mode. */
  lemma ApprovalMatchesMode(swap: bool, log: seq<Event>, r: nat)
    requires Accepted(swap, log) && r < |log| && (log[r].Reviewed? || log[r].LegacyReviewed?)
    ensures Grants(swap, log[r].approval)
  {
    var ms := Trace(swap, log);
    EpochNumbers(swap, log, ms, 0, r);
    assert StepAt(log, ms, r);
  }

  // ---------------------------------------------------------------- what is signed

  // The event records an entry of the list `slot` indexes.
  predicate SameShape(e: Event, slot: Slot) {
    match slot
    case Transparent(_) => e.InputRecorded?
    case Action(pool, _) => e.ActionRecorded? && e.pool == pool
  }

  // The number of entries recorded in that list between i and j.
  ghost function RecordedBetween(log: seq<Event>, slot: Slot, i: nat, j: nat): nat
    requires i <= j <= |log|
    decreases j
  {
    if i == j then 0 else RecordedBetween(log, slot, i, j - 1) + if SameShape(log[j - 1], slot) then 1 else 0
  }

  // The epoch of j started at s.
  ghost predicate EpochStart(log: seq<Event>, s: nat, j: nat) {
    SameEpoch(log, s, j) && (s == 0 || log[s - 1] == Reset)
  }

  lemma AtEpochStart(swap: bool, log: seq<Event>, ms: seq<Monitor>, s: nat)
    requires IsTrace(swap, log, ms) && s <= |log| && (s == 0 || log[s - 1] == Reset)
    ensures IsFresh(ms[s])
  {
    if s > 0 { assert StepAt(log, ms, s - 1); }
  }

  // Event i recorded `slot` with `path`, as entry number slot.index of the epoch that
  // started at s; an action records its slot only for a real spend.
  ghost predicate Records(log: seq<Event>, s: nat, i: nat, slot: Slot, path: Path) {
    && s <= i < |log| && SameShape(log[i], slot) && log[i].path == path
    && RecordedBetween(log, slot, s, i) == slot.index
    && (log[i].ActionRecorded? ==> log[i].spend != 0)
  }

  // The length of the list `slot` indexes.
  function ListLength(m: Monitor, slot: Slot): nat {
    if slot.Transparent? then m.inputs else Actions(m, slot.pool)
  }

  // What a step does to the lists and to the slots awaiting a signature.
  lemma StepRequired(log: seq<Event>, ms: seq<Monitor>, i: nat, slot: Slot)
    requires i < |log| && |ms| == |log| + 1 && StepAt(log, ms, i) && log[i] != Reset
    ensures var m, n, e := ms[i], ms[i + 1], log[i];
            && ListLength(n, slot) == ListLength(m, slot) + (if SameShape(e, slot) then 1 else 0)
            && (slot in n.required ==>
                  || (slot in m.required && m.required[slot] == n.required[slot])
                  || (&& SameShape(e, slot) && e.path == n.required[slot] && slot.index == ListLength(m, slot)
                      && (e.ActionRecorded? ==> e.spend != 0)))
  {
    match log[i]
    case InputRecorded(_, _) =>
    case ActionRecorded(_, _, _, _, _) =>
    case _ =>
  }

  lemma {:induction false} ListsAreRecords(swap: bool, log: seq<Event>, ms: seq<Monitor>, s: nat, j: nat, slot: Slot)
    requires IsTrace(swap, log, ms) && EpochStart(log, s, j)
    ensures ListLength(ms[j], slot) == RecordedBetween(log, slot, s, j)
    decreases j
  {
    if s == j {
      AtEpochStart(swap, log, ms, s);
    } else {
      ListsAreRecords(swap, log, ms, s, j - 1, slot);
      StepRequired(log, ms, j - 1, slot);
    }
  }

  lemma NothingRequired(swap: bool, log: seq<Event>, ms: seq<Monitor>, s: nat, slot: Slot)
    requires IsTrace(swap, log, ms) && s <= |log| && (s == 0 || log[s - 1] == Reset)
    ensures slot !in ms[s].required && slot !in ms[s].signed
  {
    AtEpochStart(swap, log, ms, s);
  }

  lemma {:induction false} RequiredIsRecorded(swap: bool, log: seq<Event>, ms: seq<Monitor>, s: nat, j: nat, slot: Slot)
    returns (i: nat)
    requires IsTrace(swap, log, ms) && EpochStart(log, s, j) && slot in ms[j].required
    ensures i < j && Records(log, s, i, slot, ms[j].required[slot])
    decreases j
  {
    if s == j {
      NothingRequired(swap, log, ms, s, slot);
    } else {
      StepRequired(log, ms, j - 1, slot);
      if slot in ms[j - 1].required && ms[j - 1].required[slot] == ms[j].required[slot] {
        i := RequiredIsRecorded(swap, log, ms, s, j - 1, slot);
      } else {
        ListsAreRecords(swap, log, ms, s, j - 1, slot);
        i := j - 1;
      }
    }
  }

  /**
   A signature is only released for an input, or for an action carrying a real spend,
   recorded in the same epoch under the path it is signed with: no dummy is signed.
   */
  lemma SignedWasRecorded(swap: bool, log: seq<Event>, s: nat, j: nat)
    requires Accepted(swap, log) && j < |log| && log[j].Signed? && EpochStart(log, s, j)
    ensures exists i: nat :: i < j && Records(log, s, i, log[j].slot, log[j].path)
  {
    var ms := Trace(swap, log);
    StepSigned(log, ms, j);
    var i := RequiredIsRecorded(swap, log, ms, s, j, log[j].slot);
  }

  // A recorded or legacy-signed path is one the application signs for.
  lemma StepPath(log: seq<Event>, ms: seq<Monitor>, i: nat)
    requires i < |log| && |ms| == |log| + 1 && StepAt(log, ms, i)
    ensures log[i].InputRecorded? || log[i].ActionRecorded? || log[i].LegacySigned? ==> SigningPath(log[i].path)
  {}

  // Where the epoch of j starts.
  lemma {:induction false} EpochHasStart(log: seq<Event>, j: nat) returns (s: nat)
    requires j <= |log|
    ensures EpochStart(log, s, j)
  {
    if j == 0 || log[j - 1] == Reset {
      s := j;
    } else {
      s := EpochHasStart(log, j - 1);
    }
  }

  /** Every signature uses m/44'/133' with three more components, or m/32'/133'/a', hardening included. */
  lemma SignaturesUseWalletPaths(swap: bool, log: seq<Event>, j: nat)
    requires Accepted(swap, log) && j < |log| && IsSignature(log[j])
    ensures Zip32Path(log[j].path) || Bip44Tail(log[j].path)
  {
    var ms := Trace(swap, log);
    StepPath(log, ms, j);
    if log[j].Signed? {
      var s := EpochHasStart(log, j);
      SignedWasRecorded(swap, log, s, j);
      var i: nat :| i < j && Records(log, s, i, log[j].slot, log[j].path);
      StepPath(log, ms, i);
    }
    AcceptedPaths(log[j].path);
  }

  // ---------------------------------------------------------------- completion

  // Slots signed, and slots recorded for signing, between s and j.
  ghost predicate SignedBetween(log: seq<Event>, s: nat, j: nat, slot: Slot) {
    exists i: nat :: s <= i < j <= |log| && log[i].Signed? && log[i].slot == slot
  }

  lemma StepSignedSet(log: seq<Event>, ms: seq<Monitor>, i: nat, slot: Slot)
    requires i < |log| && |ms| == |log| + 1 && StepAt(log, ms, i) && log[i] != Reset
    ensures slot in ms[i + 1].signed <==> slot in ms[i].signed || (log[i].Signed? && log[i].slot == slot)
  {
    match log[i]
    case Signed(_, _, _, _, _) =>
    case _ =>
  }

  lemma StepRequires(log: seq<Event>, ms: seq<Monitor>, i: nat, slot: Slot)
    requires i < |log| && |ms| == |log| + 1 && StepAt(log, ms, i) && log[i] != Reset
    ensures slot in ms[i].required ==> slot in ms[i + 1].required
    ensures (&& SameShape(log[i], slot) && slot.index == ListLength(ms[i], slot)
             && (log[i].ActionRecorded? ==> log[i].spend != 0)) ==> slot in ms[i + 1].required
  {
    match log[i]
    case InputRecorded(_, _) =>
    case ActionRecorded(_, _, _, _, _) =>
    case _ =>
  }

  lemma {:induction false} SignedSetIsEvents(swap: bool, log: seq<Event>, ms: seq<Monitor>, s: nat, j: nat, slot: Slot)
    requires IsTrace(swap, log, ms) && EpochStart(log, s, j)
    ensures slot in ms[j].signed <==> SignedBetween(log, s, j, slot)
    decreases j
  {
    if s == j {
      NothingRequired(swap, log, ms, s, slot);
    } else {
      SignedSetIsEvents(swap, log, ms, s, j - 1, slot);
      StepSignedSet(log, ms, j - 1, slot);
      if SignedBetween(log, s, j - 1, slot) {
        var i: nat :| s <= i < j - 1 <= |log| && log[i].Signed? && log[i].slot == slot;
        assert s <= i < j;
      }
    }
  }

  lemma {:induction false} RecordedIsRequired(swap: bool, log: seq<Event>, ms: seq<Monitor>, s: nat, i: nat, j: nat,
                                              slot: Slot, path: Path)
    requires IsTrace(swap, log, ms) && EpochStart(log, s, j) && i < j && Records(log, s, i, slot, path)
    ensures slot in ms[j].required
    decreases j
  {
    StepRequires(log, ms, j - 1, slot);
    if i == j - 1 {
      ListsAreRecords(swap, log, ms, s, i, slot);
    } else {
      RecordedIsRequired(swap, log, ms, s, i, j - 1, slot, path);
    }
  }

  // Every entry recorded for signing before j has been signed up to and including j.
  ghost predicate AllSignedBy(log: seq<Event>, s: nat, j: nat) {
    forall i: nat, slot: Slot, path: Path ::
      i < j && Records(log, s, i, slot, path) ==> SignedBetween(log, s, j + 1, slot)
  }

  lemma AllSignedIfRequired(swap: bool, log: seq<Event>, ms: seq<Monitor>, s: nat, j: nat)
    requires IsTrace(swap, log, ms) && EpochStart(log, s, j + 1) && s <= j < |log|
    requires ms[j].required.Keys <= ms[j + 1].signed
    ensures AllSignedBy(log, s, j)
  {
    forall i: nat, slot: Slot, path: Path | i < j && Records(log, s, i, slot, path)
      ensures SignedBetween(log, s, j + 1, slot)
    {
      RecordedIsRequired(swap, log, ms, s, i, j, slot, path);
      SignedSetIsEvents(swap, log, ms, s, j + 1, slot);
    }
  }

  lemma RequiredIfAllSigned(swap: bool, log: seq<Event>, ms: seq<Monitor>, s: nat, j: nat)
    requires IsTrace(swap, log, ms) && EpochStart(log, s, j + 1) && s <= j < |log| && AllSignedBy(log, s, j)
    ensures ms[j].required.Keys <= ms[j + 1].signed
  {
    forall slot | slot in ms[j].required ensures slot in ms[j + 1].signed {
      var i := RequiredIsRecorded(swap, log, ms, s, j, slot);
      SignedSetIsEvents(swap, log, ms, s, j + 1, slot);
    }
  }

  /**
   A signature reports the transaction complete exactly when every input and every
   real spend recorded in its epoch has been signed.
   */
  lemma CompleteExactly(swap: bool, log: seq<Event>, s: nat, j: nat)
    requires Accepted(swap, log) && j < |log| && log[j].Signed? && EpochStart(log, s, j)
    ensures log[j].complete <==> AllSignedBy(log, s, j)
  {
    CompleteInTrace(swap, log, Trace(swap, log), s, j);
  }

  lemma CompleteInTrace(swap: bool, log: seq<Event>, ms: seq<Monitor>, s: nat, j: nat)
    requires IsTrace(swap, log, ms) && j < |log| && log[j].Signed? && EpochStart(log, s, j)
    ensures log[j].complete <==> AllSignedBy(log, s, j)
  {
    StepSigned(log, ms, j);
    SignedAreRequired(swap, log, ms, s, j);
    if log[j].complete {
      AllSignedIfRequired(swap, log, ms, s, j);
    } else if AllSignedBy(log, s, j) {
      RequiredIfAllSigned(swap, log, ms, s, j);
    }
  }

  lemma SignedAreRequired(swap: bool, log: seq<Event>, ms: seq<Monitor>, s: nat, j: nat)
    requires IsTrace(swap, log, ms) && EpochStart(log, s, j) && j < |log| && log[j].Signed?
    ensures ms[j + 1].signed <= ms[j].required.Keys
  {
    StepSigned(log, ms, j);
    forall slot | slot in ms[j + 1].signed ensures slot in ms[j].required {
      StepSignedSet(log, ms, j, slot);
      if slot in ms[j].signed { SignedWithin(swap, log, ms, s, j, slot); }
    }
  }

  // Only slots awaiting a signature are signed.
  lemma {:induction false} SignedWithin(swap: bool, log: seq<Event>, ms: seq<Monitor>, s: nat, j: nat, slot: Slot)
    requires IsTrace(swap, log, ms) && EpochStart(log, s, j) && slot in ms[j].signed
    ensures slot in ms[j].required
    decreases j
  {
    if s == j {
      NothingRequired(swap, log, ms, s, slot);
    } else {
      StepSignedSet(log, ms, j - 1, slot);
      StepRequires(log, ms, j - 1, slot);
      if slot in ms[j - 1].signed {
        SignedWithin(swap, log, ms, s, j - 1, slot);
      } else {
        StepSigned(log, ms, j - 1);
      }
    }
  }

  // The number of completing signatures among the first j events.
  ghost function CompletionsBefore(log: seq<Event>, j: nat): nat
    requires j <= |log|
  {
    if j == 0 then 0 else CompletionsBefore(log, j - 1) + if Completes(log[j - 1]) then 1 else 0
  }

  lemma {:induction false} CompletionsCounted(swap: bool, log: seq<Event>, ms: seq<Monitor>, j: nat)
    requires IsTrace(swap, log, ms) && j <= |log|
    ensures ms[j].completions == CompletionsBefore(log, j)
  {
    if j > 0 {
      CompletionsCounted(swap, log, ms, j - 1);
      assert StepAt(log, ms, j - 1);
      EpochOfStep(ms[j - 1], log[j - 1]);
    }
  }

  lemma {:induction false} NoCompletionBefore(log: seq<Event>, i: nat, j: nat)
    requires i < j <= |log| && Completes(log[i])
    ensures CompletionsBefore(log, j) > 0
  {
    if i < j - 1 { NoCompletionBefore(log, i, j - 1); }
  }

  // ---------------------------------------------------------------- conservation

  // Value entering the transaction less value leaving it, over events i up to j.
  ghost function NetValue(log: seq<Event>, i: nat, j: nat): int
    requires i <= j <= |log|
    decreases j
  {
    if i == j then 0 else NetValue(log, i, j - 1) + Value(log[j - 1])
  }

  function Value(e: Event): int {
    match e
    case InputValue(_, _, a) => a
    case OutputValue(a) => 0 - a
    case ActionRecorded(_, _, spend, output, _) => spend - output
    case _ => 0
  }

  lemma StepBalance(log: seq<Event>, ms: seq<Monitor>, i: nat)
    requires i < |log| && |ms| == |log| + 1 && StepAt(log, ms, i) && log[i] != Reset
    ensures ms[i + 1].balance == ms[i].balance + Value(log[i])
    ensures log[i].Reviewed? ==> log[i].fee == ms[i].balance >= 0
  {
    match log[i]
    case InputValue(_, _, _) =>
    case OutputValue(_) =>
    case ActionRecorded(_, _, _, _, _) =>
    case Reviewed(_, _, _, _) =>
    case _ =>
  }

  lemma {:induction false} BalanceIsNet(swap: bool, log: seq<Event>, ms: seq<Monitor>, s: nat, j: nat)
    requires IsTrace(swap, log, ms) && EpochStart(log, s, j)
    ensures ms[j].balance == NetValue(log, s, j)
    decreases j
  {
    if s == j {
      AtEpochStart(swap, log, ms, s);
    } else {
      BalanceIsNet(swap, log, ms, s, j - 1);
      StepBalance(log, ms, j - 1);
    }
  }

  /** The fee approved is all that entered the transaction less all that leaves it, over the three pools. */
  lemma FeeIsConserved(swap: bool, log: seq<Event>, s: nat, j: nat)
    requires Accepted(swap, log) && j < |log| && log[j].Reviewed? && EpochStart(log, s, j)
    ensures log[j].fee == NetValue(log, s, j) >= 0
  {
    var ms := Trace(swap, log);
    StepBalance(log, ms, j);
    BalanceIsNet(swap, log, ms, s, j);
  }

  // ---------------------------------------------------------------- what the digests cover

  // The transparent inputs, and outputs, recorded between i and j.
  ghost function InputsBetween(log: seq<Event>, i: nat, j: nat): seq<TransparentInput>
    requires i <= j <= |log|
    decreases j
  {
    if i == j then []
    else InputsBetween(log, i, j - 1) + if log[j - 1].InputRecorded? then [log[j - 1].txin] else []
  }

  ghost function OutputsBetween(log: seq<Event>, i: nat, j: nat): seq<TransparentOutput>
    requires i <= j <= |log|
    decreases j
  {
    if i == j then []
    else OutputsBetween(log, i, j - 1) + if log[j - 1].OutputRecorded? then [log[j - 1].txout] else []
  }

  lemma StepContent(log: seq<Event>, ms: seq<Monitor>, i: nat)
    requires i < |log| && |ms| == |log| + 1 && StepAt(log, ms, i) && log[i] != Reset
    ensures ms[i + 1].txins == ms[i].txins + if log[i].InputRecorded? then [log[i].txin] else []
    ensures ms[i + 1].txouts == ms[i].txouts + if log[i].OutputRecorded? then [log[i].txout] else []
    ensures ms[i + 1].content == if log[i].Reviewed? then Some(log[i].content) else ms[i].content
  {
    match log[i]
    case InputRecorded(_, _) =>
    case OutputRecorded(_, _) =>
    case Reviewed(_, _, _, _) =>
    case _ =>
  }

  lemma {:induction false} ListsAreEvents(swap: bool, log: seq<Event>, ms: seq<Monitor>, s: nat, j: nat)
    requires IsTrace(swap, log, ms) && EpochStart(log, s, j)
    ensures ms[j].txins == InputsBetween(log, s, j) && ms[j].txouts == OutputsBetween(log, s, j)
    decreases j
  {
    if s == j {
      AtEpochStart(swap, log, ms, s);
    } else {
      ListsAreEvents(swap, log, ms, s, j - 1);
      StepContent(log, ms, j - 1);
    }
  }

  /** What is approved is every transparent input and every transparent output recorded in the epoch, in order. */
  lemma ReviewedContentWasRecorded(swap: bool, log: seq<Event>, s: nat, r: nat)
    requires Accepted(swap, log) && r < |log| && log[r].Reviewed? && EpochStart(log, s, r)
    ensures log[r].content.inputs == InputsBetween(log, s, r) && log[r].content.outputs == OutputsBetween(log, s, r)
  {
    var ms := Trace(swap, log);
    ListsAreEvents(swap, log, ms, s, r);
    assert StepAt(log, ms, r);
  }

  ghost predicate ContentReviewed(log: seq<Event>, j: nat, c: Content) {
    exists r: nat :: Earlier(log, r, j) && log[r].Reviewed? && log[r].content == c
  }

  lemma {:induction false} ContentHasCause(swap: bool, log: seq<Event>, ms: seq<Monitor>, j: nat)
    requires IsTrace(swap, log, ms) && j <= |log| && ms[j].content.Some?
    ensures ContentReviewed(log, j, ms[j].content.value)
  {
    if j > 0 {
      if log[j - 1] == Reset { AtEpochStart(swap, log, ms, j); }
      StepContent(log, ms, j - 1);
      if log[j - 1].Reviewed? {
        assert Earlier(log, j - 1, j);
      } else {
        ContentHasCause(swap, log, ms, j - 1);
        var r: nat :| Earlier(log, r, j - 1) && log[r].Reviewed? && log[r].content == ms[j].content.value;
        assert Earlier(log, r, j);
      }
    }
  }

  lemma StepSignedContent(log: seq<Event>, ms: seq<Monitor>, j: nat)
    requires j < |log| && |ms| == |log| + 1 && StepAt(log, ms, j) && log[j].Signed?
    ensures ms[j].content == Some(log[j].content)
  {}

  /** A PCZT signature is over the content approved earlier in its epoch, unchanged since. */
  lemma SignedContentWasReviewed(swap: bool, log: seq<Event>, j: nat)
    requires Accepted(swap, log) && j < |log| && log[j].Signed?
    ensures ContentReviewed(log, j, log[j].content)
  {
    var ms := Trace(swap, log);
    StepSignedContent(log, ms, j);
    ContentHasCause(swap, log, ms, j);
  }

  /**
   Two signatures of any two runs over the same digest were approved for the same
   transparent inputs and outputs, or a hash collision is in hand.
   */
  lemma SameDigestSameReview(h: Blake2b256, swap: bool, log: seq<Event>, i: nat, swap': bool, log': seq<Event>, j: nat)
    requires Accepted(swap, log) && Hashed(h, log) && i < |log| && log[i].Signed?
    requires Accepted(swap', log') && Hashed(h, log') && j < |log'| && log'[j].Signed?
    requires log[i].digest == log'[j].digest
    ensures var a, b := log[i].content, log'[j].content;
            && InContent(a, log[i].slot) && InContent(b, log'[j].slot)
            && (|| (a.inputs == b.inputs && a.outputs == b.outputs)
                || Collision(h, ContentQueries(h, a, SlotInput(log[i].slot)),
                             ContentQueries(h, b, SlotInput(log'[j].slot))))
  {
    SignedContentWasReviewed(swap, log, i);
    SignedContentWasReviewed(swap', log', j);
    var r: nat :| Earlier(log, r, i) && log[r].Reviewed? && log[r].content == log[i].content;
    var q: nat :| Earlier(log', q, j) && log'[q].Reviewed? && log'[q].content == log'[j].content;
    assert EventHashed(h, log[i]) && EventHashed(h, log'[j]) && EventHashed(h, log[r]) && EventHashed(h, log'[q]);
    SignatureBindsContent(h, log[i].content, SlotInput(log[i].slot), log'[j].content, SlotInput(log'[j].slot));
  }
}
