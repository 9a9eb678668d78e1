/**
 The instructions of the application as the command loop sees them, and what an
 instruction may put into the log (src/main.rs).
 */
module Instructions {
  import opened Outcomes
  import opened Paths
  import opened SignedContent
  import opened Transaction
  import opened SigningSpec
  import opened PcztState
  import opened LegacyState

  datatype Apdu =
    | Query(answered: bool)   // version, public key, viewing key and shielded address: no transaction state
    | GetTrustedInput(first: bool, fields: seq<LegacyField>, inputProcessed: bool)
    | HashInputStart(first: bool, continueHashing: bool, fields: seq<LegacyField>)
    | ChangeInfo(path: Option<Path>, derived: bool)
    | FinalizeFull(outputs: seq<LegacyOutputField>, feesOk: bool, answer: Answer)
    | HashSign(data: SignData)
    | PcztHeader(header: Option<Global>)   // a well-formed header
    | PcztTransparentInput(last: bool, payload: seq<Field>)
    | PcztTransparentOutput(last: bool, payload: seq<Field>)
    | PcztAction(pool: Pool, last: bool, finish: bool, payload: seq<Field>, answer: Answer)
    | PcztSignTransparent(index: nat, empty: bool, signs: bool)
    | PcztSignAction(pool: Pool, index: nat, empty: bool, derives: bool, signs: bool)
    | PcztInvalid

  datatype SignData = SignData(
    empty: bool,
    header: Option<bool>,    // eleven bytes, and whether they name SIGHASH_ALL
    path: Option<Path>,
    approve: bool,
    signs: bool)

  // Packets of a PCZT, its other instructions, packets of a legacy round, its outputs, and the rest.
  predicate IsPacket(apdu: Apdu) { apdu.PcztTransparentInput? || apdu.PcztTransparentOutput? || apdu.PcztAction? }
  predicate IsPczt(apdu: Apdu) {
    apdu.PcztHeader? || apdu.PcztSignTransparent? || apdu.PcztSignAction? || apdu.PcztInvalid?
  }
  predicate IsRound(apdu: Apdu) { apdu.GetTrustedInput? || apdu.HashInputStart? }
  predicate IsFinalize(apdu: Apdu) { apdu.ChangeInfo? || apdu.FinalizeFull? }
  predicate IsOther(apdu: Apdu) { apdu.Query? || apdu.HashSign? }

  // The instructions whose failure resets the context.
  predicate IsTransaction(apdu: Apdu) { !apdu.Query? }

  // ---------------------------------------------------------------- what an instruction may log

  // The events a payload field of a section may cause, with the values it carries.
  ghost predicate FieldCauses(swap: bool, section: Section, f: Field, answer: Answer, e: Event) {
    match e
    case InputValue(prevout, sequence, amount) => section == Inputs && f == InputHead(prevout, sequence, amount)
    case ScriptRead(bytes) => !section.Actions? && f.ScriptPart? && f.bytes == bytes
    case InputRecorded(path, _) => section == Inputs && f == InputDerivation(path)
    case OutputValue(amount) => section == Outputs && f == OutputHead(amount)
    case OutputRecorded(hidden, _) =>
      section == Outputs && f.OutputDerivation? && hidden == if f.kind == ChangeScript then f.changePath else None
    case ChangeRecorded(account) =>
      if section == Outputs then
        f.OutputDerivation? && f.changePath.Some? && DerivationAccount(f.changePath.value) == Some(account)
      else section.Actions? && f.OutputMetadata? && f.recovery == Internal
    case ActionHeadRead(pool, spend) => section == Section.Actions(pool) && f == ActionHead(spend)
    case ActionRecorded(pool, _, _, output, kind) =>
      && section == Section.Actions(pool) && f.OutputMetadata? && f.output == output
      && (kind == Hidden <==> f.recovery == Internal) && (kind == Shown <==> f.recovery.External?)
    case Reviewed(approval, _, _, _) =>
      && section.Actions? && (f.Trailer? || f == Count(0))
      && approval == if swap then Exchange(answer.exchange) else User(answer.user)
    case _ => false
  }

  ghost predicate PacketCauses(swap: bool, section: Section, payload: seq<Field>, answer: Answer, e: Event) {
    exists k :: 0 <= k < |payload| && FieldCauses(swap, section, payload[k], answer, e)
  }

  // A packet of a legacy round fixes no number of inputs but that of its V5 header.
  ghost predicate RoundCauses(fields: seq<LegacyField>, e: Event) {
    e.LegacyParsed? && (e.inputs.Some? ==> fields != [] && fields[0] == Header(V5, e.inputs.value))
  }

  // Outputs are recorded by complete scripts, and hidden if these are change.
  ghost predicate OutputsCause(swap: bool, outputs: seq<LegacyOutputField>, exchange: bool, e: Event) {
    match e
    case LegacyOutputRecorded(hidden) =>
      exists k :: 0 <= k < |outputs| && outputs[k].LegacyOutputScript? && outputs[k].complete
                  && (hidden.Some? <==> outputs[k].kind == ChangeScript)
    case LegacyOutputsDone(validated) => validated == (swap && exchange)
    case LegacyParsed(inputs) => inputs == None
    case _ => false
  }

  ghost predicate OutputsLogged(swap: bool, outputs: seq<LegacyOutputField>, exchange: bool, before: seq<Event>,
                                after: seq<Event>)
  {
    before <= after && forall j :: |before| <= j < |after| ==> OutputsCause(swap, outputs, exchange, after[j])
  }

  // A refused field may have recorded its output: the check that ends the outputs comes after.
  ghost predicate OutputFailureLogged(t: TxInfo, f: LegacyOutputField, before: seq<Event>, after: seq<Event>) {
    || after == before
    || (&& f.LegacyOutputScript? && f.complete && Classified(t, f.kind)
        && after == before + [LegacyOutputRecorded(HiddenFor(t, f.kind))])
  }

  lemma OutputFieldLogs(swap: bool, o: LegacyOutputParser, t: TxInfo, outputs: seq<LegacyOutputField>, k: nat,
                        feesOk: bool, exchange: bool, before: seq<Event>, mid: seq<Event>, after: seq<Event>)
    requires k < |outputs| && OutputsLogged(swap, outputs, exchange, before, mid)
    requires var x := OutputFieldParsed(swap, o, t, outputs[k], feesOk, exchange);
             (x.Some? && after == mid + x.value.events) || OutputFailureLogged(t, outputs[k], mid, after)
    ensures OutputsLogged(swap, outputs, exchange, before, after)
  {
    var f := outputs[k];
    if o.state == ProcessingOutputScript && f.LegacyOutputScript? {
      ScriptParsedExactly(swap, o, t, f.kind, feesOk, exchange);
    }
    forall j | |before| <= j < |after| ensures OutputsCause(swap, outputs, exchange, after[j]) {
      if j < |mid| { assert after[j] == mid[j]; }
    }
  }

  // The event belongs to the instruction, and carries its arguments.
  ghost predicate Caused(swap: bool, apdu: Apdu, e: Event) {
    match apdu
    case Query(_) => false
    case GetTrustedInput(first, fields, _) => (first && e == Event.Reset) || RoundCauses(fields, e)
    case HashInputStart(first, continues, fields) => (first && !continues && e == Event.Reset) || RoundCauses(fields, e)
    case ChangeInfo(path, _) => path.Some? && |path.value| == 5 && e == LegacyChange(path.value[2])
    case FinalizeFull(outputs, _, answer) => OutputsCause(swap, outputs, answer.exchange, e)
    case HashSign(data) =>
      || (e.LegacyReviewed? && if swap then e.approval.Exchange? else e.approval == User(data.approve))
      || (e.LegacySigned? && data.path == Some(e.path))
    case PcztHeader(header) => e == Event.Reset || (header.Some? && e == PcztStarted(header.value))
    case PcztTransparentInput(_, payload) => PacketCauses(swap, Inputs, payload, Answer(false, false), e)
    case PcztTransparentOutput(_, payload) => PacketCauses(swap, Outputs, payload, Answer(false, false), e)
    case PcztAction(pool, _, finish, payload, answer) =>
      (finish && e == Finished) || PacketCauses(swap, Section.Actions(pool), payload, answer, e)
    case PcztSignTransparent(index, _, _) => e.Signed? && e.slot == Transparent(index)
    case PcztSignAction(pool, index, _, _, _) => e.Signed? && e.slot == Action(pool, index)
    case PcztInvalid => false
  }

  // A packet that starts over or not, and then its round.
  ghost predicate RoundProduced(restarts: bool, before: seq<Event>, after: seq<Event>) {
    var start := if restarts then before + [Event.Reset] else before;
    |after| == |start| + 1 && after[..|start|] == start && after[|start|].LegacyParsed?
  }

  // One more event, a signature for the slot.
  ghost predicate SignedFor(slot: Slot, before: seq<Event>, after: seq<Event>) {
    |after| == |before| + 1 && after[|before|].Signed? && after[|before|].slot == slot
  }

  // What an instruction that succeeds adds to the log.
  ghost predicate Produces(apdu: Apdu, before: seq<Event>, after: seq<Event>) {
    match apdu
    case Query(answered) => answered && after == before
    case GetTrustedInput(first, _, _) => RoundProduced(first, before, after)
    case HashInputStart(first, continues, fields) =>
      if first && !continues && fields != [] then
        fields[0].Header? && after == before + [Event.Reset, LegacyParsed(Some(fields[0].inputs))]
      else RoundProduced(first && !continues, before, after)
    case ChangeInfo(path, _) =>
      path.Some? && |path.value| == 5 && after == before + [LegacyChange(path.value[2])]
    case FinalizeFull(_, _, _) => |after| > |before| && after[|after| - 1] == LegacyParsed(None)
    case HashSign(data) =>
      && |after| == |before| + 1
      && var e := after[|before|];
         e.LegacyReviewed? || (e.LegacySigned? && data.path == Some(e.path))
    case PcztHeader(header) => header.Some? && after == before + [Event.Reset, PcztStarted(header.value)]
    case PcztTransparentInput(_, _) => true
    case PcztTransparentOutput(_, _) => true
    case PcztAction(_, _, finish, _, _) => finish ==> |after| > |before| && after[|after| - 1] == Finished
    case PcztSignTransparent(index, _, _) => SignedFor(Transparent(index), before, after)
    case PcztSignAction(pool, index, _, _, _) => SignedFor(Action(pool, index), before, after)
    case PcztInvalid => false
  }

  // When an instruction that signs succeeds, by what the log had come to: exactly when its slot
  // awaits its signature. A shielded one also needs the key, cached or derived.
  ghost predicate SignsExactly(apdu: Apdu, m: Monitor, ok: bool) {
    match apdu
    case PcztSignTransparent(index, empty, signs) => ok <==> empty && signs && SlotSignable(m, Transparent(index))
    case PcztSignAction(pool, index, empty, derives, signs) =>
      && (ok ==> empty && signs && SlotSignable(m, Action(pool, index)))
      && (empty && derives && signs && SlotSignable(m, Action(pool, index)) ==> ok)
    case _ => true
  }

  predicate AsksSignature(apdu: Apdu) { apdu.HashSign? || apdu.PcztSignTransparent? || apdu.PcztSignAction? }

  // What an instruction logs: events of its own, all of them if it succeeds, and no signature if it fails.
  ghost predicate Logs(swap: bool, apdu: Apdu, ok: bool, m: Monitor, before: seq<Event>, after: seq<Event>) {
    forall a {:trigger LogsAll(swap, a, ok, m, before, after)} :: a == apdu ==> LogsAll(swap, a, ok, m, before, after)
  }

  ghost predicate LogsAll(swap: bool, apdu: Apdu, ok: bool, m: Monitor, before: seq<Event>, after: seq<Event>) {
    && before <= after && SignsExactly(apdu, m, ok)
    && (forall j :: |before| <= j < |after| ==> Caused(swap, apdu, after[j]))
    && (ok ==> Produces(apdu, before, after))
    && (!ok && AsksSignature(apdu) ==> after == before)
  }

  lemma QueryLogs(swap: bool, answered: bool, m: Monitor, log: seq<Event>)
    ensures Logs(swap, Query(answered), answered, m, log, log)
  {}

  lemma InvalidLogs(swap: bool, m: Monitor, log: seq<Event>)
    ensures Logs(swap, PcztInvalid, false, m, log, log)
  {}

  lemma HeaderLogs(swap: bool, header: Option<Global>, ok: bool, m: Monitor, before: seq<Event>, after: seq<Event>)
    requires ok ==> header.Some? && after == before + [Event.Reset, PcztStarted(header.value)]
    requires !ok ==> after == before || after == before + [Event.Reset]
    ensures Logs(swap, PcztHeader(header), ok, m, before, after)
  {}

  lemma SignatureLogs(swap: bool, apdu: Apdu, slot: Slot, ok: bool, m: Monitor, before: seq<Event>, after: seq<Event>)
    requires || (apdu.PcztSignTransparent? && slot == Transparent(apdu.index))
             || (apdu.PcztSignAction? && slot == Action(apdu.pool, apdu.index))
    requires SignsExactly(apdu, m, ok) && before <= after
    requires if ok then SignedFor(slot, before, after) else after == before
    ensures Logs(swap, apdu, ok, m, before, after)
  {}

  lemma RoundLogs(swap: bool, apdu: Apdu, restarts: bool, fields: seq<LegacyField>, ok: bool, m: Monitor,
                  before: seq<Event>, after: seq<Event>)
    requires || (apdu.GetTrustedInput? && apdu.first == restarts && apdu.fields == fields)
             || (apdu.HashInputStart? && (apdu.first && !apdu.continueHashing) == restarts && apdu.fields == fields)
    requires RoundLogged(restarts, fields, before, after) && (ok ==> Produces(apdu, before, after))
    ensures Logs(swap, apdu, ok, m, before, after)
  {}

  ghost predicate RoundLogged(restarts: bool, fields: seq<LegacyField>, before: seq<Event>, after: seq<Event>) {
    var start := if restarts then before + [Event.Reset] else before;
    || after == before || after == start
    || (|after| > 0 && after[..|after| - 1] == start && RoundCauses(fields, after[|after| - 1]))
  }

  lemma OutputsLogs(swap: bool, outputs: seq<LegacyOutputField>, feesOk: bool, answer: Answer, ok: bool, m: Monitor,
                    before: seq<Event>, after: seq<Event>)
    requires OutputsLogged(swap, outputs, answer.exchange, before, after)
    requires ok ==> |after| > |before| && after[|after| - 1] == LegacyParsed(None)
    ensures Logs(swap, FinalizeFull(outputs, feesOk, answer), ok, m, before, after)
  {}

  lemma ChangeLogs(swap: bool, path: Option<Path>, derived: bool, ok: bool, m: Monitor, before: seq<Event>,
                   after: seq<Event>)
    requires if ok then path.Some? && |path.value| == 5 && after == before + [LegacyChange(path.value[2])]
             else after == before
    ensures Logs(swap, ChangeInfo(path, derived), ok, m, before, after)
  {}

  lemma HashSignLogs(swap: bool, data: SignData, ok: bool, m: Monitor, before: seq<Event>, after: seq<Event>)
    requires if ok then |after| == |before| + 1 && before <= after && Caused(swap, HashSign(data), after[|before|])
             else after == before
    ensures Logs(swap, HashSign(data), ok, m, before, after)
  {}

  // One turn of the command loop: the instruction is served, and a transaction instruction that
  // fails ends with a reset.
  ghost predicate Turn(swap: bool, apdu: Apdu, ok: bool, m: Monitor, before: seq<Event>, after: seq<Event>) {
    && before <= after
    && if ok || !IsTransaction(apdu) then Logs(swap, apdu, ok, m, before, after)
       else |after| > 0 && after[|after| - 1] == Event.Reset && Logs(swap, apdu, ok, m, before, after[..|after| - 1])
  }

  // What was logged between two marks is the turn of one instruction.
  ghost predicate ServedAt(swap: bool, apdus: seq<Apdu>, statuses: seq<bool>, log: seq<Event>, ms: seq<Monitor>,
                           marks: seq<nat>, i: nat)
    requires i < |statuses| <= |apdus| && i + 1 < |marks|
  {
    && marks[i] <= marks[i + 1] <= |log| < |ms|
    && Turn(swap, apdus[i], statuses[i], ms[marks[i]], log[..marks[i]], log[..marks[i + 1]])
  }

  // The log of a run falls into the turns of its instructions.
  ghost predicate Served(swap: bool, apdus: seq<Apdu>, statuses: seq<bool>, log: seq<Event>, ms: seq<Monitor>,
                         marks: seq<nat>)
  {
    && |statuses| <= |apdus| && |marks| == |statuses| + 1 && marks[0] == 0 && marks[|statuses|] == |log|
    && forall n {:trigger ServedBelow(swap, apdus, statuses, log, ms, marks, n)} :: n == |statuses| ==>
         ServedBelow(swap, apdus, statuses, log, ms, marks, n)
  }

  ghost predicate ServedBelow(swap: bool, apdus: seq<Apdu>, statuses: seq<bool>, log: seq<Event>, ms: seq<Monitor>,
                              marks: seq<nat>, n: nat)
    requires n <= |statuses| <= |apdus| && |marks| == |statuses| + 1
  {
    forall i {:trigger ServedAt(swap, apdus, statuses, log, ms, marks, i)} :: 0 <= i < n ==>
      ServedAt(swap, apdus, statuses, log, ms, marks, i)
  }

  lemma NoTurn(swap: bool, apdus: seq<Apdu>, ms: seq<Monitor>)
    ensures Served(swap, apdus, [], [], ms, [0])
  {}

  lemma NextTurn(swap: bool, apdus: seq<Apdu>, statuses: seq<bool>, log: seq<Event>, ms: seq<Monitor>,
                 marks: seq<nat>, ok: bool, log': seq<Event>, ms': seq<Monitor>)
    requires Served(swap, apdus, statuses, log, ms, marks) && |statuses| < |apdus|
    requires IsTrace(swap, log, ms) && IsTrace(swap, log', ms')
    requires Turn(swap, apdus[|statuses|], ok, ms[|log|], log, log')
    ensures Served(swap, apdus, statuses + [ok], log', ms', marks + [|log'|])
  {
    var n := |statuses|;
    assert ServedBelow(swap, apdus, statuses, log, ms, marks, n);
    forall i | 0 <= i <= n ensures ServedAt(swap, apdus, statuses + [ok], log', ms', marks + [|log'|], i) {
      if i < n {
        assert ServedAt(swap, apdus, statuses, log, ms, marks, i);
        TraceGrows(swap, log, ms, log', ms', marks[i]);
        assert log'[..marks[i]] == log[..marks[i]] && log'[..marks[i + 1]] == log[..marks[i + 1]];
      } else {
        TraceGrows(swap, log, ms, log', ms', |log|);
        assert log'[..|log|] == log && log'[..|log'|] == log';
      }
    }
  }

  // ---------------------------------------------------------------- what a run has answered

  lemma TurnOf(swap: bool, apdus: seq<Apdu>, statuses: seq<bool>, log: seq<Event>, ms: seq<Monitor>, marks: seq<nat>,
               i: nat)
    requires Served(swap, apdus, statuses, log, ms, marks) && i < |statuses|
    ensures ServedAt(swap, apdus, statuses, log, ms, marks, i)
    ensures statuses[i] || !IsTransaction(apdus[i]) ==>
              LogsAll(swap, apdus[i], statuses[i], ms[marks[i]], log[..marks[i]], log[..marks[i + 1]])
    ensures !statuses[i] && IsTransaction(apdus[i]) ==>
              && marks[i] < marks[i + 1] && log[marks[i + 1] - 1] == Event.Reset
              && LogsAll(swap, apdus[i], false, ms[marks[i]], log[..marks[i]], log[..marks[i + 1] - 1])
  {
    assert ServedBelow(swap, apdus, statuses, log, ms, marks, |statuses|);
    assert ServedAt(swap, apdus, statuses, log, ms, marks, i);
    var m, before, after := ms[marks[i]], log[..marks[i]], log[..marks[i + 1]];
    if statuses[i] || !IsTransaction(apdus[i]) {
      assert LogsAll(swap, apdus[i], statuses[i], m, before, after);
    } else {
      assert after[..|after| - 1] == log[..marks[i + 1] - 1];
      assert LogsAll(swap, apdus[i], false, m, before, after[..|after| - 1]);
    }
  }

  /**
   Every event of a run belongs to the instruction served when it was logged and carries its
   arguments; the one exception is the reset that ends the turn of a failed instruction.
   */
  lemma EventsAreCaused(swap: bool, apdus: seq<Apdu>, statuses: seq<bool>, log: seq<Event>, ms: seq<Monitor>,
                        marks: seq<nat>, i: nat, j: nat)
    requires Served(swap, apdus, statuses, log, ms, marks) && i < |statuses| && marks[i] <= j < marks[i + 1] <= |log|
    ensures || Caused(swap, apdus[i], log[j])
            || (IsTransaction(apdus[i]) && !statuses[i] && j == marks[i + 1] - 1 && log[j] == Event.Reset)
  {
    TurnOf(swap, apdus, statuses, log, ms, marks, i);
    if statuses[i] || !IsTransaction(apdus[i]) || j < marks[i + 1] - 1 {
      assert log[j] == log[..marks[i + 1]][j];
    }
  }

  /**
   A signature of a run was asked for by the instruction served when it was released: the
   transparent input or the action, with its bundle, that this instruction names. It is all
   that its turn logged.
   */
  lemma SignatureWasAskedFor(swap: bool, apdus: seq<Apdu>, statuses: seq<bool>, log: seq<Event>, ms: seq<Monitor>,
                             marks: seq<nat>, i: nat, j: nat)
    requires Served(swap, apdus, statuses, log, ms, marks) && i < |statuses| && marks[i] <= j < marks[i + 1] <= |log|
    requires log[j].Signed?
    ensures statuses[i] && j == marks[i] && marks[i + 1] == j + 1
    ensures || (apdus[i].PcztSignTransparent? && log[j].slot == Transparent(apdus[i].index))
            || (apdus[i].PcztSignAction? && log[j].slot == Action(apdus[i].pool, apdus[i].index))
  {
    TurnOf(swap, apdus, statuses, log, ms, marks, i);
    EventsAreCaused(swap, apdus, statuses, log, ms, marks, i, j);
  }

  /**
   A transparent input is signed exactly when the host asks for it and, by the log so far, it
   awaits its signature.
   */
  lemma InputSignedExactly(swap: bool, apdus: seq<Apdu>, statuses: seq<bool>, log: seq<Event>, ms: seq<Monitor>,
                           marks: seq<nat>, i: nat)
    requires Served(swap, apdus, statuses, log, ms, marks) && i < |statuses| && apdus[i].PcztSignTransparent?
    ensures marks[i] < |ms| && (statuses[i] <==> && apdus[i].empty && apdus[i].signs
                                                 && SlotSignable(ms[marks[i]], Transparent(apdus[i].index)))
    ensures statuses[i] ==> && marks[i] < |log| && marks[i + 1] == marks[i] + 1 && log[marks[i]].Signed?
                            && log[marks[i]].slot == Transparent(apdus[i].index)
  {
    TurnOf(swap, apdus, statuses, log, ms, marks, i);
    if statuses[i] { assert log[..marks[i + 1]][marks[i]] == log[marks[i]]; }
  }

  /**
   A shielded action is signed only when the host asks for that action of that bundle and, by
   the log so far, it awaits its signature; and it is then, whenever its key can be derived.
   */
  lemma ActionSignedExactly(swap: bool, apdus: seq<Apdu>, statuses: seq<bool>, log: seq<Event>, ms: seq<Monitor>,
                            marks: seq<nat>, i: nat)
    requires Served(swap, apdus, statuses, log, ms, marks) && i < |statuses| && apdus[i].PcztSignAction?
    ensures marks[i] < |ms|
    ensures apdus[i].derives ==>
              (statuses[i] <==> && apdus[i].empty && apdus[i].signs
                                && SlotSignable(ms[marks[i]], Action(apdus[i].pool, apdus[i].index)))
    ensures statuses[i] ==> SlotSignable(ms[marks[i]], Action(apdus[i].pool, apdus[i].index))
    ensures statuses[i] ==> && marks[i] < |log| && marks[i + 1] == marks[i] + 1 && log[marks[i]].Signed?
                            && log[marks[i]].slot == Action(apdus[i].pool, apdus[i].index)
  {
    TurnOf(swap, apdus, statuses, log, ms, marks, i);
    if statuses[i] { assert log[..marks[i + 1]][marks[i]] == log[marks[i]]; }
  }

  /**
   The header that starts a legacy transaction to sign declares its inputs: the number that
   LegacyRuns.LegacyCompleteExactly counts signatures against is the one it carries.
   */
  lemma DeclaredByHeader(swap: bool, apdus: seq<Apdu>, statuses: seq<bool>, log: seq<Event>, ms: seq<Monitor>,
                         marks: seq<nat>, i: nat)
    requires Served(swap, apdus, statuses, log, ms, marks) && i < |statuses| && statuses[i]
    requires apdus[i].HashInputStart? && apdus[i].first && !apdus[i].continueHashing && apdus[i].fields != []
    ensures apdus[i].fields[0].Header? && marks[i + 1] == marks[i] + 2 <= |log|
    ensures log[marks[i]] == Event.Reset && log[marks[i] + 1] == LegacyParsed(Some(apdus[i].fields[0].inputs))
  {
    TurnOf(swap, apdus, statuses, log, ms, marks, i);
    var after := log[..marks[i + 1]];
    assert after[marks[i]] == log[marks[i]] && after[marks[i] + 1] == log[marks[i] + 1];
  }

  lemma {:induction false} MarksAscend(swap: bool, apdus: seq<Apdu>, statuses: seq<bool>, log: seq<Event>,
                                       ms: seq<Monitor>, marks: seq<nat>, i: nat, k: nat)
    requires Served(swap, apdus, statuses, log, ms, marks) && i <= k < |marks|
    ensures marks[i] <= marks[k]
    decreases k
  {
    if i < k {
      MarksAscend(swap, apdus, statuses, log, ms, marks, i, k - 1);
      TurnOf(swap, apdus, statuses, log, ms, marks, k - 1);
    }
  }

  // The answers of a whole run to the instructions that sign.
  lemma RunAnswers(swap: bool, apdus: seq<Apdu>, statuses: seq<bool>, log: seq<Event>, ms: seq<Monitor>,
                   marks: seq<nat>)
    requires Served(swap, apdus, statuses, log, ms, marks) && |ms| == |log| + 1
    ensures |statuses| <= |apdus| && |marks| == |statuses| + 1 && |ms| == |log| + 1
    ensures forall i, k :: 0 <= i <= k < |marks| ==> marks[i] <= marks[k] <= |log|
    ensures forall i, j :: 0 <= i < |statuses| && marks[i] <= j < marks[i + 1] && log[j].Signed? ==>
              apdus[i].PcztSignTransparent? || apdus[i].PcztSignAction?
    ensures forall i, j :: 0 <= i < |statuses| && marks[i] <= j < marks[i + 1] && log[j].Signed? ==>
              log[j].slot == if apdus[i].PcztSignTransparent? then Transparent(apdus[i].index)
                             else Action(apdus[i].pool, apdus[i].index)
    ensures forall i :: 0 <= i < |statuses| && apdus[i].PcztSignTransparent? ==>
              (statuses[i] <==> && apdus[i].empty && apdus[i].signs
                                && SlotSignable(ms[marks[i]], Transparent(apdus[i].index)))
    ensures forall i :: 0 <= i < |statuses| && apdus[i].PcztSignAction? && apdus[i].derives ==>
              (statuses[i] <==> && apdus[i].empty && apdus[i].signs
                                && SlotSignable(ms[marks[i]], Action(apdus[i].pool, apdus[i].index)))
  {
    forall i, k | 0 <= i <= k < |marks| ensures marks[i] <= marks[k] <= |log| {
      MarksAscend(swap, apdus, statuses, log, ms, marks, i, k);
      MarksAscend(swap, apdus, statuses, log, ms, marks, k, |statuses|);
    }
    forall i, j | 0 <= i < |statuses| && marks[i] <= j < marks[i + 1] && log[j].Signed?
      ensures apdus[i].PcztSignTransparent? || apdus[i].PcztSignAction?
      ensures log[j].slot == if apdus[i].PcztSignTransparent? then Transparent(apdus[i].index)
                             else Action(apdus[i].pool, apdus[i].index)
    {
      SignatureWasAskedFor(swap, apdus, statuses, log, ms, marks, i, j);
    }
    forall i | 0 <= i < |statuses| && apdus[i].PcztSignTransparent?
      ensures statuses[i] <==> && apdus[i].empty && apdus[i].signs
                               && SlotSignable(ms[marks[i]], Transparent(apdus[i].index))
    {
      InputSignedExactly(swap, apdus, statuses, log, ms, marks, i);
    }
    forall i | 0 <= i < |statuses| && apdus[i].PcztSignAction? && apdus[i].derives
      ensures statuses[i] <==> && apdus[i].empty && apdus[i].signs
                               && SlotSignable(ms[marks[i]], Action(apdus[i].pool, apdus[i].index))
    {
      ActionSignedExactly(swap, apdus, statuses, log, ms, marks, i);
    }
  }
}
