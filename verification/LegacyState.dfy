/**
 The legacy parsers as the signing session uses them (src/parser/legacy/mod.rs,
 src/parser/legacy/output_parser.rs).

 Payload bytes are represented by the fields a parser reads from them. A field that does
 not fit the state that reads it stands for any read, hash or validation failure there.
 */
module LegacyState {
  import opened Outcomes
  import opened Words
  import opened Paths
  import opened Transaction
  import opened SigningSpec

  const MAX_LEGACY_OUTPUTS: nat := 8

  // ---------------------------------------------------------------- HASH_INPUT_START

  datatype LegacyMode = TrustedInput | Signature
  datatype LegacyState = Start | Parsing | Parsed | PresignReady | ReadyToSign
  datatype LegacyParser = LegacyParser(mode: LegacyMode, state: LegacyState)

  datatype LegacyVersion = V4 | V5 | V6 | Other

  // `Progress(last)` stands for the input, output, Sapling and action states between the
  // header and the end of the round.
  datatype LegacyField = Header(version: LegacyVersion, inputs: nat) | Progress(last: bool) | BadField

  // Which transaction versions a mode of the legacy parser takes: V6 only as a trusted
  // input, V4 likewise.
  predicate VersionAccepted(mode: LegacyMode, version: LegacyVersion) {
    version == V5 || (mode == TrustedInput && (version == V4 || version == V6))
  }

  // Where a round of the legacy parser ends.
  function RoundEnd(mode: LegacyMode, parsedOnce: bool): LegacyState {
    if mode == TrustedInput then Parsed else if parsedOnce then ReadyToSign else PresignReady
  }

  // A round in progress: the parser, the V6 flag of the transaction, and the number of
  // inputs to sign once the header declared it.
  datatype Round = Round(parser: LegacyParser, isV6: bool, inputs: Option<nat>)

  predicate RoundOpen(r: Round) { r.parser.state == Start || r.parser.state == Parsing }

  function FieldParsed(r: Round, once: bool, f: LegacyField): Option<Round> {
    match r.parser.state
    case Start =>
      if !f.Header? || !VersionAccepted(r.parser.mode, f.version) || f.inputs > MAX_COMPACT_SIZE then None
      else
        var signing := r.parser.mode == Signature;
        var next := if f.inputs == 0 && signing then RoundEnd(Signature, once) else Parsing;
        Some(Round(r.parser.(state := next), r.isV6 || f.version == V6,
                   if signing && !once then Some(f.inputs) else r.inputs))
    case Parsing =>
      if !f.Progress? then None
      else if f.last then Some(r.(parser := r.parser.(state := RoundEnd(r.parser.mode, once))))
      else Some(r)
    case _ => Some(r)
  }

  // The round after the first k fields.
  function RoundParsed(r: Round, once: bool, fields: seq<LegacyField>, k: nat): Option<Round>
    requires k <= |fields|
  {
    if k == 0 then Some(r)
    else
      var before := RoundParsed(r, once, fields, k - 1);
      if before.None? then None else FieldParsed(before.value, once, fields[k - 1])
  }

  // A parser that failed stays failed, and one that ended its round ignores the rest.
  lemma {:induction false} RoundStays(r: Round, once: bool, fields: seq<LegacyField>, k: nat, n: nat)
    requires k <= n <= |fields|
    ensures var x := RoundParsed(r, once, fields, k);
            (x.None? || !RoundOpen(x.value)) ==> RoundParsed(r, once, fields, n) == x
    decreases n - k
  {
    if k < n { RoundStays(r, once, fields, k, n - 1); }
  }

  // What a round can lead to, whatever the fields.
  lemma {:induction false} RoundSound(r: Round, once: bool, fields: seq<LegacyField>, k: nat)
    requires k <= |fields| && (r.parser.state == ReadyToSign ==> once) && r.inputs == None
    ensures var x := RoundParsed(r, once, fields, k);
            x.Some? ==>
              && (x.value.parser.state == ReadyToSign ==> once)
              && (x.value.inputs.Some? ==> !once && x.value.inputs.value <= MAX_COMPACT_SIZE)
  {
    if k > 0 { RoundSound(r, once, fields, k - 1); }
  }

  // ---------------------------------------------------------------- rounds, read off their fields

  // The first field from `from` that is not mere progress ends the round.
  ghost predicate RoundEnds(fields: seq<LegacyField>, from: nat) {
    exists e :: from <= e < |fields| && fields[e] == Progress(true) && RoundGoesOn(fields[..e], from)
  }

  // Nothing from `from` ends the round, or fails.
  ghost predicate RoundGoesOn(fields: seq<LegacyField>, from: nat) {
    forall i :: from <= i < |fields| ==> fields[i] == Progress(false)
  }

  // V5 in either mode; V4 and V6 only as a trusted input.
  ghost predicate HeaderAccepted(mode: LegacyMode, f: LegacyField) {
    && f.Header? && f.inputs <= 0x0200_0000
    && (f.version == V5 || (mode == TrustedInput && (f.version == V4 || f.version == V6)))
  }

  // A transaction to sign without transparent inputs is its header.
  ghost predicate HeaderEnds(mode: LegacyMode, f: LegacyField) {
    f.Header? && f.inputs == 0 && mode == Signature
  }

  ghost predicate RoundAccepted(start: LegacyParser, fields: seq<LegacyField>) {
    match start.state
    case Start =>
      fields != [] ==>
        && HeaderAccepted(start.mode, fields[0])
        && (HeaderEnds(start.mode, fields[0]) || RoundEnds(fields, 1) || RoundGoesOn(fields, 1))
    case Parsing => RoundEnds(fields, 0) || RoundGoesOn(fields, 0)
    case _ => true
  }

  // The round comes to its end within the packet.
  ghost predicate EndsIn(start: LegacyParser, fields: seq<LegacyField>) {
    match start.state
    case Start => fields != [] && (HeaderEnds(start.mode, fields[0]) || RoundEnds(fields, 1))
    case Parsing => RoundEnds(fields, 0)
    case _ => false
  }

  // The state an accepted packet leaves the parser in.
  ghost function StateAfter(start: LegacyParser, once: bool, fields: seq<LegacyField>): LegacyState {
    if EndsIn(start, fields) then
      if start.mode == TrustedInput then Parsed else if once then ReadyToSign else PresignReady
    else if start.state == Start && fields != [] then Parsing
    else start.state
  }

  // The number of inputs to sign that an accepted packet fixes: the one of its header, in the
  // first round of a transaction to sign.
  ghost function InputsFixed(start: LegacyParser, once: bool, fields: seq<LegacyField>): Option<nat> {
    if start == LegacyParser(Signature, Start) && !once && fields != [] && fields[0].Header? then Some(fields[0].inputs)
    else None
  }

  ghost predicate HeaderIsV6(start: LegacyParser, fields: seq<LegacyField>) {
    start.state == Start && fields != [] && fields[0].Header? && fields[0].version == V6
  }

  // From the middle of a round.
  lemma {:induction false} ProgressParsed(r: Round, once: bool, fields: seq<LegacyField>, from: nat, k: nat)
    requires from <= k <= |fields| && RoundParsed(r, once, fields, from).Some?
    requires RoundParsed(r, once, fields, from).value.parser.state == Parsing
    ensures var x, y := RoundParsed(r, once, fields, from).value, RoundParsed(r, once, fields, k);
            && (y.Some? <==> RoundEnds(fields[..k], from) || RoundGoesOn(fields[..k], from))
            && (y.Some? ==> y.value == if RoundEnds(fields[..k], from) then
                                         x.(parser := x.parser.(state := RoundEnd(x.parser.mode, once)))
                                       else x)
    decreases k
  {
    if from < k {
      ProgressParsed(r, once, fields, from, k - 1);
      OneMore(fields, from, k);
    }
  }

  // What the last of k fields does to the end of a round.
  lemma OneMore(fields: seq<LegacyField>, from: nat, k: nat)
    requires from < k <= |fields|
    ensures RoundGoesOn(fields[..k], from) <==> RoundGoesOn(fields[..k - 1], from) && fields[k - 1] == Progress(false)
    ensures RoundEnds(fields[..k], from) <==>
              RoundEnds(fields[..k - 1], from)
                || (RoundGoesOn(fields[..k - 1], from) && fields[k - 1] == Progress(true))
    ensures !(RoundEnds(fields[..k], from) && RoundGoesOn(fields[..k], from))
  {
    var a, b := fields[..k - 1], fields[..k];
    forall e | from <= e < k ensures b[..e] == fields[..e] && (e < k - 1 ==> a[..e] == fields[..e]) {}
    if RoundEnds(a, from) {
      var e :| from <= e < |a| && a[e] == Progress(true) && RoundGoesOn(a[..e], from);
      assert b[e] == Progress(true) && b[..e] == a[..e];
    }
    if RoundEnds(b, from) {
      var e :| from <= e < |b| && b[e] == Progress(true) && RoundGoesOn(b[..e], from);
      assert b[..e] == fields[..e];
      assert e < k - 1 ==> a[e] == Progress(true) && a[..e] == b[..e];
    }
  }

  /**
   What a packet does to a round, read off its fields: when it is accepted, where it leaves
   the parser, and which number of inputs its header fixes.
   */
  lemma RoundFromFields(start: LegacyParser, v6: bool, once: bool, fields: seq<LegacyField>)
    ensures var x := RoundParsed(Round(start, v6, None), once, fields, |fields|);
            && (x.Some? <==> RoundAccepted(start, fields))
            && (x.Some? ==> && x.value.parser == LegacyParser(start.mode, StateAfter(start, once, fields))
                            && x.value.isV6 == (v6 || HeaderIsV6(start, fields))
                            && x.value.inputs == InputsFixed(start, once, fields))
  {
    var r := Round(start, v6, None);
    assert fields[..|fields|] == fields;
    if fields != [] {
      assert RoundParsed(r, once, fields, 1) == FieldParsed(r, once, fields[0]) by {
        assert RoundParsed(r, once, fields, 0) == Some(r);
      }
      if start.state == Start {
        HeaderParsed(r, once, fields);
      } else if start.state == Parsing {
        ProgressParsed(r, once, fields, 0, |fields|);
      } else {
        RoundStays(r, once, fields, 0, |fields|);
      }
    }
  }

  lemma HeaderParsed(r: Round, once: bool, fields: seq<LegacyField>)
    requires r.parser.state == Start && r.inputs == None && fields != []
    requires RoundParsed(r, once, fields, 1) == FieldParsed(r, once, fields[0])
    ensures var x := RoundParsed(r, once, fields, |fields|);
            && (x.Some? <==> RoundAccepted(r.parser, fields))
            && (x.Some? ==> && x.value.parser == LegacyParser(r.parser.mode, StateAfter(r.parser, once, fields))
                            && x.value.isV6 == (r.isV6 || HeaderIsV6(r.parser, fields))
                            && x.value.inputs == InputsFixed(r.parser, once, fields))
  {
    var x := FieldParsed(r, once, fields[0]);
    assert fields[..|fields|] == fields;
    if x.None? || !RoundOpen(x.value) {
      RoundStays(r, once, fields, 1, |fields|);
    } else {
      ProgressParsed(r, once, fields, 1, |fields|);
    }
  }

  // LegacyParser::parse over one packet.
  method ReadRound(start: LegacyParser, v6: bool, once: bool, fields: seq<LegacyField>) returns (r: Option<Round>)
    ensures r == RoundParsed(Round(start, v6, None), once, fields, |fields|)
    ensures r.Some? <==> RoundAccepted(start, fields)
    ensures r.Some? ==> && r.value.parser == LegacyParser(start.mode, StateAfter(start, once, fields))
                        && r.value.isV6 == (v6 || HeaderIsV6(start, fields))
                        && r.value.inputs == InputsFixed(start, once, fields)
    ensures start == LegacyParser(Signature, Start) && !once && r.Some? && fields != [] ==>
              fields[0].Header? && fields[0].version == V5 && r.value.inputs == Some(fields[0].inputs)
  {
    RoundFromFields(start, v6, once, fields);
    var parser, isV6, inputs := start, v6, None;
    for i := 0 to |fields|
      invariant RoundParsed(Round(start, v6, None), once, fields, i) == Some(Round(parser, isV6, inputs))
    {
      RoundStays(Round(start, v6, None), once, fields, i, |fields|);
      RoundStays(Round(start, v6, None), once, fields, i + 1, |fields|);
      match parser.state {
        case Start =>
          var f := fields[i];
          if !f.Header? || !VersionAccepted(parser.mode, f.version) || f.inputs > MAX_COMPACT_SIZE {
            return None;
          }
          isV6 := isV6 || f.version == V6;
          if parser.mode == Signature && !once {
            inputs := Some(f.inputs);
          }
          var ends := f.inputs == 0 && parser.mode == Signature;
          parser := parser.(state := if ends then RoundEnd(parser.mode, once) else Parsing);
        case Parsing =>
          if !fields[i].Progress? {
            return None;
          }
          if fields[i].last {
            parser := parser.(state := RoundEnd(parser.mode, once));
          }
        case _ =>
          return Some(Round(parser, isV6, inputs));
      }
    }
    r := Some(Round(parser, isV6, inputs));
  }

  // ---------------------------------------------------------------- HASH_INPUT_FINALIZE_FULL

  datatype OutputState = ParsingNumberOfOutputs | ParsingOutput | ProcessingOutputScript | OutputProcessingDone

  // `exchangeChecked` keeps the outcome of the check against the Exchange request that
  // ends the outputs in swap mode.
  datatype LegacyOutputParser = LegacyOutputParser(
    state: OutputState, outputCount: nat, outputParsedCount: nat, exchangeChecked: bool)

  const NEW_LEGACY_OUTPUT := LegacyOutputParser(ParsingNumberOfOutputs, 0, 0, false)

  datatype LegacyOutputField =
    | OutputCount(n: nat)
    | LegacyOutputHead
    | LegacyOutputScript(complete: bool, kind: ScriptKind)
    | BadOutputField

  // The output parser, the transaction it fills, and the events on the way.
  datatype OutputRun = OutputRun(parser: LegacyOutputParser, info: TxInfo, events: seq<Event>)

  // The script can be classified: change needs a declared account, and only one change
  // output is accepted.
  predicate Classified(t: TxInfo, kind: ScriptKind) {
    && kind != UnsupportedScript
    && (kind == ChangeScript ==> t.changeAccount.Some? && !t.isChangeFound)
  }

  function HiddenFor(t: TxInfo, kind: ScriptKind): Option<u32> {
    if kind == ChangeScript then t.changeAccount else None
  }

  // finalize_outputs: a transfer to oneself is revealed, except in swap mode.
  function OutputsSettled(swap: bool, t: TxInfo): TxInfo {
    t.(outputs := Settled(swap, t.outputs))
  }

  // An output whose script is complete, and the end of the outputs with the last one.
  function ScriptParsed(swap: bool, o: LegacyOutputParser, t: TxInfo, kind: ScriptKind, feesOk: bool,
                        exchange: bool): Option<OutputRun>
  {
    if !Classified(t, kind) then None
    else
      var hidden := HiddenFor(t, kind);
      var t', n := OutputAdded(t, hidden.Some?), o.outputParsedCount + 1;
      var recorded := LegacyOutputRecorded(hidden);
      if o.outputCount != n then
        Some(OutputRun(o.(outputParsedCount := n, state := ParsingOutput), t', [recorded]))
      else if !feesOk || (swap && !exchange) then None
      else
        Some(OutputRun(o.(outputParsedCount := n, state := OutputProcessingDone, exchangeChecked := swap && exchange),
                       OutputsSettled(swap, t'), [recorded, LegacyOutputsDone(swap && exchange)]))
  }

  function OutputFieldParsed(swap: bool, o: LegacyOutputParser, t: TxInfo, f: LegacyOutputField, feesOk: bool,
                             exchange: bool): Option<OutputRun>
  {
    match o.state
    case ParsingNumberOfOutputs =>
      if !f.OutputCount? || f.n > MAX_LEGACY_OUTPUTS then None
      else Some(OutputRun(o.(state := ParsingOutput, outputCount := f.n), t, []))
    case ParsingOutput =>
      if !f.LegacyOutputHead? then None else Some(OutputRun(o.(state := ProcessingOutputScript), t, []))
    case ProcessingOutputScript =>
      if !f.LegacyOutputScript? then None
      else if !f.complete then Some(OutputRun(o, t, []))
      else ScriptParsed(swap, o, t, f.kind, feesOk, exchange)
    case OutputProcessingDone => Some(OutputRun(o, t, []))
  }

  // A complete script: change needs a declared account and is accepted once; with the last
  // output the fee, and in swap mode the Exchange request, must check out.
  ghost predicate ScriptAccepted(swap: bool, o: LegacyOutputParser, t: TxInfo, kind: ScriptKind, feesOk: bool,
                                 exchange: bool)
  {
    && kind != UnsupportedScript && (kind == ChangeScript ==> t.changeAccount.Some? && !t.isChangeFound)
    && (o.outputParsedCount + 1 == o.outputCount ==> feesOk && (swap ==> exchange))
  }

  // One more output; it is hidden under the declared account exactly if its script is change.
  ghost predicate ScriptTaken(swap: bool, o: LegacyOutputParser, t: TxInfo, kind: ScriptKind, exchange: bool,
                              o': LegacyOutputParser, t': TxInfo, events: seq<Event>)
  {
    var isChange, last := kind == ChangeScript, o.outputParsedCount + 1 == o.outputCount;
    && o' == LegacyOutputParser(if last then OutputProcessingDone else ParsingOutput, o.outputCount,
                                o.outputParsedCount + 1, if last then swap && exchange else o.exchangeChecked)
    && t' == t.(isChangeFound := t.isChangeFound || isChange, outputs := t'.outputs)
    && (if last then RevealedIn(swap, t.outputs + [TxOutput(isChange)], t'.outputs)
        else t'.outputs == t.outputs + [TxOutput(isChange)])
    && events == [LegacyOutputRecorded(if isChange then t.changeAccount else None)]
                 + if last then [LegacyOutputsDone(swap && exchange)] else []
  }

  /** When a complete script is accepted, and what it then does. */
  lemma ScriptParsedExactly(swap: bool, o: LegacyOutputParser, t: TxInfo, kind: ScriptKind, feesOk: bool,
                            exchange: bool)
    ensures var x := ScriptParsed(swap, o, t, kind, feesOk, exchange);
            && (x.Some? <==> ScriptAccepted(swap, o, t, kind, feesOk, exchange))
            && (x.Some? ==> ScriptTaken(swap, o, t, kind, exchange, x.value.parser, x.value.info, x.value.events))
  {
    SettledIs(swap, t.outputs + [TxOutput(kind == ChangeScript)]);
  }

  // The output parser after the first k fields of a packet.
  function OutputsParsed(swap: bool, o: LegacyOutputParser, t: TxInfo, fields: seq<LegacyOutputField>, k: nat,
                         feesOk: bool, exchange: bool): Option<OutputRun>
    requires k <= |fields|
  {
    if k == 0 then Some(OutputRun(o, t, []))
    else
      var before := OutputsParsed(swap, o, t, fields, k - 1, feesOk, exchange);
      if before.None? then None
      else
        var r := before.value;
        var next := OutputFieldParsed(swap, r.parser, r.info, fields[k - 1], feesOk, exchange);
        if next.None? then None else Some(next.value.(events := r.events + next.value.events))
  }

  lemma {:induction false} OutputsStay(swap: bool, o: LegacyOutputParser, t: TxInfo, fields: seq<LegacyOutputField>,
                                       k: nat, n: nat, feesOk: bool, exchange: bool)
    requires k <= n <= |fields|
    ensures var x := OutputsParsed(swap, o, t, fields, k, feesOk, exchange);
            (x.None? || x.value.parser.state == OutputProcessingDone) ==>
              OutputsParsed(swap, o, t, fields, n, feesOk, exchange) == x
    decreases n - k
  {
    if k < n {
      OutputsStay(swap, o, t, fields, k, n - 1, feesOk, exchange);
      var x := OutputsParsed(swap, o, t, fields, k, feesOk, exchange);
      assert x.Some? ==> x.value.events + [] == x.value.events;
    }
  }

  // One more field: it ends the packet with an error, or extends the run.
  lemma OutputsNext(swap: bool, o: LegacyOutputParser, t: TxInfo, fields: seq<LegacyOutputField>, k: nat,
                    feesOk: bool, exchange: bool, r: OutputRun, log: seq<Event>)
    requires k < |fields| && OutputsParsed(swap, o, t, fields, k, feesOk, exchange) == Some(r)
    ensures var x := OutputFieldParsed(swap, r.parser, r.info, fields[k], feesOk, exchange);
            && (x.None? ==> OutputsParsed(swap, o, t, fields, |fields|, feesOk, exchange) == None)
            && (x.Some? ==> && OutputsParsed(swap, o, t, fields, k + 1, feesOk, exchange)
                               == Some(OutputRun(x.value.parser, x.value.info, r.events + x.value.events))
                            && (log + r.events) + x.value.events == log + (r.events + x.value.events))
  {
    OutputsStay(swap, o, t, fields, k + 1, |fields|, feesOk, exchange);
  }

  // ---------------------------------------------------------------- invariant

  // The outputs collected are the monitor's.
  ghost predicate OutputsMirrored(t: TxInfo, m: Monitor) {
    && m.outputs == |t.outputs|
    && (if !m.legacyOutputs then
          m.visible == CountVisible(t.outputs) && (!t.isChangeFound ==> m.visible == m.outputs)
        else
          m.outputs > 0 && CountVisible(t.outputs) == if !m.swap && m.visible == 0 then m.outputs else m.visible)
  }

  ghost predicate FlagsMirrored(l: LegacyParser, o: LegacyOutputParser, s: TxSigningState, m: Monitor) {
    && m.reviewed == s.isTxParsedOnce
    && m.legacyOutputs == (o.state == OutputProcessingDone) && m.legacyValidated == o.exchangeChecked
    && m.legacySigned == s.alreadySigned && m.legacyInputs == s.totalInputs
    && o.outputParsedCount == m.outputs && (m.legacyOutputs ==> o.outputCount == m.outputs)
    && (m.reviewed ==> m.legacyOutputs)
    && (m.swap && m.legacyOutputs ==> m.legacyValidated)
    && (l.state == ReadyToSign ==> m.reviewed)
  }

  // The invariant has two sides: flags and counters, and outputs.
  datatype LegacySide = FlagSide | OutputSide

  ghost predicate LegacyHolds(side: LegacySide, l: LegacyParser, o: LegacyOutputParser, t: TxInfo, s: TxSigningState,
                              m: Monitor)
  {
    match side
    case FlagSide => FlagsMirrored(l, o, s, m) && m.change == t.changeAccount
    case OutputSide => OutputsMirrored(t, m)
  }

  ghost predicate LegacyOk(l: LegacyParser, o: LegacyOutputParser, t: TxInfo, s: TxSigningState, m: Monitor) {
    forall side {:trigger LegacyHolds(side, l, o, t, s, m)} :: LegacyHolds(side, l, o, t, s, m)
  }

  lemma OpenLegacy(l: LegacyParser, o: LegacyOutputParser, t: TxInfo, s: TxSigningState, m: Monitor)
    requires LegacyOk(l, o, t, s, m)
    ensures FlagsMirrored(l, o, s, m) && OutputsMirrored(t, m) && m.change == t.changeAccount
  {
    assert LegacyHolds(FlagSide, l, o, t, s, m) && LegacyHolds(OutputSide, l, o, t, s, m);
  }

  lemma FreshLegacy(mode: LegacyMode, m: Monitor)
    requires IsFresh(m)
    ensures LegacyOk(LegacyParser(mode, Start), NEW_LEGACY_OUTPUT, NEW_TX_INFO, NEW_SIGNING, m)
  {}

  // ---------------------------------------------------------------- steps

  // The header of the first round fixes the number of signatures.
  function InputsDeclared(s: TxSigningState, inputs: Option<nat>): TxSigningState {
    if inputs.Some? then s.(totalInputs := inputs.value) else s
  }

  lemma ParsedStep(l: LegacyParser, l': LegacyParser, o: LegacyOutputParser, t: TxInfo, isV6: bool,
                   s: TxSigningState, m: Monitor, inputs: Option<nat>)
    requires LegacyOk(l, o, t, s, m) && m.kind != Pczt && (l'.state == ReadyToSign ==> s.isTxParsedOnce)
    requires inputs.Some? ==> !s.isTxParsedOnce && inputs.value <= MAX_COMPACT_SIZE
    ensures Allowed(m, LegacyParsed(inputs)) && Step(m, LegacyParsed(inputs)).kind == Legacy
    ensures LegacyOk(l', o, t.(isV6 := isV6), InputsDeclared(s, inputs), Step(m, LegacyParsed(inputs)))
  {
    OpenLegacy(l, o, t, s, m);
  }

  // A continuation restarts the parser.
  lemma RestartStep(l: LegacyParser, o: LegacyOutputParser, t: TxInfo, s: TxSigningState, m: Monitor, mode: LegacyMode)
    requires LegacyOk(l, o, t, s, m)
    ensures LegacyOk(LegacyParser(mode, Start), o, t, s, m)
  {
    OpenLegacy(l, o, t, s, m);
  }

  lemma ChangeStep(l: LegacyParser, o: LegacyOutputParser, t: TxInfo, s: TxSigningState, m: Monitor, account: u32)
    requires LegacyOk(l, o, t, s, m) && m.kind == Legacy && o.state != OutputProcessingDone
    ensures Allowed(m, LegacyChange(account)) && Step(m, LegacyChange(account)).kind == Legacy
    ensures LegacyOk(l, o, t.(changeAccount := Some(account)), s, Step(m, LegacyChange(account)))
  {
    OpenLegacy(l, o, t, s, m);
  }

  // The output parser moves on without having finished an output.
  lemma ReadStep(l: LegacyParser, o: LegacyOutputParser, o': LegacyOutputParser, t: TxInfo, s: TxSigningState,
                 m: Monitor)
    requires LegacyOk(l, o, t, s, m) && o.state != OutputProcessingDone && o'.state != OutputProcessingDone
    requires o'.exchangeChecked == o.exchangeChecked && o'.outputParsedCount == o.outputParsedCount
    ensures LegacyOk(l, o', t, s, m)
  {
    OpenLegacy(l, o, t, s, m);
  }

  function OutputRead(o: LegacyOutputParser): LegacyOutputParser {
    o.(outputParsedCount := o.outputParsedCount + 1, state := ParsingOutput)
  }

  lemma LegacyOutputStep(l: LegacyParser, o: LegacyOutputParser, t: TxInfo, s: TxSigningState, m: Monitor,
                         kind: ScriptKind)
    requires LegacyOk(l, o, t, s, m) && m.kind == Legacy && o.state != OutputProcessingDone && Classified(t, kind)
    ensures var hidden := HiddenFor(t, kind);
            var e := LegacyOutputRecorded(hidden);
            && Allowed(m, e) && Step(m, e).kind == Legacy
            && LegacyOk(l, OutputRead(o), OutputAdded(t, hidden.Some?), s, Step(m, e))
  {
    OpenLegacy(l, o, t, s, m);
    CountVisibleSnoc(t.outputs, TxOutput(HiddenFor(t, kind).Some?));
  }

  function OutputsEnded(o: LegacyOutputParser, checked: bool): LegacyOutputParser {
    o.(state := OutputProcessingDone, exchangeChecked := checked)
  }

  lemma OutputsEndStep(l: LegacyParser, o: LegacyOutputParser, t: TxInfo, s: TxSigningState, m: Monitor, checked: bool)
    requires LegacyOk(l, o, t, s, m) && m.kind == Legacy && o.state != OutputProcessingDone && t.outputs != []
    requires (m.swap ==> checked) && o.outputCount == o.outputParsedCount
    ensures var e := LegacyOutputsDone(checked);
            && Allowed(m, e) && Step(m, e).kind == Legacy
            && LegacyOk(l, OutputsEnded(o, checked), OutputsSettled(m.swap, t), s, Step(m, e))
  {
    OpenLegacy(l, o, t, s, m);
    RevealedAreVisible(t.outputs);
  }

  lemma LegacyReviewStep(l: LegacyParser, o: LegacyOutputParser, t: TxInfo, s: TxSigningState, m: Monitor,
                         approval: Approval)
    requires LegacyOk(l, o, t, s, m) && m.kind == Legacy && o.state == OutputProcessingDone && !s.isTxParsedOnce
    requires approval == if m.swap then Exchange(o.exchangeChecked) else User(true)
    ensures var e := LegacyReviewed(approval, CountVisible(t.outputs));
            && Allowed(m, e) && Step(m, e).kind == Legacy
            && LegacyOk(l, o, t, s.(isTxParsedOnce := true), Step(m, e))
  {
    OpenLegacy(l, o, t, s, m);
  }

  // The next legacy signature is the last one expected.
  predicate CompletesLegacy(s: TxSigningState) {
    SaturatingInc(s.alreadySigned) == if s.totalInputs == 0 then 1 else s.totalInputs
  }

  lemma SignStep(l: LegacyParser, o: LegacyOutputParser, t: TxInfo, s: TxSigningState, m: Monitor, path: Path)
    requires LegacyOk(l, o, t, s, m) && m.kind == Legacy && l.state == ReadyToSign && SigningPath(path)
    requires ChangeReturns(t.changeAccount, path) && (m.swap && m.released.Some? ==> m.released == Some(m.epoch))
    ensures var e := LegacySigned(path, CompletesLegacy(s));
            && Allowed(m, e) && Step(m, e).kind == Legacy
            && LegacyOk(l, o, t, s.(alreadySigned := SaturatingInc(s.alreadySigned)), Step(m, e))
  {
    OpenLegacy(l, o, t, s, m);
  }
}
