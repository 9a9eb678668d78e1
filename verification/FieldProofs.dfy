/**
 The steps of a PCZT session, as the parsers take them, do what FieldSteps says.
 */
module FieldProofs {
  import opened Outcomes
  import opened Words
  import opened Bytes
  import opened Paths
  import SignatureDigest
  import opened SignedContent
  import opened Transaction
  import opened SigningSpec
  import opened PcztState
  import opened PcztDraft
  import opened PcztInvariant
  import opened Instructions
  import opened FieldSteps

  lemma InputsStartDoes(h: Hash, p: PcztParser, t: TxInfo, s: TxSigningState, d: Draft, m: Monitor, log: seq<Event>,
                        n: nat)
    requires SessionOk(h, p, t, s, d, m) && p.state == WaitInputsCount
    ensures InputsStarted(h, Snapshot(p, t, s, d, log), n,
                          Snapshot(InputsCounted(p, n), t, s.(totalInputs := n),
                                   if n == 0 then InputsClosed(h, d) else d, log))
  {
    Open(h, p, t, s, d, m);
  }

  lemma Le32Grows(before: seq<u8>, n: u32)
    ensures Grown(before, before + SignatureDigest.Le32(n), 4, n)
  {
    assert Pow256(4) == 0x1_0000_0000;
    ToBytesVal(n, 4);
    assert (before + SignatureDigest.Le32(n))[|before|..] == SignatureDigest.Le32(n);
  }

  lemma AmountGrows(before: seq<u8>, amount: nat)
    requires amount <= MAX_MONEY
    ensures Grown(before, before + ToBytes(amount, 8), 8, amount)
  {
    AmountBytes(amount);
    assert (before + ToBytes(amount, 8))[|before|..] == ToBytes(amount, 8);
  }

  lemma InputHeadDoes(h: Hash, p: PcztParser, t: TxInfo, s: TxSigningState, d: Draft, m: Monitor, log: seq<Event>,
                      f: Field)
    requires SessionOk(h, p, t, s, d, m) && m.kind == Pczt && p.state == WaitInput
    requires f.InputHead? && |f.prevout| == PREVOUT_SIZE && f.amount <= MAX_MONEY
    ensures InputHeadTaken(Snapshot(p, t, s, d, log), f,
                           Snapshot(p.(state := WaitInputScript), InputCounted(t, f.amount), s,
                                    HeadRead(d, f.prevout, f.sequence, f.amount),
                                    log + [InputValue(f.prevout, f.sequence, f.amount)]))
  {
    InputHeadStep(h, p, t, s, d, m, f.prevout, f.sequence, f.amount);
    AmountBytes(f.amount);
    Le32Grows(d.hashers.sequence, f.sequence);
    AmountGrows(d.hashers.amounts, f.amount);
  }

  lemma InputScriptDoes(x: Snapshot, f: Field)
    requires f.ScriptPart? && (x.p.state == WaitInputScript || x.p.state == ProcessInputScript)
    ensures InputScriptTaken(x, f, Snapshot(x.p.(state := AfterInputScript(f.complete)), x.t, x.s,
                                            InputScriptPart(x.d, x.p.state, f.bytes, f.complete),
                                            x.log + [ScriptRead(f.bytes)]))
  {}

  lemma InputEndDoes(h: Hash, p: PcztParser, t: TxInfo, s: TxSigningState, d: Draft, m: Monitor, log: seq<Event>,
                     f: Field)
    requires SessionOk(h, p, t, s, d, m) && m.kind == Pczt && p.state == WaitInputDerivation
    requires f.InputDerivation? && SigningPath(f.path)
    ensures var p' := InputParsed(p, f.path);
            InputEndTaken(h, Snapshot(p, t, s, d, log), f,
                          Snapshot(p', t, s, InputAdded(h, d, p'.state == InputsDone),
                                   log + [InputRecorded(f.path, d.currentInput)]))
  {
    InputStep(h, p, t, s, d, m, f.path);
    Open(h, InputParsed(p, f.path), t, s, InputAdded(h, d, InputParsed(p, f.path).state == InputsDone),
         Step(m, InputRecorded(f.path, d.currentInput)));
  }

  lemma OutputsStartDoes(h: Hash, p: PcztParser, t: TxInfo, s: TxSigningState, d: Draft, m: Monitor, log: seq<Event>,
                         n: nat)
    requires SessionOk(h, p, t, s, d, m) && p.state == InputsDone
    ensures OutputsStarted(h, Snapshot(p, t, s, d, log), n,
                           Snapshot(OutputsCounted(p, n), OutputsCleared(t), s,
                                    if n == 0 then OutputsClosed(h, d) else d, log))
  {
    Open(h, p, t, s, d, m);
  }

  lemma OutputHeadDoes(h: Hash, p: PcztParser, t: TxInfo, s: TxSigningState, d: Draft, m: Monitor, log: seq<Event>,
                       f: Field)
    requires SessionOk(h, p, t, s, d, m) && m.kind == Pczt && p.state == WaitOutput
    requires f.OutputHead? && f.amount <= MAX_MONEY
    ensures OutputHeadTaken(Snapshot(p, t, s, d, log), f,
                            Snapshot(OutputCounted(p, f.amount), t, s, AmountRead(d, f.amount),
                                     log + [OutputValue(f.amount)]))
  {
    OutputHeadStep(h, p, t, s, d, m, f.amount);
    AmountBytes(f.amount);
  }

  lemma OutputScriptDoes(x: Snapshot, f: Field)
    requires f.ScriptPart? && (x.p.state == WaitOutputScript || x.p.state == ProcessOutputScript)
    ensures OutputScriptTaken(x, f, Snapshot(x.p.(state := AfterOutputScript(f.complete)), x.t, x.s,
                                             OutputScriptPart(x.d, x.p.state, f.bytes, f.complete),
                                             x.log + [ScriptRead(f.bytes)]))
  {}

  // The account of a declared change path is in `u` already, and logged.
  lemma OutputEndDoes(h: Hash, x: Snapshot, f: Field, u: TxInfo, m: Monitor)
    requires x.p.state == WaitOutputDerivation && OutputEndAccepted(x.t, f)
    requires u == (if f.changePath.Some? then x.t.(changeAccount := DerivationAccount(f.changePath.value)) else x.t)
    requires SessionOk(h, x.p, u, x.s, x.d, m) && m.kind == Pczt && m.change == u.changeAccount
    ensures var hidden := if f.kind == ChangeScript then f.changePath else None;
            var p' := OutputParsed(x.p);
            OutputEndTaken(h, x, f, Snapshot(p', OutputAdded(u, hidden.Some?), x.s,
                                             OutputJoined(h, x.d, p'.state == OutputsDone),
                                             x.log + AccountEvents(f.changePath)
                                               + [OutputRecorded(hidden, CurrentOutput(x.d))]))
  {
    var hidden := if f.kind == ChangeScript then f.changePath else None;
    OutputEndCovered(h, x.p, u, x.s, x.d, m, hidden);
    OutputEndRecords(h, x, f, u);
  }

  // The last output closes the hash over all of them.
  lemma OutputEndCovered(h: Hash, p: PcztParser, t: TxInfo, s: TxSigningState, d: Draft, m: Monitor,
                         hidden: Option<Path>)
    requires SessionOk(h, p, t, s, d, m) && m.kind == Pczt && m.change == t.changeAccount
             && p.state == WaitOutputDerivation
    requires !(hidden.Some? && t.isChangeFound)
    requires hidden.Some? ==> ChangePath(hidden.value) && t.changeAccount == DerivationAccount(hidden.value)
    ensures var p' := OutputParsed(p);
            var d' := OutputJoined(h, d, p'.state == OutputsDone);
            p'.state == OutputsDone ==> CoversOutputs(h, d'.tx, d'.outputs)
  {
    var p' := OutputParsed(p);
    var d' := OutputJoined(h, d, p'.state == OutputsDone);
    OutputStep(h, p, t, s, d, m, hidden);
    Open(h, p', OutputAdded(t, hidden.Some?), s, d', Step(m, OutputRecorded(hidden, CurrentOutput(d))));
  }

  lemma OutputEndRecords(h: Hash, x: Snapshot, f: Field, u: TxInfo)
    requires x.p.state == WaitOutputDerivation && OutputEndAccepted(x.t, f)
    requires u == (if f.changePath.Some? then x.t.(changeAccount := DerivationAccount(f.changePath.value)) else x.t)
    requires var p' := OutputParsed(x.p);
             var d' := OutputJoined(h, x.d, p'.state == OutputsDone);
             p'.state == OutputsDone ==> CoversOutputs(h, d'.tx, d'.outputs)
    ensures var hidden := if f.kind == ChangeScript then f.changePath else None;
            var p' := OutputParsed(x.p);
            OutputEndTaken(h, x, f, Snapshot(p', OutputAdded(u, hidden.Some?), x.s,
                                             OutputJoined(h, x.d, p'.state == OutputsDone),
                                             x.log + AccountEvents(f.changePath)
                                               + [OutputRecorded(hidden, CurrentOutput(x.d))]))
  {
    Regroup(x.log, AccountEvents(f.changePath),
            [OutputRecorded(if f.kind == ChangeScript then f.changePath else None, CurrentOutput(x.d))]);
  }

  lemma BundleStartDoes(h: Hash, p: PcztParser, t: TxInfo, s: TxSigningState, d: Draft, m: Monitor, log: seq<Event>,
                        pool: Pool, n: nat)
    requires SessionOk(h, p, t, s, d, m) && StartsBundle(p, pool)
    ensures BundleStartTaken(Snapshot(p, t, s, d, log), pool, n,
                             Snapshot(BundleStarted(p, pool, n), t, s, BundleFlagged(d, pool), log))
  {
    Open(h, p, t, s, d, m);
  }

  // The digest state plays no part in closing a bundle.
  lemma CloseIgnoresDigests(swap: bool, x: Snapshot, d: Draft, pool: Pool, balance: int, answer: Answer)
    ensures CloseAccepted(swap, x.(d := d), pool, balance, answer) <==> CloseAccepted(swap, x, pool, balance, answer)
    ensures forall y {:trigger CloseTaken(swap, x, pool, balance, y)} ::
              CloseTaken(swap, x.(d := d), pool, balance, y) ==> CloseTaken(swap, x, pool, balance, y)
  {}

  // The account of an internal output is in `u` already, and logged.
  lemma ActionEndDoes(x: Snapshot, pool: Pool, f: Field, u: TxInfo)
    requires ActionEndAccepted(x, pool, f)
    requires u == (if f.recovery.Internal? then x.t.(changeAccount := DerivationAccount(x.p.currentPath.value))
                   else x.t)
    ensures var path, kind := x.p.currentPath.value, KindOf(f.recovery);
            var b := RecordAdded(x.p.Bundle(pool), path, x.p.currentSpend, f.output);
            ActionEndTaken(x, pool, f,
                           Snapshot(ActionParsed(x.p, pool, b), OutputRecovered(u, kind), x.s, x.d,
                                    x.log + AccountEvents(if f.recovery.Internal? then Some(path) else None)
                                    + [ActionRecorded(pool, path, x.p.currentSpend, f.output, kind)]))
  {
    var path := x.p.currentPath.value;
    Regroup(x.log, AccountEvents(if f.recovery.Internal? then Some(path) else None),
            [ActionRecorded(pool, path, x.p.currentSpend, f.output, KindOf(f.recovery))]);
  }

  lemma Regroup(a: seq<Event>, b: seq<Event>, c: seq<Event>)
    ensures a + b + c == a + (b + c)
  {}

  lemma FeeDoes(x: Snapshot, pool: Pool, balance: int)
    ensures Fees(BundleClosed(x.p, pool, balance), x.t) == FeeWith(x, pool, balance)
  {}

  lemma ReviewDoes(swap: bool, x: Snapshot, pool: Pool, balance: int)
    requires !(pool == Orchard && x.t.isV6)
    ensures var outputs := Settled(swap, x.t.outputs);
            CloseTaken(swap, x, pool, balance,
                       Snapshot(Approved(BundleClosed(x.p, pool, balance)), x.t.(outputs := outputs), x.s, x.d,
                                x.log + [Reviewed(if swap then Exchange(true) else User(true),
                                                  FeeWith(x, pool, balance), CountVisible(outputs), x.d.Covered())]))
  {
    SettledIs(swap, x.t.outputs);
  }

  // Closing a bundle keeps the records of both, and its review is all that is logged.
  lemma CloseKeepsRecords(swap: bool, x: Snapshot, pool: Pool, balance: int, y: Snapshot)
    requires CloseTaken(swap, x, pool, balance, y)
    ensures y.p.orchard.records == x.p.orchard.records && y.p.ironwood.records == x.p.ironwood.records
    ensures y.p.orchard.present == x.p.orchard.present && y.p.ironwood.present == x.p.ironwood.present
    ensures y.p.state == Shielded(pool, ActionsDone) && y.t.changeAccount == x.t.changeAccount
    ensures !(pool == Orchard && x.t.isV6) ==>
              && y.p.outputsReviewed && x.log < y.log && |y.log| == |x.log| + 1
              && var e := y.log[|x.log|];
                 e.Reviewed? && e.fee == FeeWith(x, pool, balance) && e.shown == CountVisible(y.t.outputs)
  {}

  lemma DeferDoes(swap: bool, x: Snapshot, pool: Pool, balance: int)
    requires pool == Orchard && x.t.isV6
    ensures CloseTaken(swap, x, pool, balance, Snapshot(BundleClosed(x.p, pool, balance), x.t, x.s, x.d, x.log))
  {}

  // A field is judged by the rules of its section.
  lemma JudgedBySection(h: Hash, swap: bool, section: Section, x: Snapshot, f: Field, more: bool, answer: Answer)
    ensures FieldAccepted(swap, section, x, f, more, answer) <==> SectionAccepts(swap, section, x, f, more, answer)
  {}

  // ---------------------------------------------------------------- the rules of transparent data, state by state

  lemma InputsStartJudged(h: Hash, swap: bool, x: Snapshot, f: Field, more: bool, answer: Answer)
    requires x.p.state == WaitInputsCount
    ensures FieldAccepted(swap, Inputs, x, f, more, answer) <==>
            (f.Count? && f.n <= 32 && !more)
    ensures f.Count? ==> forall y {:trigger InputsStarted(h, x, f.n, y)} ::
              FieldAccepted(swap, Inputs, x, f, more, answer) && InputsStarted(h, x, f.n, y) ==>
                FieldTaken(h, swap, Inputs, x, f, more, answer, y)
  {
    JudgedBySection(h, swap, Inputs, x, f, more, answer);
  }

  lemma InputHeadJudged(h: Hash, swap: bool, x: Snapshot, f: Field, more: bool, answer: Answer)
    requires x.p.state == WaitInput
    ensures FieldAccepted(swap, Inputs, x, f, more, answer) <==>
            (f.InputHead? && |f.prevout| == 36 && f.amount <= 2_100_000_000_000_000 && !more)
    ensures f.InputHead? ==> forall y {:trigger InputHeadTaken(x, f, y)} ::
              FieldAccepted(swap, Inputs, x, f, more, answer) && InputHeadTaken(x, f, y) ==>
                FieldTaken(h, swap, Inputs, x, f, more, answer, y)
  {
    JudgedBySection(h, swap, Inputs, x, f, more, answer);
  }

  lemma InputScriptJudged(h: Hash, swap: bool, x: Snapshot, f: Field, more: bool, answer: Answer)
    requires x.p.state == WaitInputScript || x.p.state == ProcessInputScript
    ensures FieldAccepted(swap, Inputs, x, f, more, answer) <==>
            (f.ScriptPart? && |ScriptAfter(x, f.bytes)| <= 252 && (f.complete ==> f.p2pkh && !more))
    ensures f.ScriptPart? ==> forall y {:trigger InputScriptTaken(x, f, y)} ::
              FieldAccepted(swap, Inputs, x, f, more, answer) && InputScriptTaken(x, f, y) ==>
                FieldTaken(h, swap, Inputs, x, f, more, answer, y)
  {
    JudgedBySection(h, swap, Inputs, x, f, more, answer);
  }

  lemma SighashJudged(h: Hash, swap: bool, x: Snapshot, f: Field, more: bool, answer: Answer)
    requires x.p.state == WaitInputSighashType
    ensures FieldAccepted(swap, Inputs, x, f, more, answer) <==>
            (f.SighashType? && f.all && more)
    ensures forall y {:trigger SighashTypeTaken(x, y)} ::
              FieldAccepted(swap, Inputs, x, f, more, answer) && SighashTypeTaken(x, y) ==>
                FieldTaken(h, swap, Inputs, x, f, more, answer, y)
  {
    JudgedBySection(h, swap, Inputs, x, f, more, answer);
  }

  lemma InputEndJudged(h: Hash, swap: bool, x: Snapshot, f: Field, more: bool, answer: Answer)
    requires x.p.state == WaitInputDerivation
    ensures FieldAccepted(swap, Inputs, x, f, more, answer) <==>
            (f.InputDerivation? && SigningPath(f.path) && !more)
    ensures f.InputDerivation? ==> forall y {:trigger InputEndTaken(h, x, f, y)} ::
              FieldAccepted(swap, Inputs, x, f, more, answer) && InputEndTaken(h, x, f, y) ==>
                FieldTaken(h, swap, Inputs, x, f, more, answer, y)
  {
    JudgedBySection(h, swap, Inputs, x, f, more, answer);
  }

  lemma OutputsStartJudged(h: Hash, swap: bool, x: Snapshot, f: Field, more: bool, answer: Answer)
    requires x.p.state == InputsDone
    ensures FieldAccepted(swap, Outputs, x, f, more, answer) <==>
            (f.Count? && f.n <= 10 && !more)
    ensures f.Count? ==> forall y {:trigger OutputsStarted(h, x, f.n, y)} ::
              FieldAccepted(swap, Outputs, x, f, more, answer) && OutputsStarted(h, x, f.n, y) ==>
                FieldTaken(h, swap, Outputs, x, f, more, answer, y)
  {
    JudgedBySection(h, swap, Outputs, x, f, more, answer);
  }

  lemma OutputHeadJudged(h: Hash, swap: bool, x: Snapshot, f: Field, more: bool, answer: Answer)
    requires x.p.state == WaitOutput
    ensures FieldAccepted(swap, Outputs, x, f, more, answer) <==>
            (f.OutputHead? && f.amount <= 2_100_000_000_000_000 && !more)
    ensures f.OutputHead? ==> forall y {:trigger OutputHeadTaken(x, f, y)} ::
              FieldAccepted(swap, Outputs, x, f, more, answer) && OutputHeadTaken(x, f, y) ==>
                FieldTaken(h, swap, Outputs, x, f, more, answer, y)
  {
    JudgedBySection(h, swap, Outputs, x, f, more, answer);
  }

  lemma OutputScriptJudged(h: Hash, swap: bool, x: Snapshot, f: Field, more: bool, answer: Answer)
    requires x.p.state == WaitOutputScript || x.p.state == ProcessOutputScript
    ensures FieldAccepted(swap, Outputs, x, f, more, answer) <==>
            (f.ScriptPart? && |ScriptAfter(x, f.bytes)| <= 252 && (f.complete ==> !more))
    ensures f.ScriptPart? ==> forall y {:trigger OutputScriptTaken(x, f, y)} ::
              FieldAccepted(swap, Outputs, x, f, more, answer) && OutputScriptTaken(x, f, y) ==>
                FieldTaken(h, swap, Outputs, x, f, more, answer, y)
  {
    JudgedBySection(h, swap, Outputs, x, f, more, answer);
  }

  lemma OutputEndJudged(h: Hash, swap: bool, x: Snapshot, f: Field, more: bool, answer: Answer)
    requires x.p.state == WaitOutputDerivation
    ensures FieldAccepted(swap, Outputs, x, f, more, answer) <==>
            (OutputEndAccepted(x.t, f) && !more)
    ensures f.OutputDerivation? ==> forall y {:trigger OutputEndTaken(h, x, f, y)} ::
              FieldAccepted(swap, Outputs, x, f, more, answer) && OutputEndTaken(h, x, f, y) ==>
                FieldTaken(h, swap, Outputs, x, f, more, answer, y)
  {
    JudgedBySection(h, swap, Outputs, x, f, more, answer);
  }

  // ---------------------------------------------------------------- the rules of a bundle, state by state

  lemma HeadJudged(h: Hash, swap: bool, pool: Pool, x: Snapshot, f: Field, more: bool, answer: Answer)
    requires x.p.state == Shielded(pool, WaitAction)
    ensures FieldAccepted(swap, Actions(pool), x, f, more, answer) <==>
              (f.ActionHead? && f.spend <= 2_100_000_000_000_000 && !more)
    ensures f.ActionHead? ==> forall y {:trigger HeadTaken(x, pool, f, y)} ::
              FieldAccepted(swap, Actions(pool), x, f, more, answer) && HeadTaken(x, pool, f, y) ==>
                FieldTaken(h, swap, Actions(pool), x, f, more, answer, y)
  {
    JudgedBySection(h, swap, Actions(pool), x, f, more, answer);
  }

  lemma DerivationJudged(h: Hash, swap: bool, pool: Pool, x: Snapshot, f: Field, more: bool, answer: Answer)
    requires x.p.state == Shielded(pool, WaitZip32Derivation)
    ensures FieldAccepted(swap, Actions(pool), x, f, more, answer) <==>
              (&& f.Zip32Derivation? && SigningPath(f.path) && !more
             && (x.p.keyPath == Some(f.path) || (x.p.keyPath == None && f.derived))
             && (x.p.currentSpend != 0 ==> f.rkMatches))
    ensures f.Zip32Derivation? ==> forall y {:trigger DerivationTaken(x, pool, f, y)} ::
              FieldAccepted(swap, Actions(pool), x, f, more, answer) && DerivationTaken(x, pool, f, y) ==>
                FieldTaken(h, swap, Actions(pool), x, f, more, answer, y)
  {
    JudgedBySection(h, swap, Actions(pool), x, f, more, answer);
  }

  lemma OutputPartJudged(h: Hash, swap: bool, pool: Pool, x: Snapshot, f: Field, more: bool, answer: Answer)
    requires x.p.state == Shielded(pool, WaitActionOutput)
    ensures FieldAccepted(swap, Actions(pool), x, f, more, answer) <==> (f.ActionOutput? && !more)
    ensures forall y {:trigger StepTaken(x, pool, WaitEncCiphertextLen, y)} ::
              FieldAccepted(swap, Actions(pool), x, f, more, answer) && StepTaken(x, pool, WaitEncCiphertextLen, y) ==>
                FieldTaken(h, swap, Actions(pool), x, f, more, answer, y)
  {
    JudgedBySection(h, swap, Actions(pool), x, f, more, answer);
  }

  lemma CiphertextJudged(h: Hash, swap: bool, pool: Pool, x: Snapshot, f: Field, more: bool, answer: Answer)
    requires InCiphertext(x.p.state, pool)
    ensures FieldAccepted(swap, Actions(pool), x, f, more, answer) <==> (f.Ciphertext? && (f.complete ==> !more))
    ensures f.Ciphertext? ==> forall y {:trigger StepTaken(x, pool, AfterCiphertext(x.p.state.step, f.complete), y)} ::
              FieldAccepted(swap, Actions(pool), x, f, more, answer)
                && StepTaken(x, pool, AfterCiphertext(x.p.state.step, f.complete), y) ==>
                FieldTaken(h, swap, Actions(pool), x, f, more, answer, y)
  {
    JudgedBySection(h, swap, Actions(pool), x, f, more, answer);
  }

  lemma ActionEndJudged(h: Hash, swap: bool, pool: Pool, x: Snapshot, f: Field, more: bool, answer: Answer)
    requires x.p.state == Shielded(pool, WaitOutputMetadata) && x.p.currentPath.Some?
    ensures FieldAccepted(swap, Actions(pool), x, f, more, answer) <==> (ActionEndAccepted(x, pool, f) && !more)
    ensures f.OutputMetadata? ==> forall y {:trigger ActionEndTaken(x, pool, f, y)} ::
              FieldAccepted(swap, Actions(pool), x, f, more, answer) && ActionEndTaken(x, pool, f, y) ==>
                FieldTaken(h, swap, Actions(pool), x, f, more, answer, y)
  {
    JudgedBySection(h, swap, Actions(pool), x, f, more, answer);
  }

  lemma TrailerJudged(h: Hash, swap: bool, pool: Pool, x: Snapshot, f: Field, more: bool, answer: Answer)
    requires x.p.state == Shielded(pool, WaitTrailer)
    ensures FieldAccepted(swap, Actions(pool), x, f, more, answer) <==>
              (&& f.Trailer? && f.magnitude <= 0x7FFF_FFFF_FFFF_FFFF && f.sign <= 1 && !more
             && x.p.Bundle(pool).sums.spend - x.p.Bundle(pool).sums.output == Signed64(f)
             && CloseAccepted(swap, x, pool, Signed64(f), answer))
    ensures f.Trailer? ==> forall y {:trigger TrailerTaken(swap, x, pool, f, y)} ::
              FieldAccepted(swap, Actions(pool), x, f, more, answer) && TrailerTaken(swap, x, pool, f, y) ==>
                FieldTaken(h, swap, Actions(pool), x, f, more, answer, y)
  {
    JudgedBySection(h, swap, Actions(pool), x, f, more, answer);
  }

  lemma StartJudged(h: Hash, swap: bool, pool: Pool, x: Snapshot, f: Field, more: bool, answer: Answer)
    requires StartsBundle(x.p, pool)
    ensures FieldAccepted(swap, Actions(pool), x, f, more, answer) <==>
            (&& !more && f.Count? && f.n <= 32 && (pool == Ironwood ==> x.t.isV6)
             && (f.n == 0 ==> CloseAccepted(swap, x, pool, 0, answer)))
    ensures f.Count? && f.n > 0 ==> forall y {:trigger BundleStartTaken(x, pool, f.n, y)} ::
              FieldAccepted(swap, Actions(pool), x, f, more, answer) && BundleStartTaken(x, pool, f.n, y) ==>
                FieldTaken(h, swap, Actions(pool), x, f, more, answer, y)
    ensures f.Count? && f.n == 0 ==> forall y {:trigger CloseTaken(swap, x, pool, 0, y)} ::
              FieldAccepted(swap, Actions(pool), x, f, more, answer) && CloseTaken(swap, x, pool, 0, y)
                && y.d == x.d ==>
                FieldTaken(h, swap, Actions(pool), x, f, more, answer, y)
  {
    JudgedBySection(h, swap, Actions(pool), x, f, more, answer);
  }

  lemma OutsideJudged(h: Hash, swap: bool, section: Section, x: Snapshot, f: Field, more: bool, answer: Answer)
    requires !InSection(section, x.p.state)
    ensures !FieldAccepted(swap, section, x, f, more, answer)
  {
    JudgedBySection(h, swap, section, x, f, more, answer);
  }

  lemma ChainStarts(h: Hash, swap: bool, section: Section, payload: seq<Field>, answer: Answer, x: Snapshot)
    ensures Chain(h, swap, section, payload, answer, [x])
  {}

  lemma ChainGrows(h: Hash, swap: bool, section: Section, payload: seq<Field>, answer: Answer, chain: seq<Snapshot>,
                   y: Snapshot)
    requires Chain(h, swap, section, payload, answer, chain) && |chain| <= |payload|
    requires var k := |chain| - 1; FieldTaken(h, swap, section, chain[k], payload[k], k + 1 < |payload|, answer, y)
    ensures Chain(h, swap, section, payload, answer, chain + [y])
  {
    assert Linked(h, swap, section, payload, answer, chain);
    var grown := chain + [y];
    forall i | 0 <= i < |grown| - 1 ensures Link(h, swap, section, payload, answer, grown, i) {
      if i < |chain| - 1 { assert Link(h, swap, section, payload, answer, chain, i); }
    }
  }

  // ---------------------------------------------------------------- what a packet logs

  // Every event from `from` on has a field of the packet behind it.
  ghost predicate PacketLogged(swap: bool, section: Section, payload: seq<Field>, answer: Answer, from: nat,
                               log: seq<Event>)
  {
    from <= |log| && forall j :: from <= j < |log| ==> PacketCauses(swap, section, payload, answer, log[j])
  }

  ghost predicate StepLogged(swap: bool, section: Section, x: Snapshot, f: Field, answer: Answer, log: seq<Event>) {
    x.log <= log && forall j :: |x.log| <= j < |log| ==> FieldCauses(swap, section, f, answer, log[j])
  }

  lemma InputLogs(h: Hash, swap: bool, x: Snapshot, f: Field, answer: Answer, y: Snapshot)
    requires InSection(Inputs, x.p.state) && InputTaken(h, x, f, y)
    ensures StepLogged(swap, Inputs, x, f, answer, y.log)
  {}

  lemma OutputLogs(h: Hash, swap: bool, x: Snapshot, f: Field, answer: Answer, y: Snapshot)
    requires InSection(Outputs, x.p.state) && OutputTaken(h, x, f, y)
    ensures StepLogged(swap, Outputs, x, f, answer, y.log)
  {
    if x.p.state == WaitOutputDerivation {
      AccountLogged(f.changePath, x.log);
    }
  }

  lemma AccountLogged(path: Option<Path>, log: seq<Event>)
    ensures forall e <- AccountEvents(path) ::
              e.ChangeRecorded? && path.Some? && DerivationAccount(path.value) == Some(e.account)
  {}

  // What closing a bundle logs was approved by whoever had to.
  lemma CloseLogs(swap: bool, x: Snapshot, pool: Pool, balance: int, f: Field, answer: Answer, y: Snapshot)
    requires CloseTaken(swap, x, pool, balance, y) && CloseAccepted(swap, x, pool, balance, answer)
    requires f.Trailer? || f == Count(0)
    ensures StepLogged(swap, Section.Actions(pool), x, f, answer, y.log)
  {
    if !(pool == Orchard && x.t.isV6) {
      var e := y.log[|x.log|];
      assert e.Reviewed? && e.approval == if swap then Exchange(answer.exchange) else User(answer.user);
    }
  }

  lemma ActionEndLogs(swap: bool, x: Snapshot, pool: Pool, f: Field, answer: Answer, y: Snapshot)
    requires f.OutputMetadata? && x.p.currentPath.Some? && ActionEndTaken(x, pool, f, y)
    ensures StepLogged(swap, Section.Actions(pool), x, f, answer, y.log)
  {
    AccountLogged(if f.recovery.Internal? then x.p.currentPath else None, x.log);
  }

  lemma BundleLogs(swap: bool, pool: Pool, x: Snapshot, f: Field, more: bool, answer: Answer, y: Snapshot)
    requires StartsBundle(x.p, pool) || x.p.state == Shielded(pool, WaitTrailer)
    requires ActionTaken(swap, x, pool, f, y) && ActionAccepted(swap, x, pool, f, more, answer)
    ensures StepLogged(swap, Section.Actions(pool), x, f, answer, y.log)
  {
    if x.p.state == Shielded(pool, WaitTrailer) {
      CloseLogs(swap, x, pool, Signed64(f), f, answer, y);
    } else if f.n == 0 {
      CloseLogs(swap, x, pool, 0, f, answer, y);
    }
  }

  lemma ActionLogs(swap: bool, pool: Pool, x: Snapshot, f: Field, more: bool, answer: Answer, y: Snapshot)
    requires ActionTaken(swap, x, pool, f, y) && SectionAccepts(swap, Section.Actions(pool), x, f, more, answer)
    ensures StepLogged(swap, Section.Actions(pool), x, f, answer, y.log)
  {
    if StartsBundle(x.p, pool) || x.p.state == Shielded(pool, WaitTrailer) {
      BundleLogs(swap, pool, x, f, more, answer, y);
    } else if x.p.state == Shielded(pool, WaitOutputMetadata) {
      ActionEndLogs(swap, x, pool, f, answer, y);
    } else {
      StepLogs(swap, pool, x, f, answer, y);
    }
  }

  // Of the other fields of an action only its head is logged.
  lemma StepLogs(swap: bool, pool: Pool, x: Snapshot, f: Field, answer: Answer, y: Snapshot)
    requires x.p.state.Shielded? && x.p.state.pool == pool && x.p.state.step != WaitOutputMetadata
             && x.p.state.step != WaitTrailer && x.p.state.step != ActionsDone
    requires ActionTaken(swap, x, pool, f, y)
    ensures StepLogged(swap, Section.Actions(pool), x, f, answer, y.log)
  {}

  lemma FieldLogs(h: Hash, swap: bool, section: Section, x: Snapshot, f: Field, more: bool, answer: Answer, y: Snapshot)
    requires FieldTaken(h, swap, section, x, f, more, answer, y)
    ensures StepLogged(swap, section, x, f, answer, y.log)
  {
    assert SectionTakes(h, swap, section, x, f, y) && SectionAccepts(swap, section, x, f, more, answer);
    match section
    case Inputs => InputLogs(h, swap, x, f, answer, y);
    case Outputs => OutputLogs(h, swap, x, f, answer, y);
    case Actions(pool) => ActionLogs(swap, pool, x, f, more, answer, y);
  }

  lemma RefusedLogs(section: Section, x: Snapshot, f: Field)
    ensures forall log {:trigger FailureLogged(section, x, f, log)} ::
              FailureLogged(section, x, f, log) <==> RefusalLogged(section, x, f, log)
  {}

  // What a field logs, its packet logs.
  lemma StepInPacket(swap: bool, section: Section, payload: seq<Field>, answer: Answer, x: Snapshot, k: nat, from: nat,
                     log: seq<Event>)
    requires k < |payload| && StepLogged(swap, section, x, payload[k], answer, log)
    requires PacketLogged(swap, section, payload, answer, from, x.log)
    ensures PacketLogged(swap, section, payload, answer, from, log) && log[..from] == x.log[..from]
  {
    forall j | from <= j < |log| ensures PacketCauses(swap, section, payload, answer, log[j]) {
      if j < |x.log| { assert log[j] == x.log[j]; }
    }
  }

  lemma {:induction false} ChainLogged(h: Hash, swap: bool, section: Section, payload: seq<Field>, answer: Answer,
                                       chain: seq<Snapshot>, k: nat)
    requires Chain(h, swap, section, payload, answer, chain) && k < |chain|
    ensures PacketLogged(swap, section, payload, answer, |chain[0].log|, chain[k].log)
    ensures chain[k].log[..|chain[0].log|] == chain[0].log
  {
    if k > 0 {
      ChainLogged(h, swap, section, payload, answer, chain, k - 1);
      assert Linked(h, swap, section, payload, answer, chain);
      assert Link(h, swap, section, payload, answer, chain, k - 1);
      FieldLogs(h, swap, section, chain[k - 1], payload[k - 1], k < |payload|, answer, chain[k]);
      StepInPacket(swap, section, payload, answer, chain[k - 1], k - 1, |chain[0].log|, chain[k].log);
    }
  }

  lemma FailureLogs(swap: bool, section: Section, payload: seq<Field>, answer: Answer, x: Snapshot, k: nat, from: nat,
                    log: seq<Event>)
    requires k < |payload| && FailureLogged(section, x, payload[k], log)
    requires PacketLogged(swap, section, payload, answer, from, x.log)
    ensures PacketLogged(swap, section, payload, answer, from, log)
  {
    assert RefusalLogged(section, x, payload[k], log);
    AccountLogged(x.p.currentPath, x.log);
    if payload[k].OutputDerivation? { AccountLogged(payload[k].changePath, x.log); }
    StepInPacket(swap, section, payload, answer, x, k, from, log);
  }

  // A packet of a section, as an instruction.
  lemma PacketLogs(swap: bool, apdu: Apdu, section: Section, finish: bool, payload: seq<Field>, answer: Answer,
                   ok: bool, m: Monitor, before: seq<Event>, after: seq<Event>)
    requires || (apdu.PcztTransparentInput? && apdu.payload == payload && section == Inputs)
             || (apdu.PcztTransparentOutput? && apdu.payload == payload && section == Outputs)
             || (apdu.PcztAction? && apdu == PcztAction(apdu.pool, apdu.last, finish, payload, answer)
                 && section == Section.Actions(apdu.pool))
    requires apdu.PcztAction? || (answer == Answer(false, false) && !finish)
    requires before <= after
    requires if ok && finish then
               |after| > |before| && after[|after| - 1] == Finished
               && PacketLogged(swap, section, payload, answer, |before|, after[..|after| - 1])
             else PacketLogged(swap, section, payload, answer, |before|, after)
    ensures Logs(swap, apdu, ok, m, before, after)
  {}
}
