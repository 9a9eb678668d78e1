/**
 The signing session: the shared transaction context, one method per instruction, and
 the command loop (src/main.rs, src/tx.rs, src/handlers/, src/parser/pczt.rs and its
 submodules, src/parser/legacy/).

 The host is adversarial: it chooses every instruction and every payload field. So are
 the answers of the user, of the check against the Exchange request and of the secure
 element. Sub-structures of the context are values, as in the source; the context itself
 is updated in place. Every transition is appended to a log, and the context carries
 the monitor of SigningSpec along: `Valid()` ties each counter, flag and record to it.
 */
module SigningSession {
  import opened Outcomes
  import opened Bytes
  import opened Paths
  import SignatureDigest
  import opened SignedContent
  import opened Transaction
  import opened SigningSpec
  import opened PcztState
  import opened PcztDraft
  import opened PcztInvariant
  import opened Instructions
  import opened FieldSteps
  import opened FieldProofs
  import opened LegacyState

  datatype Sw = Deny | BadState | IncorrectData | WrongApduLength | ConditionsOfUseNotSatisfied | TechnicalProblem

  // What is kept of the log: the monitor accepts it, and its hashes are right.
  datatype LogSide = Traced | HashesRight

  ghost predicate LogHolds(side: LogSide, swap: bool, h: SignatureDigest.Blake2b256, log: seq<Event>, ms: seq<Monitor>,
                           m: Monitor)
  {
    match side
    case Traced => IsTrace(swap, log, ms) && m == ms[|log|]
    case HashesRight => Hashed(h, log)
  }

  ghost predicate LogOk(swap: bool, h: SignatureDigest.Blake2b256, log: seq<Event>, ms: seq<Monitor>, m: Monitor) {
    forall side {:trigger LogHolds(side, swap, h, log, ms, m)} :: LogHolds(side, swap, h, log, ms, m)
  }

  class TxContext {
    const swap: bool
    const h: SignatureDigest.Blake2b256
    var isExtraHeaderDataSet: bool
    var isFinished: bool
    var signing: TxSigningState
    var txInfo: TxInfo
    var draft: Draft      // the part of the transaction and of the PCZT parser the digests read
    var legacy: LegacyParser
    var pczt: PcztParser
    var legacyOutput: LegacyOutputParser
    var hasReleasedSignature: bool
    var log: seq<Event>
    ghost var ms: seq<Monitor>
    ghost var m: Monitor

    // The log is accepted and `m` is its monitor; its hashes are those of its contents.
    ghost predicate Logged()
      reads this
    {
      LogOk(swap, h, log, ms, m)
    }

    lemma NothingLogged()
      requires Logged() && m.kind == Idle
      ensures IsFresh(m)
    {
      OpenLog();
      IdleIsFresh(swap, log, ms, |log|);
    }

    lemma OpenLog()
      requires Logged()
      ensures IsTrace(swap, log, ms) && m == ms[|log|] && Hashed(h, log)
    {
      assert LogHolds(Traced, swap, h, log, ms, m) && LogHolds(HashesRight, swap, h, log, ms, m);
    }

    ghost predicate Sound()
      reads this
    {
      && Logged() && m.swap == swap
      && (hasReleasedSignature <==> m.released.Some?)
      && (swap && hasReleasedSignature ==> m.released == Some(m.epoch))
    }

    ghost predicate LegacyFresh()
      reads this
    {
      legacy.state == Start && legacyOutput == NEW_LEGACY_OUTPUT && !isExtraHeaderDataSet && !signing.isTxParsedOnce
    }

    ghost predicate LegacyInv()
      reads this
    {
      && IsNew(pczt) && isExtraHeaderDataSet == signing.isTxParsedOnce
      && LegacyOk(legacy, legacyOutput, txInfo, signing, m)
    }

    // A legacy transaction is being parsed or signed.
    ghost predicate InLegacy()
      reads this
    {
      Sound() && m.kind == Legacy && m.change == txInfo.changeAccount && LegacyInv()
    }

    ghost predicate IdleInv()
      reads this
    {
      LegacyFresh() && IsNew(pczt) && txInfo == NEW_TX_INFO && signing == NEW_SIGNING && !isFinished
    }

    // A PCZT being parsed or signed.
    ghost predicate PcztOk()
      reads this
    {
      SessionOk(h, pczt, txInfo, signing, draft, m)
    }

    // A PCZT in progress, or one whose last signature has been released.
    ghost predicate SessionInv()
      reads this
    {
      && LegacyFresh()
      && (if isFinished then IsNew(pczt) && !m.finished else PcztOk())
    }

    ghost predicate Valid()
      reads this
    {
      && Sound() && m.change == txInfo.changeAccount
      && (m.kind == Idle ==> IdleInv())
      && (m.kind == Pczt ==> SessionInv())
      && (m.kind == Legacy ==> LegacyInv())
    }

    // A PCZT is being parsed or signed.
    ghost predicate Live()
      reads this
    {
      && Sound() && m.kind == Pczt && m.change == txInfo.changeAccount && LegacyFresh() && !isFinished && PcztOk()
    }

    ghost function Snap(): Snapshot
      reads this
    {
      Snapshot(pczt, txInfo, signing, draft, log)
    }

    // Whatever was logged, no transaction was completed.
    twostate predicate Quiet()
      reads this
    {
      old(log) <= log && m.completions == old(m).completions
    }

    constructor (swap: bool, h: SignatureDigest.Blake2b256)
      ensures Valid() && this.swap == swap && this.h == h && log == [] && m.kind == Idle && m.completions == 0
              && !isFinished
    {
      this.swap, this.h := swap, h;
      isExtraHeaderDataSet, isFinished, hasReleasedSignature := false, false, false;
      signing, txInfo, draft := NEW_SIGNING, NEW_TX_INFO, NewDraft(Global(false, 0, 0, 0));
      legacy, pczt, legacyOutput := LegacyParser(TrustedInput, Start), NEW_PCZT, NEW_LEGACY_OUTPUT;
      log, m := [], Fresh(swap, 0, None, 0);
      ms := [Fresh(swap, 0, None, 0)];
    }

    // While a PCZT session is active both legacy parsers are in their initial state; a
    // completed PCZT leaves them there, behind the finished flag.
    lemma SessionExcludesLegacy()
      requires Valid() && (pczt.IsSessionActive() || m.kind == Pczt)
      ensures legacy.state == Start && legacyOutput == NEW_LEGACY_OUTPUT && !isExtraHeaderDataSet
              && !signing.isTxParsedOnce
      ensures m.kind == Pczt && (pczt.IsSessionActive() <==> !isFinished)
    {
      if m.kind == Pczt && !isFinished {
        SessionStarted(h, pczt, txInfo, signing, draft, m);
      }
    }

    method Emit(e: Event)
      requires Logged() && Allowed(m, e) && EventHashed(h, e)
      modifies this`log, this`m, this`ms
      ensures Logged() && log == old(log) + [e] && m == Step(old(m), e)
    {
      OpenLog();
      assert (log + [e])[..|log|] == log;
      TraceSnoc(swap, log + [e], ms);
      m := Step(m, e);
      ms := ms + [m];
      log := log + [e];
    }

    // Installs the next parser and transaction state of a PCZT session with its event.
    method Commit(p: PcztParser, t: TxInfo, d: Draft, e: Event)
      requires Live() && Allowed(m, e) && e != Event.Reset && !IsSignature(e) && EventHashed(h, e)
      requires Step(m, e).change == t.changeAccount && SessionOk(h, p, t, signing, d, Step(m, e))
      modifies this`pczt, this`txInfo, this`draft, this`log, this`m, this`ms
      ensures Live() && Quiet() && log == old(log) + [e] && pczt == p && txInfo == t && draft == d
              && m == Step(old(m), e)
    {
      EpochOfStep(m, e);
      PcztStays(m, e);
      pczt, txInfo, draft := p, t, d;
      Emit(e);
    }

    // A step without an event.
    method Install(p: PcztParser, t: TxInfo, s: TxSigningState, d: Draft)
      requires Live() && SessionOk(h, p, t, s, d, m)
      requires t.changeAccount == txInfo.changeAccount && s.isTxParsedOnce == signing.isTxParsedOnce
      modifies this`pczt, this`txInfo, this`signing, this`draft
      ensures Live() && Quiet() && log == old(log) && pczt == p && txInfo == t && signing == s && draft == d
    {
      pczt, txInfo, signing, draft := p, t, s, d;
    }

    // ------------------------------------------------------------ src/tx.rs

    method Reset(mode: LegacyMode)
      requires Logged() && m.swap == swap && (hasReleasedSignature <==> m.released.Some?)
      modifies this
      ensures log == old(log) + [Event.Reset] && hasReleasedSignature == old(hasReleasedSignature) && Quiet()
      ensures legacy == LegacyParser(mode, Start) && m.kind == Idle
      ensures Logged()
      ensures !(swap && hasReleasedSignature) ==> Valid()
    {
      isExtraHeaderDataSet, isFinished := false, false;
      signing, txInfo, draft := NEW_SIGNING, NEW_TX_INFO, NewDraft(Global(false, 0, 0, 0));
      legacy, pczt, legacyOutput := LegacyParser(mode, Start), NEW_PCZT, NEW_LEGACY_OUTPUT;
      Emit(Event.Reset);
    }

    // Refuses to start over once a signature was released under an Exchange approval.
    method ResetForNewTransaction(mode: LegacyMode) returns (r: Result<(), Sw>)
      requires Sound()
      modifies this
      ensures r.Ok? <==> !(swap && old(hasReleasedSignature))
      ensures r.Ok? ==> Valid() && log == old(log) + [Event.Reset] && m.kind == Idle
                        && legacy == LegacyParser(mode, Start)
      ensures Quiet() && (r.Err? ==> Sound() && log == old(log))
    {
      if swap && hasReleasedSignature {
        return Err(BadState);
      }
      Reset(mode);
      r := Ok(());
    }

    // ------------------------------------------------------------ transparent inputs

    method InputsStart(f: Field, more: bool) returns (r: Result<(), Sw>)
      requires Live() && pczt.state == WaitInputsCount
      modifies this
      ensures Sound() && Quiet() && if r.Ok? then Live() else log == old(log)
      ensures r.Ok? <==> f.Count? && f.n <= 32 && !more
      ensures r.Ok? ==> InputsStarted(h, old(Snap()), f.n, Snap())
      ensures r.Ok? ==> pczt.inputCount == f.n && signing.totalInputs == f.n
                        && pczt.state == if f.n == 0 then InputsDone else WaitInput
    {
      if !f.Count? || f.n > MAX_INPUTS || more {
        return Err(IncorrectData);
      }
      InputsStartStep(h, pczt, txInfo, signing, draft, m, f.n);
      InputsStartDoes(h, pczt, txInfo, signing, draft, m, log, f.n);
      Install(InputsCounted(pczt, f.n), txInfo, signing.(totalInputs := f.n),
              if f.n == 0 then InputsClosed(h, draft) else draft);
      r := Ok(());
    }

    // Outpoint, sequence number and amount of an input, each into its hasher.
    method InputHead(f: Field, more: bool) returns (r: Result<(), Sw>)
      requires Live() && pczt.state == WaitInput
      modifies this
      ensures Sound() && Quiet() && if r.Ok? then Live() else log == old(log)
      ensures r.Ok? <==> f.InputHead? && |f.prevout| == 36 && f.amount <= 2_100_000_000_000_000 && !more
      ensures r.Ok? ==> InputHeadTaken(old(Snap()), f, Snap())
      ensures r.Ok? ==> log == old(log) + [InputValue(f.prevout, f.sequence, f.amount)]
      ensures r.Ok? ==> txInfo.totalAmount == old(txInfo).totalAmount + f.amount
      ensures r.Ok? ==> draft.currentInput.prevout == f.prevout && draft.currentInput.sequence == f.sequence
                        && |draft.currentInput.amount| == 8 && BytesVal(draft.currentInput.amount) == f.amount
      ensures r.Ok? ==> draft.hashers.prevouts == old(draft).hashers.prevouts + f.prevout
                        && Grown(old(draft).hashers.sequence, draft.hashers.sequence, 4, f.sequence)
                        && Grown(old(draft).hashers.amounts, draft.hashers.amounts, 8, f.amount)
                        && draft.hashers.scripts == old(draft).hashers.scripts
    {
      RoomLeft(h, pczt, txInfo, signing, draft, m);
      if |pczt.inputs| >= pczt.inputCount {
        return Err(BadState);
      }
      if !f.InputHead? || |f.prevout| != PREVOUT_SIZE || f.amount > MAX_MONEY || more {
        return Err(IncorrectData);
      }
      InputHeadStep(h, pczt, txInfo, signing, draft, m, f.prevout, f.sequence, f.amount);
      InputHeadDoes(h, pczt, txInfo, signing, draft, m, log, f);
      Commit(pczt.(state := WaitInputScript), InputCounted(txInfo, f.amount),
             HeadRead(draft, f.prevout, f.sequence, f.amount), InputValue(f.prevout, f.sequence, f.amount));
      r := Ok(());
    }

    // A part of the script of an input; the whole of it is hashed after its length.
    method InputScript(f: Field, more: bool) returns (r: Result<(), Sw>)
      requires Live() && (pczt.state == WaitInputScript || pczt.state == ProcessInputScript)
      modifies this
      ensures Sound() && Quiet() && if r.Ok? then Live() else log == old(log)
      ensures r.Ok? <==> && f.ScriptPart? && |ScriptAfter(old(Snap()), f.bytes)| <= 252
                         && (f.complete ==> f.p2pkh && !more)
      ensures r.Ok? ==> InputScriptTaken(old(Snap()), f, Snap())
      ensures r.Ok? ==> log == old(log) + [ScriptRead(f.bytes)]
                        && draft.script == (if old(pczt).state == WaitInputScript then [] else old(draft).script)
                          + f.bytes
                        && (f.complete ==> draft.currentInput.scriptPubkey == draft.script)
    {
      if !f.ScriptPart? || |ScriptGathered(draft, pczt.state.WaitInputScript?, f.bytes).script| > MAX_SCRIPT {
        return Err(IncorrectData);
      }
      if f.complete && (!f.p2pkh || more) {
        return Err(IncorrectData);
      }
      InputScriptStep(h, pczt, txInfo, signing, draft, m, f.bytes, f.complete);
      InputScriptDoes(Snap(), f);
      Commit(pczt.(state := AfterInputScript(f.complete)), txInfo,
             InputScriptPart(draft, pczt.state, f.bytes, f.complete), ScriptRead(f.bytes));
      r := Ok(());
    }

    method InputSighashType(f: Field, more: bool) returns (r: Result<(), Sw>)
      requires Live() && pczt.state == WaitInputSighashType
      modifies this
      ensures Sound() && Quiet() && if r.Ok? then Live() else log == old(log)
      ensures r.Ok? <==> f.SighashType? && f.all && more
      ensures r.Ok? ==> SighashTypeTaken(old(Snap()), Snap())
    {
      if !f.SighashType? || !f.all || !more {
        return Err(IncorrectData);
      }
      SighashStep(h, pczt, txInfo, signing, draft, m);
      Install(pczt.(state := WaitInputDerivation), txInfo, signing, draft);
      r := Ok(());
    }

    method InputDerivation(f: Field, more: bool) returns (r: Result<(), Sw>)
      requires Live() && pczt.state == WaitInputDerivation
      modifies this
      ensures Sound() && Quiet() && if r.Ok? then Live() else log == old(log)
      ensures r.Ok? <==> f.InputDerivation? && SigningPath(f.path) && !more
      ensures r.Ok? ==> InputEndTaken(h, old(Snap()), f, Snap())
      ensures r.Ok? ==> log == old(log) + [InputRecorded(f.path, old(draft).currentInput)]
                        && pczt.inputs == old(pczt).inputs + [Record(f.path, true, false)]
    {
      if !f.InputDerivation? || !CheckBip44Compliance(f.path, OnlyCoinType) || more {
        return Err(IncorrectData);
      }
      var p := InputParsed(pczt, f.path);
      InputStep(h, pczt, txInfo, signing, draft, m, f.path);
      InputEndDoes(h, pczt, txInfo, signing, draft, m, log, f);
      Commit(p, txInfo, InputAdded(h, draft, p.state == InputsDone), InputRecorded(f.path, draft.currentInput));
      r := Ok(());
    }

    // A field is refused in every state of another section.
    method InputField(f: Field, more: bool, answer: Answer) returns (r: Result<(), Sw>)
      requires Live()
      modifies this
      ensures Sound() && Quiet() && if r.Ok? then Live() else log == old(log)
      ensures r.Ok? <==> FieldAccepted(swap, Inputs, old(Snap()), f, more, answer)
      ensures r.Ok? ==> FieldTaken(h, swap, Inputs, old(Snap()), f, more, answer, Snap())
      ensures !InSection(Inputs, old(pczt).state) ==> r == Err(BadState)
    {
      match pczt.state {
        case WaitInputsCount =>
          InputsStartJudged(h, swap, Snap(), f, more, answer);
          r := InputsStart(f, more);
        case WaitInput =>
          InputHeadJudged(h, swap, Snap(), f, more, answer);
          r := InputHead(f, more);
        case WaitInputScript | ProcessInputScript =>
          InputScriptJudged(h, swap, Snap(), f, more, answer);
          r := InputScript(f, more);
        case WaitInputSighashType =>
          SighashJudged(h, swap, Snap(), f, more, answer);
          r := InputSighashType(f, more);
        case WaitInputDerivation =>
          InputEndJudged(h, swap, Snap(), f, more, answer);
          r := InputDerivation(f, more);
        case _ =>
          OutsideJudged(h, swap, Inputs, Snap(), f, more, answer);
          r := Err(BadState);
      }
    }

    // ------------------------------------------------------------ transparent outputs

    method OutputsStart(f: Field, more: bool) returns (r: Result<(), Sw>)
      requires Live() && pczt.state == InputsDone
      modifies this
      ensures Sound() && Quiet() && if r.Ok? then Live() else log == old(log)
      ensures r.Ok? <==> f.Count? && f.n <= 10 && !more
      ensures r.Ok? ==> OutputsStarted(h, old(Snap()), f.n, Snap())
      ensures r.Ok? ==> pczt.outputCount == f.n && pczt.state == if f.n == 0 then OutputsDone else WaitOutput
    {
      if !f.Count? || f.n > MAX_OUTPUTS || more {
        return Err(IncorrectData);
      }
      OutputsStartStep(h, pczt, txInfo, signing, draft, m, f.n);
      OutputsStartDoes(h, pczt, txInfo, signing, draft, m, log, f.n);
      Install(OutputsCounted(pczt, f.n), OutputsCleared(txInfo), signing,
              if f.n == 0 then OutputsClosed(h, draft) else draft);
      r := Ok(());
    }

    method OutputHead(f: Field, more: bool) returns (r: Result<(), Sw>)
      requires Live() && pczt.state == WaitOutput
      modifies this
      ensures Sound() && Quiet() && if r.Ok? then Live() else log == old(log)
      ensures r.Ok? <==> f.OutputHead? && f.amount <= 2_100_000_000_000_000 && !more
      ensures r.Ok? ==> OutputHeadTaken(old(Snap()), f, Snap())
      ensures r.Ok? ==> log == old(log) + [OutputValue(f.amount)] && pczt.state == WaitOutputScript
                        && pczt.totalOutputAmount == old(pczt).totalOutputAmount + f.amount
      ensures r.Ok? ==> |draft.currentAmount| == 8 && BytesVal(draft.currentAmount) == f.amount
                        && draft.outputsHasher == old(draft).outputsHasher + draft.currentAmount
    {
      RoomLeft(h, pczt, txInfo, signing, draft, m);
      if pczt.outputParsedCount >= pczt.outputCount {
        return Err(BadState);
      }
      if !f.OutputHead? || f.amount > MAX_MONEY || more {
        return Err(IncorrectData);
      }
      OutputHeadStep(h, pczt, txInfo, signing, draft, m, f.amount);
      OutputHeadDoes(h, pczt, txInfo, signing, draft, m, log, f);
      Commit(OutputCounted(pczt, f.amount), txInfo, AmountRead(draft, f.amount), OutputValue(f.amount));
      r := Ok(());
    }

    method OutputScript(f: Field, more: bool) returns (r: Result<(), Sw>)
      requires Live() && (pczt.state == WaitOutputScript || pczt.state == ProcessOutputScript)
      modifies this
      ensures Sound() && Quiet() && if r.Ok? then Live() else log == old(log)
      ensures r.Ok? <==> f.ScriptPart? && |ScriptAfter(old(Snap()), f.bytes)| <= 252 && (f.complete ==> !more)
      ensures r.Ok? ==> OutputScriptTaken(old(Snap()), f, Snap())
      ensures r.Ok? ==> log == old(log) + [ScriptRead(f.bytes)]
                        && draft.script == (if old(pczt).state == WaitOutputScript then [] else old(draft).script)
                          + f.bytes
    {
      if !f.ScriptPart? || |ScriptGathered(draft, pczt.state.WaitOutputScript?, f.bytes).script| > MAX_SCRIPT {
        return Err(IncorrectData);
      }
      if f.complete && more {
        return Err(IncorrectData);
      }
      OutputScriptStep(h, pczt, txInfo, signing, draft, m, f.bytes, f.complete);
      OutputScriptDoes(Snap(), f);
      Commit(pczt.(state := AfterOutputScript(f.complete)), txInfo,
             OutputScriptPart(draft, pczt.state, f.bytes, f.complete), ScriptRead(f.bytes));
      r := Ok(());
    }

    // Records the account of a change output; a second, different account is refused.
    method RecordChangeAccount(path: Path) returns (r: Result<(), Sw>)
      requires Live() && !pczt.outputsReviewed
      modifies this`pczt, this`txInfo, this`draft, this`log, this`m, this`ms
      ensures Live() && Quiet() && pczt == old(pczt) && draft == old(draft)
      ensures r.Ok? <==> && DerivationAccount(path).Some?
                         && (old(txInfo).changeAccount == None || old(txInfo).changeAccount == DerivationAccount(path))
      ensures r.Ok? ==> m == old(m).(change := DerivationAccount(path))
      ensures r.Ok? ==> txInfo == old(txInfo).(changeAccount := DerivationAccount(path))
      ensures r.Ok? ==> log == old(log) + [ChangeRecorded(DerivationAccount(path).value)]
      ensures r.Err? ==> m == old(m) && txInfo == old(txInfo) && log == old(log)
    {
      var account := DerivationAccount(path);
      if account.None? {
        return Err(IncorrectData);
      }
      if txInfo.changeAccount.Some? && txInfo.changeAccount != account {
        return Err(IncorrectData);
      }
      AccountStep(h, pczt, txInfo, signing, draft, m, account.value);
      Commit(pczt, txInfo.(changeAccount := account), draft, ChangeRecorded(account.value));
      r := Ok(());
    }

    // The outcome of the displayability check. A script can only be change when this
    // output declared its own change path.
    method OutputDerivation(f: Field, more: bool) returns (r: Result<(), Sw>)
      requires Live() && pczt.state == WaitOutputDerivation
      modifies this
      ensures Sound() && Quiet() && (r.Ok? ==> Live())
      ensures r.Err? ==> log == old(log) || (f.OutputDerivation? && log == old(log) + AccountEvents(f.changePath))
      ensures r.Ok? <==> OutputEndAccepted(old(txInfo), f) && !more
      ensures r.Ok? ==> OutputEndTaken(h, old(Snap()), f, Snap())
      ensures r.Ok? ==> log == old(log) + AccountEvents(f.changePath)
                               + [OutputRecorded(if f.kind == ChangeScript then f.changePath else None,
                                                 TransparentOutput(old(draft).currentAmount, old(draft).script))]
    {
      if !f.OutputDerivation? || more {
        return Err(IncorrectData);
      }
      ghost var x := Snap();
      BeforeReview(h, pczt, txInfo, signing, draft, m);
      r := DeclareChange(f.changePath, f.keyMatches);
      if r.Err? {
        return;
      }
      if f.kind == UnsupportedScript || (f.kind == ChangeScript && f.changePath.None?) {
        return Err(IncorrectData);
      }
      if OutputEndAccepted(x.t, f) {
        OutputEndDoes(h, x, f, txInfo, m);
      }
      r := FinishOutput(if f.kind == ChangeScript then f.changePath else None);
    }

    // The change path an output may declare, with the key derived at it.
    method DeclareChange(changePath: Option<Path>, keyMatches: bool) returns (r: Result<(), Sw>)
      requires Live() && !pczt.outputsReviewed
      modifies this`pczt, this`txInfo, this`draft, this`log, this`m, this`ms
      ensures Live() && Quiet() && pczt == old(pczt) && draft == old(draft)
      ensures r.Err? ==> log == old(log)
      ensures r.Ok? <==> changePath.Some? ==>
                ChangePath(changePath.value) && keyMatches && NamesAccount(old(txInfo).changeAccount, changePath.value)
      ensures r.Ok? && changePath.Some? ==>
                txInfo == old(txInfo).(changeAccount := DerivationAccount(changePath.value))
      ensures r.Ok? && changePath.None? ==> txInfo == old(txInfo)
      ensures r.Ok? ==> log == old(log) + AccountEvents(changePath)
    {
      if changePath.Some? {
        if !CheckBip44Compliance(changePath.value, Full(true)) || !keyMatches {
          return Err(IncorrectData);
        }
        r := RecordChangeAccount(changePath.value);
        return;
      }
      r := Ok(());
    }

    method FinishOutput(hidden: Option<Path>) returns (r: Result<(), Sw>)
      requires Live() && pczt.state == WaitOutputDerivation
      requires hidden.Some? ==> ChangePath(hidden.value) && txInfo.changeAccount == DerivationAccount(hidden.value)
      modifies this
      ensures Sound() && Quiet() && if r.Ok? then Live() else log == old(log)
      ensures r.Ok? <==> !(hidden.Some? && old(txInfo).isChangeFound)
      ensures r.Ok? ==> log == old(log) + [OutputRecorded(hidden, CurrentOutput(old(draft)))]
      ensures r.Ok? ==> pczt == OutputParsed(old(pczt)) && txInfo == OutputAdded(old(txInfo), hidden.Some?)
                        && signing == old(signing) && draft == OutputJoined(h, old(draft), pczt.state == OutputsDone)
    {
      if hidden.Some? && txInfo.isChangeFound {
        return Err(IncorrectData);
      }
      var txout := CurrentOutput(draft);
      var p := OutputParsed(pczt);
      OutputStep(h, pczt, txInfo, signing, draft, m, hidden);
      Commit(p, OutputAdded(txInfo, hidden.Some?), OutputJoined(h, draft, p.state == OutputsDone),
             OutputRecorded(hidden, txout));
      r := Ok(());
    }

    method OutputField(f: Field, more: bool, answer: Answer) returns (r: Result<(), Sw>)
      requires Live()
      modifies this
      ensures Sound() && Quiet() && (r.Ok? ==> Live())
      ensures r.Err? ==> log == old(log) || (f.OutputDerivation? && log == old(log) + AccountEvents(f.changePath))
      ensures r.Ok? <==> FieldAccepted(swap, Outputs, old(Snap()), f, more, answer)
      ensures r.Ok? ==> FieldTaken(h, swap, Outputs, old(Snap()), f, more, answer, Snap())
      ensures !InSection(Outputs, old(pczt).state) ==> r == Err(BadState)
    {
      match pczt.state {
        case InputsDone =>
          OutputsStartJudged(h, swap, Snap(), f, more, answer);
          r := OutputsStart(f, more);
        case WaitOutput =>
          OutputHeadJudged(h, swap, Snap(), f, more, answer);
          r := OutputHead(f, more);
        case WaitOutputScript | ProcessOutputScript =>
          OutputScriptJudged(h, swap, Snap(), f, more, answer);
          r := OutputScript(f, more);
        case WaitOutputDerivation =>
          OutputEndJudged(h, swap, Snap(), f, more, answer);
          r := OutputDerivation(f, more);
        case _ =>
          OutsideJudged(h, swap, Outputs, Snap(), f, more, answer);
          r := Err(BadState);
      }
    }

    // ------------------------------------------------------------ shielded bundles

    // The review: fee, self-transfer reveal, and the approval of the user or of the
    // check against the Exchange request.
    method ReviewOutputs(pool: Pool, balance: int, answer: Answer) returns (r: Result<(), Sw>)
      requires Live() && Closable(pczt, txInfo, pool) && !DefersReview(txInfo, pool)
               && balance == Net(pczt.Bundle(pool))
      modifies this
      ensures Sound() && Quiet() && if r.Ok? then Live() else log == old(log)
      ensures var fee := FeeWith(old(Snap()), pool, balance);
              && (r.Ok? <==> && old(txInfo).outputs != [] && 0 <= fee <= 0xFFFF_FFFF_FFFF_FFFF
                             && (if swap then answer.exchange else answer.user))
              && (r == Err(Deny) <==> && old(txInfo).outputs != [] && 0 <= fee <= 0xFFFF_FFFF_FFFF_FFFF
                                      && !swap && !answer.user)
      ensures r.Ok? ==> CloseTaken(swap, old(Snap()), pool, balance, Snap()) && draft == old(draft)
    {
      if txInfo.outputs == [] {
        return Err(IncorrectData);
      }
      var closed := BundleClosed(pczt, pool, balance);
      var fees := Fees(closed, txInfo);
      FeeDoes(Snap(), pool, balance);
      if fees < 0 || fees > U64_MAX {
        return Err(IncorrectData);
      }
      var selfTransfer := CountVisible(txInfo.outputs) == 0 && !swap;
      var shown := if selfTransfer then |txInfo.outputs| else CountVisible(txInfo.outputs);
      if swap {
        if !answer.exchange {
          return Err(IncorrectData);
        }
      } else if !answer.user {
        isFinished := true;
        return Err(Deny);
      }
      SettledIs(swap, txInfo.outputs);
      ReviewDoes(swap, Snap(), pool, balance);
      Approve(pool, balance, answer, shown, if selfTransfer then Revealed(txInfo.outputs) else txInfo.outputs);
      r := Ok(());
    }

    // Approved by whoever had to: the outputs count as reviewed.
    method Approve(pool: Pool, balance: int, answer: Answer, shown: nat, outputs: seq<TxOutput>)
      requires Live() && Closable(pczt, txInfo, pool) && !DefersReview(txInfo, pool)
               && balance == Net(pczt.Bundle(pool))
      requires Grants(swap, Given(swap, answer))
      requires Fees(BundleClosed(pczt, pool, balance), txInfo) >= 0 && txInfo.outputs != []
      requires var visible := CountVisible(txInfo.outputs);
               !swap ==> shown == if visible == 0 then |txInfo.outputs| else visible
      modifies this
      ensures Live() && Quiet() && signing == old(signing) && draft == old(draft)
      ensures pczt == Approved(BundleClosed(old(pczt), pool, balance)) && txInfo == old(txInfo).(outputs := outputs)
      ensures log == old(log) + [Reviewed(Given(swap, answer),
                                          Fees(BundleClosed(old(pczt), pool, balance), old(txInfo)), shown,
                                          Content(old(draft).tx, old(draft).inputs, old(draft).outputs))]
    {
      var p := Approved(BundleClosed(pczt, pool, balance));
      var t := txInfo.(outputs := outputs);
      var e := Reviewed(Given(swap, answer), Fees(BundleClosed(pczt, pool, balance), txInfo), shown, draft.Covered());
      ReviewStep(h, pczt, txInfo, signing, draft, m, pool, balance, outputs, e);
      OutputsSeen(h, pczt, txInfo, signing, draft, m);
      Commit(p, t, draft, e);
    }

    // finalize_orchard_actions and finalize_ironwood_actions: a V6 transaction defers its
    // review to the Ironwood bundle.
    method FinalizeActions(pool: Pool, balance: int, answer: Answer) returns (r: Result<(), Sw>)
      requires Live() && Closable(pczt, txInfo, pool) && balance == Net(pczt.Bundle(pool))
      modifies this
      ensures Sound() && Quiet() && if r.Ok? then Live() else log == old(log)
      ensures r.Ok? <==> CloseAccepted(swap, old(Snap()), pool, balance, answer)
      ensures r.Ok? ==> CloseTaken(swap, old(Snap()), pool, balance, Snap()) && draft == old(draft)
      ensures r.Ok? ==> pczt.state == Shielded(pool, ActionsDone) && pczt.Bundle(pool).valueBalance == balance
                        && pczt.outputsReviewed == !(pool == Orchard && old(txInfo).isV6)
    {
      if DefersReview(txInfo, pool) {
        DeferStep(h, pczt, txInfo, signing, draft, m, pool, balance);
        DeferDoes(swap, Snap(), pool, balance);
        Install(BundleClosed(pczt, pool, balance), txInfo, signing, draft);
        return Ok(());
      }
      r := ReviewOutputs(pool, balance, answer);
    }

    // The first field of a bundle: an empty one closes at once.
    method ActionsStart(pool: Pool, f: Field, more: bool, answer: Answer) returns (r: Result<(), Sw>)
      requires Live() && StartsBundle(pczt, pool)
      modifies this
      ensures Sound() && Quiet() && if r.Ok? then Live() else log == old(log)
      ensures r.Ok? <==> && !more && f.Count? && f.n <= 32 && (pool == Ironwood ==> old(txInfo).isV6)
                         && (f.n == 0 ==> CloseAccepted(swap, old(Snap()), pool, 0, answer))
      ensures r.Ok? && f.n > 0 ==> BundleStartTaken(old(Snap()), pool, f.n, Snap())
      ensures r.Ok? && f.n > 0 ==> pczt.Bundle(pool).present && pczt.Bundle(pool).actionCount == f.n
                                   && pczt.state == Shielded(pool, WaitAction)
      ensures r.Ok? && f.n == 0 ==> CloseTaken(swap, old(Snap()), pool, 0, Snap()) && draft == old(draft)
    {
      if pool == Ironwood && !txInfo.isV6 {
        return Err(IncorrectData);
      }
      if !f.Count? || f.n > MAX_ACTIONS || more {
        return Err(IncorrectData);
      }
      if f.n == 0 {
        EmptyCloses(h, pczt, txInfo, signing, draft, m, pool);
        r := FinalizeActions(pool, 0, answer);
        return;
      }
      BundleStartStep(h, pczt, txInfo, signing, draft, m, pool, f.n);
      BundleStartDoes(h, pczt, txInfo, signing, draft, m, log, pool, f.n);
      Install(BundleStarted(pczt, pool, f.n), txInfo, signing, BundleFlagged(draft, pool));
      r := Ok(());
    }

    // The head of an action fixes its spend value.
    method ActionHead(pool: Pool, f: Field, more: bool) returns (r: Result<(), Sw>)
      requires Live() && pczt.state == Shielded(pool, WaitAction)
      modifies this
      ensures Sound() && Quiet() && if r.Ok? then Live() else log == old(log)
      ensures r.Ok? <==> f.ActionHead? && f.spend <= 2_100_000_000_000_000 && !more
      ensures r.Ok? ==> HeadTaken(old(Snap()), pool, f, Snap())
      ensures r.Ok? ==> pczt.currentSpend == f.spend && log == old(log) + [ActionHeadRead(pool, f.spend)]
    {
      if !f.ActionHead? || f.spend > MAX_MONEY || more {
        return Err(IncorrectData);
      }
      HeadReadStep(h, pczt, txInfo, signing, draft, m, pool, f.spend);
      Commit(pczt.(currentSpend := f.spend, state := Shielded(pool, WaitZip32Derivation)), txInfo, draft,
             ActionHeadRead(pool, f.spend));
      r := Ok(());
    }

    // orchard_spending_key: one derivation path for the whole session.
    method SpendingKey(path: Path, derives: bool) returns (r: Result<(), Sw>)
      requires Live() && pczt.state.Shielded? && !MidAction(pczt.state)
      requires AfterHead(pczt.state) || m.shieldedPath == Some(path)
      modifies this`pczt
      ensures Live() && log == old(log)
      ensures r.Ok? ==> pczt == old(pczt).(keyPath := Some(path))
      ensures r.Err? ==> pczt == old(pczt)
      ensures r.Ok? <==> old(pczt).keyPath == Some(path) || (old(pczt).keyPath == None && derives)
    {
      if pczt.keyPath.Some? {
        if pczt.keyPath.value != path {
          return Err(BadState);
        }
      } else {
        if !derives {
          return Err(TechnicalProblem);
        }
        KeyStep(h, pczt, txInfo, signing, draft, m, path);
        pczt := pczt.(keyPath := Some(path));
      }
      r := Ok(());
    }

    // The derivation of an action: the session's key, and for a real spend its rk.
    method Zip32Derivation(pool: Pool, f: Field, more: bool) returns (r: Result<(), Sw>)
      requires Live() && pczt.state == Shielded(pool, WaitZip32Derivation)
      modifies this
      ensures Sound() && Quiet() && if r.Ok? then Live() else log == old(log)
      ensures r.Ok? <==> && f.Zip32Derivation? && SigningPath(f.path) && !more
                         && (old(pczt).keyPath == Some(f.path) || (old(pczt).keyPath == None && f.derived))
                         && (old(pczt).currentSpend != 0 ==> f.rkMatches)
      ensures r.Ok? ==> DerivationTaken(old(Snap()), pool, f, Snap())
      ensures r.Ok? ==> pczt.currentPath == Some(f.path) && pczt.keyPath == Some(f.path)
                        && pczt.currentSpend == old(pczt).currentSpend
    {
      if !f.Zip32Derivation? || !CheckBip44Compliance(f.path, OnlyCoinType) || more {
        return Err(IncorrectData);
      }
      var key := SpendingKey(f.path, f.derived);
      if key.Err? {
        return Err(key.error);
      }
      if pczt.currentSpend != 0 && !f.rkMatches {
        return Err(IncorrectData);
      }
      DerivedStep(h, pczt, txInfo, signing, draft, m, pool, f.path);
      Install(ActionDerived(pczt, pool, f.path), txInfo, signing, draft);
      r := Ok(());
    }

    // finish_current_orchard_action and its Ironwood twin.
    method FinishAction(pool: Pool, f: Field, more: bool) returns (r: Result<(), Sw>)
      requires Live() && pczt.state == Shielded(pool, WaitOutputMetadata)
      modifies this
      ensures Sound() && Quiet() && (r.Ok? ==> Live())
      ensures r.Err? ==> || log == old(log)
                         || (f.OutputMetadata? && f.recovery.Internal?
                             && log == old(log) + AccountEvents(old(pczt).currentPath))
      ensures r.Ok? <==> ActionEndAccepted(old(Snap()), pool, f) && !more
      ensures r.Ok? ==> ActionEndTaken(old(Snap()), pool, f, Snap())
    {
      if !f.OutputMetadata? || f.output > MAX_MONEY || !f.valid || more {
        return Err(IncorrectData);
      }
      ghost var x := Snap();
      BeforeReview(h, pczt, txInfo, signing, draft, m);
      MidActionStep(h, pczt, txInfo, signing, draft, m, pool, WaitOutputMetadata);
      var path := pczt.currentPath.value;
      r := RecoverOutput(path, f.output, f.recovery);
      if r.Err? {
        return;
      }
      if ActionEndAccepted(x, pool, f) {
        ActionEndDoes(x, pool, f, txInfo);
      }
      r := RecordAction(pool, path, f.output, KindOf(f.recovery));
    }

    // What becomes of the output, by the key that recovered it.
    method RecoverOutput(path: Path, output: nat, recovery: Recovery) returns (r: Result<(), Sw>)
      requires Live() && !pczt.outputsReviewed
      modifies this`pczt, this`txInfo, this`draft, this`log, this`m, this`ms
      ensures Live() && Quiet() && pczt == old(pczt) && draft == old(draft)
      ensures r.Err? ==> log == old(log)
      ensures r.Ok? <==> match recovery
                         case Internal => !old(txInfo).isChangeFound && NamesAccount(old(txInfo).changeAccount, path)
                         case External(withinBudget) => withinBudget
                         case ZeroDummy => output == 0
                         case Unrecoverable => false
      ensures r.Ok? ==> txInfo == if recovery.Internal? then old(txInfo).(changeAccount := DerivationAccount(path))
                                  else old(txInfo)
      ensures r.Ok? && recovery.Internal? ==> m.change.Some? && m.change == DerivationAccount(path)
      ensures r.Ok? ==> log == old(log) + AccountEvents(if recovery.Internal? then Some(path) else None)
    {
      match recovery {
        case Internal =>
          if txInfo.isChangeFound {
            return Err(IncorrectData);
          }
          r := RecordChangeAccount(path);
          return;
        case External(withinBudget) =>
          if !withinBudget {
            return Err(TechnicalProblem);
          }
        case ZeroDummy =>
          if output != 0 {
            return Err(IncorrectData);
          }
        case Unrecoverable =>
          return Err(IncorrectData);
      }
      r := Ok(());
    }

    method RecordAction(pool: Pool, path: Path, output: nat, kind: ShieldedOutput) returns (r: Result<(), Sw>)
      requires Live() && pczt.state == Shielded(pool, WaitOutputMetadata) && pczt.currentPath == Some(path)
      requires kind == Dummy ==> output == 0
      requires kind == Hidden ==> !txInfo.isChangeFound && m.change.Some? && m.change == DerivationAccount(path)
      modifies this
      ensures Sound() && Quiet() && if r.Ok? then Live() else log == old(log)
      ensures r.Ok? <==> SumsFit(old(pczt), pool, output)
      ensures r.Ok? ==> pczt.Bundle(pool).records
                        == old(pczt).Bundle(pool).records + [Record(path, old(pczt).currentSpend != 0, false)]
      ensures r.Ok? ==> log == old(log) + [ActionRecorded(pool, path, old(pczt).currentSpend, output, kind)]
      ensures r.Ok? ==>
                && pczt == ActionParsed(old(pczt), pool,
                                        RecordAdded(old(pczt).Bundle(pool), path, old(pczt).currentSpend, output))
                && txInfo == OutputRecovered(old(txInfo), kind) && signing == old(signing) && draft == old(draft)
    {
      var b, spend := pczt.Bundle(pool), pczt.currentSpend;
      if b.sums.spend + spend > U64_MAX || b.sums.output + output > U64_MAX {
        return Err(IncorrectData);
      }
      ActionStep(h, pczt, txInfo, signing, draft, m, pool, path, output, kind);
      Commit(ActionParsed(pczt, pool, RecordAdded(b, path, spend, output)), OutputRecovered(txInfo, kind), draft,
             ActionRecorded(pool, path, spend, output, kind));
      r := Ok(());
    }

    // The trailer's value balance must be the spends less the outputs.
    method ParseTrailer(pool: Pool, f: Field, more: bool, answer: Answer) returns (r: Result<(), Sw>)
      requires Live() && pczt.state == Shielded(pool, WaitTrailer)
      modifies this
      ensures Sound() && Quiet() && if r.Ok? then Live() else log == old(log)
      ensures r.Ok? <==> && f.Trailer? && f.magnitude <= 0x7FFF_FFFF_FFFF_FFFF && f.sign <= 1 && !more
                         && old(pczt).Bundle(pool).sums.spend - old(pczt).Bundle(pool).sums.output
                            == (if f.sign == 0 then f.magnitude else 0 - f.magnitude)
                         && CloseAccepted(swap, old(Snap()), pool, Signed64(f), answer)
      ensures r.Ok? ==> TrailerTaken(swap, old(Snap()), pool, f, Snap())
    {
      if !f.Trailer? || f.magnitude > 0x7FFF_FFFF_FFFF_FFFF || f.sign > 1 || more {
        return Err(IncorrectData);
      }
      var balance := if f.sign == 0 then f.magnitude else 0 - f.magnitude;
      if Net(pczt.Bundle(pool)) != balance {
        return Err(IncorrectData);
      }
      r := CloseBundle(pool, balance, f.digest, answer);
    }

    // The digest of a bundle is in, and the bundle closes.
    method CloseBundle(pool: Pool, balance: int, digest: SignatureDigest.Digest, answer: Answer)
      returns (r: Result<(), Sw>)
      requires Live() && pczt.state == Shielded(pool, WaitTrailer) && balance == Net(pczt.Bundle(pool))
      modifies this
      ensures Sound() && Quiet() && if r.Ok? then Live() else log == old(log)
      ensures r.Ok? <==> CloseAccepted(swap, old(Snap()), pool, balance, answer)
      ensures r.Ok? ==> CloseTaken(swap, old(Snap()), pool, balance, Snap())
      ensures r.Ok? ==> draft == old(draft).(tx := if pool == Orchard then old(draft).tx.(orchardDigest := digest)
                                                   else old(draft).tx.(ironwoodDigest := digest))
    {
      CloseIgnoresDigests(swap, Snap(), BundleDigested(draft, pool, digest), pool, balance, answer);
      TrailerStep(h, pczt, txInfo, signing, draft, m, pool, digest);
      Install(pczt, txInfo, signing, BundleDigested(draft, pool, digest));
      r := FinalizeActions(pool, balance, answer);
    }

    // The commitments of an action's output are only hashed here.
    method ActionOutput(pool: Pool, f: Field, more: bool) returns (r: Result<(), Sw>)
      requires Live() && pczt.state == Shielded(pool, WaitActionOutput)
      modifies this
      ensures Sound() && Quiet() && if r.Ok? then Live() else log == old(log)
      ensures r.Ok? <==> f.ActionOutput? && !more
      ensures r.Ok? ==> StepTaken(old(Snap()), pool, WaitEncCiphertextLen, Snap())
    {
      if !f.ActionOutput? || more {
        return Err(IncorrectData);
      }
      MidActionStep(h, pczt, txInfo, signing, draft, m, pool, WaitEncCiphertextLen);
      Install(pczt.(state := Shielded(pool, WaitEncCiphertextLen)), txInfo, signing, draft);
      r := Ok(());
    }

    method ActionField(pool: Pool, f: Field, more: bool, answer: Answer) returns (r: Result<(), Sw>)
      requires Live()
      modifies this
      ensures Sound() && Quiet() && (r.Ok? ==> Live())
      ensures r.Err? ==> || log == old(log)
                         || (f.OutputMetadata? && f.recovery.Internal?
                             && log == old(log) + AccountEvents(old(pczt).currentPath))
      ensures r.Ok? <==> FieldAccepted(swap, Actions(pool), old(Snap()), f, more, answer)
      ensures r.Ok? ==> FieldTaken(h, swap, Actions(pool), old(Snap()), f, more, answer, Snap())
      ensures !InSection(Actions(pool), old(pczt).state) ==> r == Err(BadState)
    {
      if StartsBundle(pczt, pool) {
        StartJudged(h, swap, pool, Snap(), f, more, answer);
        r := ActionsStart(pool, f, more, answer);
        return;
      }
      if !pczt.state.Shielded? || pczt.state.pool != pool {
        OutsideJudged(h, swap, Actions(pool), Snap(), f, more, answer);
        return Err(BadState);
      }
      r := BundleField(pool, f, more, answer);
    }

    // A field of a bundle that has started.
    method BundleField(pool: Pool, f: Field, more: bool, answer: Answer) returns (r: Result<(), Sw>)
      requires Live() && pczt.state.Shielded? && pczt.state.pool == pool && !StartsBundle(pczt, pool)
      modifies this
      ensures Sound() && Quiet() && (r.Ok? ==> Live())
      ensures r.Err? ==> || log == old(log)
                         || (f.OutputMetadata? && f.recovery.Internal?
                             && log == old(log) + AccountEvents(old(pczt).currentPath))
      ensures r.Ok? <==> FieldAccepted(swap, Actions(pool), old(Snap()), f, more, answer)
      ensures r.Ok? ==> FieldTaken(h, swap, Actions(pool), old(Snap()), f, more, answer, Snap())
      ensures old(pczt).state.step == ActionsDone ==> r == Err(BadState)
    {
      if pczt.state.step == ActionsDone {
        OutsideJudged(h, swap, Actions(pool), Snap(), f, more, answer);
        r := Err(BadState);
      } else if pczt.state.step == WaitOutputMetadata || pczt.state.step == WaitTrailer {
        r := EndField(pool, f, more, answer);
      } else {
        r := ActionStartField(pool, f, more, answer);
      }
    }

    // The end of an action, or of its bundle.
    method EndField(pool: Pool, f: Field, more: bool, answer: Answer) returns (r: Result<(), Sw>)
      requires Live() && pczt.state.Shielded? && pczt.state.pool == pool && !StartsBundle(pczt, pool)
      requires pczt.state.step == WaitOutputMetadata || pczt.state.step == WaitTrailer
      modifies this
      ensures Sound() && Quiet() && (r.Ok? ==> Live())
      ensures r.Err? ==> || log == old(log)
                         || (f.OutputMetadata? && f.recovery.Internal?
                             && log == old(log) + AccountEvents(old(pczt).currentPath))
      ensures r.Ok? <==> FieldAccepted(swap, Actions(pool), old(Snap()), f, more, answer)
      ensures r.Ok? ==> FieldTaken(h, swap, Actions(pool), old(Snap()), f, more, answer, Snap())
    {
      if pczt.state.step == WaitTrailer {
        TrailerJudged(h, swap, pool, Snap(), f, more, answer);
        r := ParseTrailer(pool, f, more, answer);
      } else {
        MidActionStep(h, pczt, txInfo, signing, draft, m, pool, WaitOutputMetadata);
        ActionEndJudged(h, swap, pool, Snap(), f, more, answer);
        r := FinishAction(pool, f, more);
      }
    }

    // Everything before the end of an action.
    method ActionStartField(pool: Pool, f: Field, more: bool, answer: Answer) returns (r: Result<(), Sw>)
      requires Live() && pczt.state.Shielded? && pczt.state.pool == pool && !StartsBundle(pczt, pool)
      requires pczt.state.step != WaitOutputMetadata && pczt.state.step != WaitTrailer && pczt.state.step != ActionsDone
      modifies this
      ensures Sound() && Quiet() && (r.Ok? ==> Live())
      ensures r.Err? ==> || log == old(log)
                         || (f.OutputMetadata? && f.recovery.Internal?
                             && log == old(log) + AccountEvents(old(pczt).currentPath))
      ensures r.Ok? <==> FieldAccepted(swap, Actions(pool), old(Snap()), f, more, answer)
      ensures r.Ok? ==> FieldTaken(h, swap, Actions(pool), old(Snap()), f, more, answer, Snap())
    {
      if pczt.state.step == WaitAction {
        HeadJudged(h, swap, pool, Snap(), f, more, answer);
        r := ActionHead(pool, f, more);
      } else if pczt.state.step == WaitZip32Derivation {
        DerivationJudged(h, swap, pool, Snap(), f, more, answer);
        r := Zip32Derivation(pool, f, more);
      } else if pczt.state.step == WaitActionOutput {
        OutputPartJudged(h, swap, pool, Snap(), f, more, answer);
        r := ActionOutput(pool, f, more);
      } else {
        CiphertextJudged(h, swap, pool, Snap(), f, more, answer);
        if pczt.state.step == WaitEncCiphertextLen || pczt.state.step == ProcessEncCiphertext {
          r := CiphertextPart(pool, f, more, ProcessEncCiphertext, WaitOutCiphertextLen);
        } else {
          r := CiphertextPart(pool, f, more, ProcessOutCiphertext, WaitOutputMetadata);
        }
      }
    }

    method CiphertextPart(pool: Pool, f: Field, more: bool, partial: ShieldedStep, done: ShieldedStep)
      returns (r: Result<(), Sw>)
      requires Live() && MidAction(pczt.state) && pczt.state.pool == pool
      requires MidAction(Shielded(pool, partial)) && MidAction(Shielded(pool, done))
      modifies this
      ensures Sound() && Quiet() && if r.Ok? then Live() else log == old(log)
      ensures r.Ok? <==> f.Ciphertext? && (f.complete ==> !more)
      ensures r.Ok? ==> StepTaken(old(Snap()), pool, if f.complete then done else partial, Snap())
    {
      if !f.Ciphertext? || (f.complete && more) {
        return Err(IncorrectData);
      }
      var next := if f.complete then done else partial;
      MidActionStep(h, pczt, txInfo, signing, draft, m, pool, next);
      Install(pczt.(state := Shielded(pool, next)), txInfo, signing, draft);
      r := Ok(());
    }

    // ------------------------------------------------------------ PCZT handlers

    method ResetPczt()
      modifies this`pczt, this`draft
      ensures IsNew(pczt)
    {
      pczt, draft := NEW_PCZT, ParserCleared(draft);
    }

    // A payload field for the parser of one section.
    method Dispatch(section: Section, f: Field, more: bool, answer: Answer) returns (r: Result<(), Sw>)
      requires Live()
      modifies this
      ensures Sound() && Quiet() && if r.Ok? then Live() else FailureLogged(section, old(Snap()), f, log)
      ensures r.Ok? <==> FieldAccepted(swap, section, old(Snap()), f, more, answer)
      ensures r.Ok? ==> FieldTaken(h, swap, section, old(Snap()), f, more, answer, Snap())
      ensures !InSection(section, old(pczt).state) ==> r == Err(BadState)
    {
      RefusedLogs(section, Snap(), f);
      match section {
        case Inputs => r := InputField(f, more, answer);
        case Outputs => r := OutputField(f, more, answer);
        case Actions(pool) => r := ActionField(pool, f, more, answer);
      }
    }

    // One field of a packet.
    method TakeField(section: Section, f: Field, more: bool, answer: Answer) returns (r: Result<(), Sw>)
      requires Valid()
      modifies this
      ensures Sound() && Quiet() && (r.Ok? ==> Valid() && isFinished == old(isFinished))
      ensures r.Ok? ==> FieldTaken(h, swap, section, old(Snap()), f, more, answer, Snap())
      ensures r.Err? ==>
                old(pczt).state == WaitHeaderAndGlobal || !FieldAccepted(swap, section, old(Snap()), f, more, answer)
      ensures r.Err? ==> FailureLogged(section, old(Snap()), f, log)
    {
      if pczt.state == WaitHeaderAndGlobal {
        ResetPczt();
        return Err(BadState);
      }
      assert Live();
      r := Dispatch(section, f, more, answer);
      if r.Err? {
        ResetPczt();
      }
    }

    // A packet is being parsed: `chain` holds the context before each field, and the current one.
    ghost predicate Parsing(section: Section, payload: seq<Field>, answer: Answer, chain: seq<Snapshot>, finished: bool)
      reads this
    {
      forall n {:trigger ParsedTo(n, section, payload, answer, chain, finished)} :: n == |chain| ==>
        ParsedTo(n, section, payload, answer, chain, finished)
    }

    ghost predicate ParsedTo(n: nat, section: Section, payload: seq<Field>, answer: Answer, chain: seq<Snapshot>,
                             finished: bool)
      reads this
    {
      && Valid() && isFinished == finished && 0 < n == |chain| && chain[n - 1] == Snap()
      && Chain(h, swap, section, payload, answer, chain)
    }

    lemma ParsingStarts(section: Section, payload: seq<Field>, answer: Answer)
      requires Valid()
      ensures Parsing(section, payload, answer, [Snap()], isFinished)
    {
      ChainStarts(h, swap, section, payload, answer, Snap());
    }

    // Field i of a packet.
    method ParseField(section: Section, payload: seq<Field>, i: nat, answer: Answer, ghost chain: seq<Snapshot>)
      returns (r: Result<(), Sw>)
      requires i < |payload| && i + 1 == |chain| && Parsing(section, payload, answer, chain, isFinished)
      modifies this
      ensures Quiet()
      ensures r.Ok? ==> Parsing(section, payload, answer, chain + [Snap()], isFinished) && isFinished == old(isFinished)
      ensures r.Err? ==> && Sound() && Chain(h, swap, section, payload, answer, chain)
                         && Refused(swap, section, payload, answer, chain)
                         && FailureLogged(section, chain[i], payload[i], log)
    {
      assert ParsedTo(i + 1, section, payload, answer, chain, isFinished);
      r := TakeField(section, payload[i], i + 1 < |payload|, answer);
      if r.Ok? {
        ChainGrows(h, swap, section, payload, answer, chain, Snap());
      }
    }

    // The loop of each section parser over its packet. A parser that has not seen a
    // header refuses any data, and any error resets it. `chain` holds the context before
    // each field that was looked at, and after the last one taken.
    method ParseSection(section: Section, payload: seq<Field>, answer: Answer)
      returns (r: Result<(), Sw>, ghost chain: seq<Snapshot>)
      requires Valid()
      modifies this
      ensures Sound() && Quiet() && (r.Ok? ==> Valid())
      ensures r.Ok? ==> isFinished == old(isFinished)
      ensures Chain(h, swap, section, payload, answer, chain) && chain[0] == old(Snap())
      ensures r.Ok? ==> |chain| == |payload| + 1 && chain[|payload|] == Snap()
      ensures r.Err? ==> && |chain| <= |payload| && Refused(swap, section, payload, answer, chain)
                         && FailureLogged(section, chain[|chain| - 1], payload[|chain| - 1], log)
    {
      chain := [Snap()];
      ParsingStarts(section, payload, answer);
      for i := 0 to |payload|
        invariant Quiet() && isFinished == old(isFinished)
        invariant |chain| == i + 1 && chain[0] == old(Snap())
        invariant Parsing(section, payload, answer, chain, isFinished)
      {
        r := ParseField(section, payload, i, answer, chain);
        if r.Err? {
          return;
        }
        chain := chain + [Snap()];
      }
      assert ParsedTo(|payload| + 1, section, payload, answer, chain, isFinished);
      r := Ok(());
    }

    method HandlePcztHeader(header: Option<Global>) returns (r: Result<(), Sw>)
      requires Valid()
      modifies this
      ensures Sound() && Quiet() && (r.Ok? ==> Valid())
      ensures r.Ok? <==> header.Some? && !(swap && old(hasReleasedSignature))
      ensures r.Ok? ==> log == old(log) + [Event.Reset, PcztStarted(header.value)] && m.kind == Pczt && !isFinished
      ensures r.Ok? ==> SessionStartsWith(header.value)
      ensures r.Err? ==> log == old(log) || log == old(log) + [Event.Reset]
    {
      r := ResetForNewTransaction(Signature);
      if r.Err? {
        return;
      }
      if header.None? {
        ResetPczt();
        return Err(IncorrectData);
      }
      StartSession(header.value);
    }

    // A session that has read nothing but this header.
    ghost predicate SessionStartsWith(g: Global)
      reads this
    {
      && pczt.state == WaitInputsCount && txInfo.isV6 == g.isV6 && txInfo.changeAccount == None && txInfo.outputs == []
      && !txInfo.isChangeFound && txInfo.totalAmount == 0
      && draft.tx.isV6 == g.isV6 && draft.tx.txVersion == SignatureDigest.V5
      && draft.tx.branchId == g.branchId && draft.tx.branchIdRaw == g.branchId
      && draft.tx.locktime == g.locktime && draft.tx.expiryHeight == g.expiryHeight
      && AllZero(draft.tx.orchardDigest) && !draft.tx.hasIronwoodBundle && draft.inputs == [] && draft.outputs == []
    }

    // Before anything is logged, a header may start a session.
    lemma MayStart(g: Global)
      requires Valid() && m.kind == Idle
      ensures var n := Step(m, PcztStarted(g));
              && Allowed(m, PcztStarted(g)) && n.kind == Pczt && n.change == m.change && n.completions == m.completions
              && n.epoch == m.epoch && n.released == m.released && n.swap == m.swap
              && SessionOk(h, pczt.(state := WaitInputsCount), txInfo.(isV6 := g.isV6), signing, NewDraft(g), n)
    {
      NothingLogged();
      FreshSession(pczt.(state := WaitInputsCount), txInfo.(isV6 := g.isV6), signing, m, g);
      NewDraftInv(h, pczt.(state := WaitInputsCount), g, Step(m, PcztStarted(g)));
      Close(h, pczt.(state := WaitInputsCount), txInfo.(isV6 := g.isV6), signing, NewDraft(g), Step(m, PcztStarted(g)));
    }

    method StartSession(g: Global)
      requires Valid() && m.kind == Idle
      modifies this
      ensures Live() && Quiet() && log == old(log) + [PcztStarted(g)] && SessionStartsWith(g)
    {
      MayStart(g);
      txInfo := txInfo.(isV6 := g.isV6);
      pczt := pczt.(state := WaitInputsCount);
      draft := NewDraft(g);
      Emit(PcztStarted(g));
    }

    // A last packet is refused while its section is not finished.
    method HandlePcztSection(section: Section, last: bool, finish: bool, payload: seq<Field>, answer: Answer)
      returns (r: Result<(), Sw>, ghost chain: seq<Snapshot>)
      requires Valid()
      modifies this
      ensures Sound() && Quiet() && (r.Ok? ==> Valid())
      ensures r.Ok? ==> isFinished == old(isFinished)
      ensures Chain(h, swap, section, payload, answer, chain) && chain[0] == old(Snap())
      ensures |chain| <= |payload| ==> Refused(swap, section, payload, answer, chain)
      ensures r.Ok? <==> |chain| == |payload| + 1 && PacketEnds(section, last, finish, chain[|payload|].p)
      ensures r.Ok? ==> var z := chain[|payload|];
                Snap() == if finish then z.(p := z.p.(pcztFinished := true), log := z.log + [Finished]) else z
      ensures r.Err? && |chain| == |payload| + 1 && last && !SectionDone(chain[|payload|].p, section) ==>
                r == Err(WrongApduLength)
      ensures if r.Ok? && finish then
                log != [] && log[|log| - 1] == Finished
                && PacketLogged(swap, section, payload, answer, |old(log)|, log[..|log| - 1])
              else PacketLogged(swap, section, payload, answer, |old(log)|, log)
      ensures old(log) <= log
    {
      r, chain := ParseSection(section, payload, answer);
      ChainLogged(h, swap, section, payload, answer, chain, |chain| - 1);
      if r.Err? {
        FailureLogs(swap, section, payload, answer, chain[|chain| - 1], |chain| - 1, |old(log)|, log);
      } else {
        r := EndPacket(section, last, finish);
      }
    }

    method EndPacket(section: Section, last: bool, finish: bool) returns (r: Result<(), Sw>)
      requires Valid()
      modifies this
      ensures Sound() && Quiet() && (r.Ok? ==> Valid() && isFinished == old(isFinished))
      ensures r.Ok? <==> PacketEnds(section, last, finish, old(pczt))
      ensures r.Ok? && !finish ==> Snap() == old(Snap())
      ensures r.Ok? && finish ==> Snap() == old(Snap()).(p := old(pczt).(pcztFinished := true),
                                                         log := old(log) + [Finished])
      ensures last && !SectionDone(old(pczt), section) ==> r == Err(WrongApduLength)
      ensures r.Err? ==> log == old(log)
    {
      if last && !SectionDone(pczt, section) {
        ResetPczt();
        return Err(WrongApduLength);
      }
      if finish {
        r := FinishPczt();
        return;
      }
      r := Ok(());
    }

    // finish_pczt: only a reviewed, fully parsed PCZT becomes ready to sign.
    method FinishPczt() returns (r: Result<(), Sw>)
      requires Valid()
      modifies this
      ensures Sound() && Quiet() && (r.Ok? ==> Valid())
      ensures r.Ok? <==> old(pczt).IsReadyToSign()
      ensures r.Err? ==> log == old(log)
      ensures r.Ok? ==> pczt == old(pczt).(pcztFinished := true) && pczt.IsFinished()
      ensures r.Ok? ==> txInfo == old(txInfo) && signing == old(signing) && draft == old(draft)
      ensures r.Ok? ==> log == old(log) + [Finished] && isFinished == old(isFinished)
    {
      if !pczt.IsReadyToSign() {
        ResetPczt();
        return Err(BadState);
      }
      assert Live();
      FinishStep(h, pczt, txInfo, signing, draft, m);
      Commit(pczt.(pcztFinished := true), txInfo, draft, Finished);
      r := Ok(());
    }

    // One event was logged; it may have completed its transaction.
    twostate predicate CountsCompletion(e: Event)
      reads this
    {
      log == old(log) + [e] && m.completions == old(m).completions + if Completes(e) then 1 else 0
    }

    // Lets a signature out of the device.
    method EmitSignature(e: Event)
      requires Sound() && IsSignature(e) && Allowed(m, e) && EventHashed(h, e)
      modifies this`hasReleasedSignature, this`log, this`m, this`ms
      ensures Sound() && log == old(log) + [e] && m == Step(old(m), e) && CountsCompletion(e)
    {
      EpochOfStep(m, e);
      hasReleasedSignature := true;
      Emit(e);
    }

    method ReleaseNext(p: PcztParser, s: TxSigningState, e: Event)
      requires Live() && e.Signed? && Allowed(m, e) && !e.complete && EventHashed(h, e)
      requires SessionOk(h, p, txInfo, s, draft, Step(m, e)) && s.isTxParsedOnce == signing.isTxParsedOnce
      modifies this
      ensures Live() && CountsCompletion(e)
    {
      PcztStays(m, e);
      pczt, signing := p, s;
      EmitSignature(e);
    }

    method ReleaseLast(s: TxSigningState, e: Event)
      requires Live() && e.Signed? && Allowed(m, e) && e.complete && EventHashed(h, e)
      requires s.isTxParsedOnce == signing.isTxParsedOnce
      modifies this
      ensures Valid() && CountsCompletion(e) && isFinished
    {
      PcztStays(m, e);
      signing := s;
      EmitSignature(e);
      Conclude();
    }

    // set_finished, and the parser is reset.
    method Conclude()
      requires Sound() && m.kind == Pczt && !m.finished && m.change == txInfo.changeAccount && LegacyFresh()
      modifies this`isFinished, this`pczt, this`draft
      ensures Valid() && isFinished
    {
      isFinished := true;
      ResetPczt();
    }

    // A PCZT signature; the last one closes the transaction.
    method Release(p: PcztParser, s: TxSigningState, e: Event)
      requires Live() && e.Signed? && Allowed(m, e) && (e.complete <==> SignaturesDone(p, s)) && EventHashed(h, e)
      requires !e.complete ==> SessionOk(h, p, txInfo, s, draft, Step(m, e))
      requires s.isTxParsedOnce == signing.isTxParsedOnce
      modifies this
      ensures Valid() && CountsCompletion(e) && (isFinished <==> e.complete)
    {
      if SignaturesDone(p, s) {
        ReleaseLast(s, e);
      } else {
        ReleaseNext(p, s, e);
      }
    }

    // use_transparent_signature_digest.
    method InputDigest(index: nat) returns (digest: SignatureDigest.Digest)
      requires index < |draft.inputs|
      ensures digest == SigningDigest(h, Content(draft.tx, draft.inputs, draft.outputs), Some(index))
    {
      var txin := SignatureDigest.TxinSignatureDigest(h, draft.inputs[index]);
      var info := new SignatureDigest.TxInfo(draft.tx);
      info.ComputeTransparentInput(h, txin, SignatureDigest.SIGHASH_ALL);
      digest := info.signatureDigest;
    }

    // ensure_signature_digest_for_orchard and its Ironwood twin: computed once for a bundle.
    method ShieldedDigest(pool: Pool) returns (digest: SignatureDigest.Digest)
      requires Live() && m.reviewed
      modifies this`draft
      ensures Live() && draft == DigestCached(old(draft), pool, digest)
      ensures digest == SigningDigest(h, Content(draft.tx, draft.inputs, draft.outputs), None)
    {
      CacheFound(h, pczt, txInfo, signing, draft, m, pool);
      if draft.Cached(pool).Some? {
        digest := draft.Cached(pool).value;
      } else {
        var info := new SignatureDigest.TxInfo(draft.tx);
        info.ComputeShielded(h, pczt.inputCount, pczt.outputCount);
        digest := info.signatureDigest;
      }
      CacheStep(h, pczt, txInfo, signing, draft, m, pool, digest);
      draft := DigestCached(draft, pool, digest);
    }

    // A reviewed input that was not signed yet and spends from the change account.
    ghost predicate InputSignable(index: nat)
      reads this
    {
      && pczt.IsFinished() && index < |pczt.inputs| && !pczt.inputs[index].signed
      && ChangeReturns(txInfo.changeAccount, pczt.inputs[index].path)
    }

    // The same of an action, and its spend is real.
    ghost predicate ActionSignable(pool: Pool, index: nat)
      reads this
    {
      var rs := pczt.Bundle(pool).records;
      && pczt.IsFinished() && index < |rs| && rs[index].isReal && !rs[index].signed
      && ChangeReturns(txInfo.changeAccount, rs[index].path)
    }

    // What can be signed is what the log says awaits its signature.
    lemma InputAwaits(index: nat)
      requires Valid()
      ensures InputSignable(index) <==> SlotSignable(m, Transparent(index))
    {
      if m.kind == Pczt && !isFinished {
        SlotsOfSession(h, pczt, txInfo, signing, draft, m, Transparent(index));
      }
    }

    lemma ActionAwaits(pool: Pool, index: nat)
      requires Valid()
      ensures ActionSignable(pool, index) <==> SlotSignable(m, Action(pool, index))
      ensures ActionSignable(pool, index) ==>
                var path := pczt.Bundle(pool).records[index].path;
                m.shieldedPath == Some(path) && (pczt.keyPath == None || pczt.keyPath == Some(path))
    {
      OpenLog();
      ActionsShareTheirPath(swap, log, ms, |log|);
      if m.kind == Pczt && !isFinished {
        SlotsOfSession(h, pczt, txInfo, signing, draft, m, Action(pool, index));
      }
    }

    // What is refused before a transparent input is signed.
    method CheckInput(index: nat, empty: bool, signs: bool) returns (r: Result<Path, Sw>)
      ensures r.Ok? <==> empty && signs && InputSignable(index)
      ensures r.Ok? ==> r.value == pczt.inputs[index].path
    {
      if !empty {
        return Err(WrongApduLength);
      }
      if !pczt.IsFinished() {
        return Err(ConditionsOfUseNotSatisfied);
      }
      if index >= |pczt.inputs| || pczt.inputs[index].signed {
        return Err(IncorrectData);
      }
      if !ChangeReturns(txInfo.changeAccount, pczt.inputs[index].path) {
        return Err(ConditionsOfUseNotSatisfied);
      }
      if !signs {
        return Err(TechnicalProblem);
      }
      r := Ok(pczt.inputs[index].path);
    }

    // What is refused before an action is signed: dummies too.
    method CheckAction(pool: Pool, index: nat, empty: bool, signs: bool) returns (r: Result<Path, Sw>)
      ensures r.Ok? <==> empty && signs && ActionSignable(pool, index)
      ensures r.Ok? ==> r.value == pczt.Bundle(pool).records[index].path
    {
      var b := pczt.Bundle(pool);
      if !empty {
        return Err(WrongApduLength);
      }
      if !pczt.IsFinished() {
        return Err(ConditionsOfUseNotSatisfied);
      }
      if index >= |b.records| || b.records[index].signed || !b.records[index].isReal {
        return Err(IncorrectData);
      }
      if !ChangeReturns(txInfo.changeAccount, b.records[index].path) {
        return Err(ConditionsOfUseNotSatisfied);
      }
      if !signs {
        return Err(TechnicalProblem);
      }
      r := Ok(b.records[index].path);
    }

    // The signature of a slot with a path, over the reviewed content.
    twostate predicate Signs(slot: Slot, path: Path)
      reads this
    {
      var content := Content(old(draft).tx, old(draft).inputs, old(draft).outputs);
      exists digest :: CountsCompletion(Signed(slot, path, content, digest, isFinished))
    }

    method HandleSignTransparent(index: nat, empty: bool, signs: bool) returns (r: Result<(), Sw>)
      requires Valid()
      modifies this
      ensures Sound() && (r.Ok? ==> Valid())
      ensures r.Ok? <==> empty && signs && old(InputSignable(index))
      ensures r.Ok? <==> empty && signs && SlotSignable(old(m), Transparent(index))
      ensures r.Ok? ==> !old(isFinished) && Signs(Transparent(index), old(pczt).inputs[index].path)
      ensures r.Err? ==> log == old(log) && Quiet()
    {
      InputAwaits(index);
      var path := CheckInput(index, empty, signs);
      if path.Err? {
        ResetPczt();
        return Err(path.error);
      }
      assert Live();
      BeforeReview(h, pczt, txInfo, signing, draft, m);
      var digest := InputDigest(index);
      ReleaseInput(index, digest);
      r := Ok(());
    }

    method ReleaseInput(index: nat, digest: SignatureDigest.Digest)
      requires Live() && pczt.IsFinished() && index < |pczt.inputs| && !pczt.inputs[index].signed
      requires ChangeReturns(txInfo.changeAccount, pczt.inputs[index].path)
      requires index < |draft.inputs| && digest == SigningDigest(h, draft.Covered(), Some(index))
      modifies this
      ensures Valid() && Signs(Transparent(index), old(pczt).inputs[index].path)
    {
      var p, s := InputSigned(pczt, index), SignatureCounted(signing);
      var e := Signed(Transparent(index), pczt.inputs[index].path, draft.Covered(), digest, SignaturesDone(p, s));
      SignInputStep(h, pczt, txInfo, signing, draft, m, index, e);
      Release(p, s, e);
    }

    method HandleSignAction(pool: Pool, index: nat, empty: bool, derives: bool, signs: bool) returns (r: Result<(), Sw>)
      requires Valid()
      modifies this
      ensures Sound() && (r.Ok? ==> Valid())
      ensures r.Ok? <==> && empty && signs && old(ActionSignable(pool, index))
                         && KeyAvailable(old(pczt), old(pczt).Bundle(pool).records[index].path, derives)
      ensures r.Ok? ==> empty && signs && SlotSignable(old(m), Action(pool, index))
      ensures empty && derives && signs && SlotSignable(old(m), Action(pool, index)) ==> r.Ok?
      ensures r.Ok? ==> !old(isFinished) && Signs(Action(pool, index), old(pczt).Bundle(pool).records[index].path)
      ensures r.Err? ==> log == old(log) && Quiet()
    {
      ActionAwaits(pool, index);
      var path := CheckAction(pool, index, empty, signs);
      if path.Err? {
        ResetPczt();
        return Err(path.error);
      }
      assert Live();
      r := SignAction(pool, index, path.value, derives);
    }

    // Fetches the digest and the session's key, and signs.
    method SignAction(pool: Pool, index: nat, path: Path, derives: bool) returns (r: Result<(), Sw>)
      requires Live() && pczt.IsFinished() && index < |pczt.Bundle(pool).records|
      requires pczt.Bundle(pool).records[index] == Record(path, true, false)
               && ChangeReturns(txInfo.changeAccount, path) && m.shieldedPath == Some(path)
      modifies this
      ensures Sound() && (r.Ok? ==> Valid() && Signs(Action(pool, index), path))
      ensures r.Ok? <==> KeyAvailable(old(pczt), path, derives)
      ensures r.Err? ==> log == old(log) && Quiet()
    {
      BeforeReview(h, pczt, txInfo, signing, draft, m);
      var digest := ShieldedDigest(pool);
      var key := SpendingKey(path, derives);
      if key.Err? {
        ResetPczt();
        return Err(key.error);
      }
      ReleaseAction(pool, index, digest);
      r := Ok(());
    }

    // The action is marked before its signature leaves the device.
    method ReleaseAction(pool: Pool, index: nat, digest: SignatureDigest.Digest)
      requires Live() && pczt.IsFinished()
      requires index < |pczt.Bundle(pool).records|
      requires var rec := pczt.Bundle(pool).records[index];
               rec.isReal && !rec.signed && ChangeReturns(txInfo.changeAccount, rec.path)
      requires digest == SigningDigest(h, draft.Covered(), None)
      modifies this
      ensures Valid() && Signs(Action(pool, index), old(pczt).Bundle(pool).records[index].path)
    {
      var b := pczt.Bundle(pool);
      var p := WithSignedBundle(pczt, pool, EntrySigned(b, index));
      var e := Signed(Action(pool, index), b.records[index].path, draft.Covered(), digest, SignaturesDone(p, signing));
      SignActionStep(h, pczt, txInfo, signing, draft, m, pool, index, e);
      Release(p, signing, e);
    }

    // ------------------------------------------------------------ legacy handlers

    // A context no PCZT owns.
    ghost predicate NoPczt()
      reads this
    {
      Sound() && m.change == txInfo.changeAccount && m.kind != Pczt && LegacyInv()
    }

    lemma NoSessionIsNoPczt()
      requires Valid() && !pczt.IsSessionActive() && !isFinished
      ensures NoPczt()
    {
      if m.kind == Idle {
        NothingLogged();
        FreshLegacy(legacy.mode, m);
      } else if m.kind == Pczt {
        SessionStarted(h, pczt, txInfo, signing, draft, m);
      }
    }

    // A packet of a round that starts from the given state, after `before` was logged.
    twostate predicate RoundServed(ok: bool, fields: seq<LegacyField>, before: seq<Event>, start: LegacyParser,
                                   t: TxInfo, s: TxSigningState, o: LegacyOutputParser)
      reads this
    {
      var fixed := InputsFixed(start, s.isTxParsedOnce, fields);
      && (ok <==> RoundAccepted(start, fields))
      && (ok ==> && legacy == LegacyParser(start.mode, StateAfter(start, s.isTxParsedOnce, fields)) && legacyOutput == o
                 && txInfo == t.(isV6 := t.isV6 || HeaderIsV6(start, fields))
                 && signing == s.(totalInputs := if fixed.Some? then fixed.value else s.totalInputs)
                 && log == old(log) + before + [LegacyParsed(fixed)])
    }

    // The legacy parser over one packet, then its effect on the context. The header that starts
    // the first round of a transaction to sign fixes how many signatures complete it.
    method ParseLegacy(fields: seq<LegacyField>) returns (r: Result<(), Sw>)
      requires NoPczt()
      modifies this`legacy, this`txInfo, this`signing, this`log, this`m, this`ms
      ensures Sound() && Quiet() && if r.Ok? then Valid() && m.kind == Legacy else log == old(log)
      ensures RoundServed(r.Ok?, fields, [], old(legacy), old(txInfo), old(signing), legacyOutput)
      ensures r.Ok? ==> RoundLogged(false, fields, old(log), log)
      ensures r.Ok? && old(legacy) == LegacyParser(Signature, Start) && !old(signing).isTxParsedOnce && fields != [] ==>
                && fields[0].Header? && fields[0].version == V5 && signing.totalInputs == fields[0].inputs
                && log == old(log) + [LegacyParsed(Some(fields[0].inputs))]
    {
      var x := ReadRound(legacy, txInfo.isV6, signing.isTxParsedOnce, fields);
      if x.None? {
        return Err(IncorrectData);
      }
      assert log + [] == log;
      OpenLegacy(legacy, legacyOutput, txInfo, signing, m);
      RoundSound(Round(legacy, txInfo.isV6, None), signing.isTxParsedOnce, fields, |fields|);
      CommitLegacy(x.value.parser, x.value.isV6, x.value.inputs);
      r := Ok(());
    }

    method CommitLegacy(parser: LegacyParser, isV6: bool, inputs: Option<nat>)
      requires NoPczt() && (parser.state == ReadyToSign ==> signing.isTxParsedOnce)
      requires inputs.Some? ==> !signing.isTxParsedOnce && inputs.value <= MAX_COMPACT_SIZE
      modifies this`legacy, this`txInfo, this`signing, this`log, this`m, this`ms
      ensures Valid() && Quiet() && m.kind == Legacy && log == old(log) + [LegacyParsed(inputs)]
      ensures legacy == parser && txInfo == old(txInfo).(isV6 := isV6)
              && signing == InputsDeclared(old(signing), inputs)
    {
      EpochOfStep(m, LegacyParsed(inputs));
      ParsedStep(legacy, parser, legacyOutput, txInfo, isV6, signing, m, inputs);
      legacy := parser;
      txInfo := txInfo.(isV6 := isV6);
      signing := InputsDeclared(signing, inputs);
      Emit(LegacyParsed(inputs));
    }

    // What is refused before a legacy packet is read: a packet that does not start over while
    // a PCZT is open or the transaction is finished, and a new start after a release in swap mode.
    ghost predicate PacketRefused(restarts: bool)
      reads this
    {
      if restarts then swap && hasReleasedSignature else pczt.IsSessionActive() || isFinished
    }

    // A new transaction, and the first packet of its round.
    method StartRound(mode: LegacyMode, fields: seq<LegacyField>) returns (r: Result<(), Sw>)
      requires Valid()
      modifies this
      ensures Sound() && Quiet() && (r.Ok? ==> Valid() && m.kind == Legacy && !isFinished && !isExtraHeaderDataSet)
      ensures RoundLogged(true, fields, old(log), log)
      ensures swap && old(hasReleasedSignature) ==> r.Err? && log == old(log)
      ensures !(swap && old(hasReleasedSignature)) ==>
                && RoundServed(r.Ok?, fields, [Event.Reset], LegacyParser(mode, Start), NEW_TX_INFO, NEW_SIGNING,
                               NEW_LEGACY_OUTPUT)
                && (r.Err? ==> log == old(log) + [Event.Reset])
    {
      r := ResetForNewTransaction(mode);
      if r.Err? {
        return;
      }
      NoSessionIsNoPczt();
      r := ParseLegacy(fields);
    }

    // The signing round of a reviewed transaction, which keeps its state.
    method ContinueRound(fields: seq<LegacyField>) returns (r: Result<(), Sw>)
      requires Valid() && !pczt.IsSessionActive() && !isFinished
      modifies this`legacy, this`txInfo, this`signing, this`log, this`m, this`ms
      ensures Sound() && Quiet() && if r.Ok? then Valid() && m.kind == Legacy else log == old(log)
      ensures old(txInfo).isV6 || !old(signing).isTxParsedOnce ==> r.Err?
      ensures RoundLogged(false, fields, old(log), log)
      ensures old(signing).isTxParsedOnce && !old(txInfo).isV6 ==>
                RoundServed(r.Ok?, fields, [], LegacyParser(Signature, Start), old(txInfo), old(signing), legacyOutput)
    {
      if txInfo.isV6 {
        return Err(BadState);
      }
      if !signing.isTxParsedOnce {
        return Err(BadState);
      }
      NoSessionIsNoPczt();
      RestartStep(legacy, legacyOutput, txInfo, signing, m, Signature);
      legacy := LegacyParser(Signature, Start);
      r := ParseLegacy(fields);
    }

    method HandleGetTrustedInput(first: bool, fields: seq<LegacyField>, inputProcessed: bool)
      returns (r: Result<(), Sw>)
      requires Valid()
      modifies this
      ensures Sound() && Quiet() && (r.Ok? ==> Valid() && (isFinished ==> old(isFinished)))
      ensures r.Ok? && (old(pczt).IsSessionActive() || old(isFinished)) ==> Event.Reset in log[|old(log)|..]
      ensures r.Ok? <==> && !old(PacketRefused(first))
                         && var start := if first then LegacyParser(TrustedInput, Start) else old(legacy);
                            RoundAccepted(start, fields)
                            && (StateAfter(start, !first && old(signing).isTxParsedOnce, fields) == Parsed ==>
                                  inputProcessed)
      ensures r.Ok? && first ==> RoundServed(true, fields, [Event.Reset], LegacyParser(TrustedInput, Start),
                                             NEW_TX_INFO, NEW_SIGNING, NEW_LEGACY_OUTPUT)
      ensures r.Ok? && !first ==> RoundServed(true, fields, [], old(legacy), old(txInfo), old(signing),
                                              old(legacyOutput))
      ensures RoundLogged(first, fields, old(log), log)
    {
      if !first && pczt.IsSessionActive() {
        return Err(BadState);
      }
      if !first && isFinished {
        return Err(BadState);
      }
      if first {
        r := StartRound(TrustedInput, fields);
        assert r.Ok? ==> log[|old(log)|] == Event.Reset;
      } else {
        NoSessionIsNoPczt();
        r := ParseLegacy(fields);
      }
      if r.Ok? && legacy.state == Parsed && !inputProcessed {
        return Err(IncorrectData);
      }
    }

    // HASH_INPUT_START. A continuation resumes a reviewed transaction in the signing round.
    method HandleHashInputStart(first: bool, continueHashing: bool, fields: seq<LegacyField>)
      returns (r: Result<(), Sw>)
      requires Valid()
      modifies this
      ensures Sound() && Quiet() && (r.Ok? ==> Valid() && m.kind == Legacy && (isFinished ==> old(isFinished)))
      ensures r.Ok? && (old(pczt).IsSessionActive() || old(isFinished)) ==> Event.Reset in log[|old(log)|..]
      ensures old(PacketRefused(first && !continueHashing)) ==> r.Err?
      ensures continueHashing && (old(txInfo).isV6 || !old(signing).isTxParsedOnce) ==> r.Err?
      ensures !old(PacketRefused(first && !continueHashing)) ==>
                && (continueHashing && old(signing).isTxParsedOnce && !old(txInfo).isV6 ==>
                      RoundServed(r.Ok?, fields, [], LegacyParser(Signature, Start), old(txInfo), old(signing),
                                  old(legacyOutput)))
                && (first && !continueHashing ==>
                      RoundServed(r.Ok?, fields, [Event.Reset], LegacyParser(Signature, Start), NEW_TX_INFO,
                                  NEW_SIGNING, NEW_LEGACY_OUTPUT))
                && (!first && !continueHashing ==>
                      RoundServed(r.Ok?, fields, [], old(legacy), old(txInfo), old(signing), old(legacyOutput)))
      ensures r.Ok? && first && !continueHashing && fields != [] ==>
                && fields[0].Header? && fields[0].version == V5 && signing.totalInputs == fields[0].inputs
                && log == old(log) + [Event.Reset, LegacyParsed(Some(fields[0].inputs))]
      ensures r.Ok? && first && !continueHashing ==> !isExtraHeaderDataSet
      ensures r.Ok? && continueHashing ==> isExtraHeaderDataSet == old(isExtraHeaderDataSet)
      ensures RoundLogged(first && !continueHashing, fields, old(log), log)
    {
      if !(first && !continueHashing) {
        if pczt.IsSessionActive() {
          return Err(BadState);
        }
        if isFinished {
          return Err(BadState);
        }
      }
      if continueHashing {
        r := ContinueRound(fields);
        return;
      }
      if first {
        r := StartRound(Signature, fields);
        assert r.Ok? ==> log[|old(log)|] == Event.Reset;
        return;
      }
      NoSessionIsNoPczt();
      r := ParseLegacy(fields);
    }

    // Outputs and change information are taken between the two rounds.
    ghost predicate OutputsExpected()
      reads this
    {
      legacy.state == PresignReady && legacyOutput.state != OutputProcessingDone
    }

    // HASH_INPUT_FINALIZE_FULL with change information: the last one counts.
    method HandleChangeInfo(path: Option<Path>, derived: bool) returns (r: Result<(), Sw>)
      requires Valid()
      modifies this`txInfo, this`log, this`m, this`ms
      ensures Sound() && Quiet() && (r.Ok? ==> Valid() && m.kind == Legacy)
      ensures r.Ok? <==> old(OutputsExpected()) && path.Some? && Bip44Path(path.value, 1) && derived
      ensures r.Ok? ==> log == old(log) + [LegacyChange(path.value[2])]
      ensures r.Ok? ==> txInfo == old(txInfo).(changeAccount := Some(path.value[2]))
      ensures r.Err? ==> log == old(log)
    {
      if legacy.state != PresignReady || legacyOutput.state == OutputProcessingDone {
        return Err(ConditionsOfUseNotSatisfied);
      }
      if path.None? {
        return Err(WrongApduLength);
      }
      FullExact(path.value, true);
      if !CheckBip44Compliance(path.value, Full(true)) {
        return Err(ConditionsOfUseNotSatisfied);
      }
      if !derived {
        return Err(TechnicalProblem);
      }
      EpochOfStep(m, LegacyChange(path.value[2]));
      ChangeStep(legacy, legacyOutput, txInfo, signing, m, path.value[2]);
      txInfo := txInfo.(changeAccount := DerivationAccount(path.value));
      Emit(LegacyChange(path.value[2]));
      r := Ok(());
    }

    // One field of the output parser.
    method LegacyOutput(f: LegacyOutputField, feesOk: bool, exchange: bool) returns (r: Result<(), Sw>)
      requires InLegacy() && OutputsExpected()
      modifies this`legacyOutput, this`txInfo, this`log, this`m, this`ms
      ensures Sound() && Quiet() && (r.Ok? ==> InLegacy())
      ensures var x := OutputFieldParsed(swap, old(legacyOutput), old(txInfo), f, feesOk, exchange);
              && (r.Ok? <==> x.Some?)
              && (r.Ok? ==> legacyOutput == x.value.parser && txInfo == x.value.info
                            && log == old(log) + x.value.events)
      ensures old(legacyOutput).state == ParsingNumberOfOutputs ==>
                && (r.Ok? <==> f.OutputCount? && f.n <= 8)
                && (r.Ok? ==> legacyOutput == old(legacyOutput).(state := ParsingOutput, outputCount := f.n))
      ensures old(legacyOutput).state == ParsingOutput ==>
                && (r.Ok? <==> f.LegacyOutputHead?)
                && (r.Ok? ==> legacyOutput == old(legacyOutput).(state := ProcessingOutputScript))
      ensures old(legacyOutput).state == ProcessingOutputScript && !(f.LegacyOutputScript? && f.complete) ==>
                (r.Ok? <==> f.LegacyOutputScript?) && legacyOutput == old(legacyOutput)
      ensures r.Ok? && !(f.LegacyOutputScript? && f.complete) ==> txInfo == old(txInfo) && log == old(log)
      ensures r.Err? ==> OutputFailureLogged(old(txInfo), f, old(log), log)
    {
      match legacyOutput.state {
        case ParsingNumberOfOutputs =>
          if !f.OutputCount? || f.n > MAX_LEGACY_OUTPUTS {
            return Err(IncorrectData);
          }
          ReadStep(legacy, legacyOutput, legacyOutput.(state := ParsingOutput, outputCount := f.n), txInfo, signing, m);
          legacyOutput := legacyOutput.(state := ParsingOutput, outputCount := f.n);
        case ParsingOutput =>
          if !f.LegacyOutputHead? {
            return Err(IncorrectData);
          }
          ReadStep(legacy, legacyOutput, legacyOutput.(state := ProcessingOutputScript), txInfo, signing, m);
          legacyOutput := legacyOutput.(state := ProcessingOutputScript);
        case ProcessingOutputScript =>
          if !f.LegacyOutputScript? {
            return Err(IncorrectData);
          }
          if f.complete {
            r := LegacyScript(f.kind, feesOk, exchange);
            return;
          }
      }
      r := Ok(());
    }

    // A complete output script: classified, recorded, and with the last one the outputs end.
    method LegacyScript(kind: ScriptKind, feesOk: bool, exchange: bool) returns (r: Result<(), Sw>)
      requires InLegacy() && OutputsExpected() && legacyOutput.state == ProcessingOutputScript
      modifies this`legacyOutput, this`txInfo, this`log, this`m, this`ms
      ensures Sound() && Quiet() && (r.Ok? ==> InLegacy())
      ensures var x := ScriptParsed(swap, old(legacyOutput), old(txInfo), kind, feesOk, exchange);
              && (r.Ok? <==> x.Some?)
              && (r.Ok? ==> legacyOutput == x.value.parser && txInfo == x.value.info
                            && log == old(log) + x.value.events)
      ensures r.Ok? <==> ScriptAccepted(swap, old(legacyOutput), old(txInfo), kind, feesOk, exchange)
      ensures r.Err? ==> OutputFailureLogged(old(txInfo), LegacyOutputScript(true, kind), old(log), log)
    {
      if kind == UnsupportedScript || (kind == ChangeScript && (txInfo.changeAccount.None? || txInfo.isChangeFound)) {
        return Err(IncorrectData);
      }
      RecordLegacyOutput(kind);
      if legacyOutput.outputCount != legacyOutput.outputParsedCount {
        return Ok(());
      }
      if !feesOk || (swap && !exchange) {
        return Err(IncorrectData);
      }
      CloseLegacyOutputs(exchange);
      r := Ok(());
    }

    method RecordLegacyOutput(kind: ScriptKind)
      requires InLegacy() && OutputsExpected() && Classified(txInfo, kind)
      modifies this`legacyOutput, this`txInfo, this`log, this`m, this`ms
      ensures InLegacy() && Quiet() && txInfo.outputs != []
      ensures var hidden := HiddenFor(old(txInfo), kind);
              && log == old(log) + [LegacyOutputRecorded(hidden)] && txInfo == OutputAdded(old(txInfo), hidden.Some?)
      ensures legacyOutput == OutputRead(old(legacyOutput))
    {
      var hidden := HiddenFor(txInfo, kind);
      EpochOfStep(m, LegacyOutputRecorded(hidden));
      LegacyOutputStep(legacy, legacyOutput, txInfo, signing, m, kind);
      txInfo := OutputAdded(txInfo, hidden.Some?);
      legacyOutput := OutputRead(legacyOutput);
      Emit(LegacyOutputRecorded(hidden));
    }

    // finalize_outputs, with the check against the Exchange request in swap mode.
    method CloseLegacyOutputs(exchange: bool)
      requires InLegacy() && OutputsExpected() && txInfo.outputs != [] && (swap ==> exchange)
      requires legacyOutput.outputCount == legacyOutput.outputParsedCount
      modifies this`legacyOutput, this`txInfo, this`log, this`m, this`ms
      ensures InLegacy() && Quiet() && log == old(log) + [LegacyOutputsDone(swap && exchange)]
      ensures txInfo == OutputsSettled(swap, old(txInfo))
      ensures legacyOutput == OutputsEnded(old(legacyOutput), swap && exchange)
    {
      EpochOfStep(m, LegacyOutputsDone(swap && exchange));
      OutputsEndStep(legacy, legacyOutput, txInfo, signing, m, swap && exchange);
      txInfo := OutputsSettled(swap, txInfo);
      legacyOutput := OutputsEnded(legacyOutput, swap && exchange);
      Emit(LegacyOutputsDone(swap && exchange));
    }

    // HASH_INPUT_FINALIZE_FULL with outputs. Every accepted packet is logged.
    method HandleFinalizeFull(outputs: seq<LegacyOutputField>, feesOk: bool, answer: Answer) returns (r: Result<(), Sw>)
      requires Valid()
      modifies this`legacyOutput, this`txInfo, this`log, this`m, this`ms
      ensures Sound() && Quiet() && (r.Ok? ==> Valid() && m.kind == Legacy)
      ensures r.Ok? ==> !old(pczt).IsSessionActive() && old(m).kind == Legacy && old(OutputsExpected()) && outputs != []
      ensures r.Ok? && legacyOutput.state == OutputProcessingDone ==> |txInfo.outputs| == legacyOutput.outputCount
      ensures OutputsLogged(swap, outputs, answer.exchange, old(log), log)
      ensures outputs != [] && old(OutputsExpected()) ==>
                var x := OutputsParsed(swap, old(legacyOutput), old(txInfo), outputs, |outputs|, feesOk,
                                       answer.exchange);
                && (r.Ok? <==> x.Some?)
                && (r.Ok? ==> && legacyOutput == x.value.parser && txInfo == x.value.info
                              && log == old(log) + x.value.events + [LegacyParsed(None)])
    {
      if outputs == [] {
        return Err(WrongApduLength);
      }
      if legacy.state != PresignReady || legacyOutput.state == OutputProcessingDone {
        return Err(ConditionsOfUseNotSatisfied);
      }
      ghost var x := OutputsParsed(swap, legacyOutput, txInfo, outputs, |outputs|, feesOk, answer.exchange);
      r := LegacyOutputs(outputs, feesOk, answer.exchange);
      if r.Err? {
        return;
      }
      LogPacket();
    }

    // An accepted packet of outputs is logged.
    method LogPacket()
      requires InLegacy()
      modifies this`log, this`m, this`ms
      ensures Valid() && Quiet() && m.kind == Legacy && log == old(log) + [LegacyParsed(None)]
      ensures legacyOutput.state == OutputProcessingDone ==> |txInfo.outputs| == legacyOutput.outputCount
    {
      OpenLegacy(legacy, legacyOutput, txInfo, signing, m);
      EpochOfStep(m, LegacyParsed(None));
      ParsedStep(legacy, legacy, legacyOutput, txInfo, txInfo.isV6, signing, m, None);
      Emit(LegacyParsed(None));
    }

    // The loop of the output parser; what follows the last output is not read.
    method LegacyOutputs(outputs: seq<LegacyOutputField>, feesOk: bool, exchange: bool) returns (r: Result<(), Sw>)
      requires InLegacy() && OutputsExpected()
      modifies this`legacyOutput, this`txInfo, this`log, this`m, this`ms
      ensures Sound() && Quiet() && (r.Ok? ==> InLegacy())
      ensures var x := OutputsParsed(swap, old(legacyOutput), old(txInfo), outputs, |outputs|, feesOk, exchange);
              && (r.Ok? <==> x.Some?)
              && (r.Ok? ==> legacyOutput == x.value.parser && txInfo == x.value.info
                            && log == old(log) + x.value.events)
      ensures OutputsLogged(swap, outputs, exchange, old(log), log)
    {
      ghost var o, t := legacyOutput, txInfo;
      ghost var events: seq<Event> := [];
      for i := 0 to |outputs|
        invariant InLegacy() && Quiet() && log == old(log) + events
        invariant OutputsLogged(swap, outputs, exchange, old(log), log)
        invariant OutputsParsed(swap, o, t, outputs, i, feesOk, exchange)
                  == Some(OutputRun(legacyOutput, txInfo, events))
      {
        if legacyOutput.state == OutputProcessingDone {
          OutputsStay(swap, o, t, outputs, i, |outputs|, feesOk, exchange);
          return Ok(());
        }
        OutputsNext(swap, o, t, outputs, i, feesOk, exchange, OutputRun(legacyOutput, txInfo, events), old(log));
        ghost var step := OutputFieldParsed(swap, legacyOutput, txInfo, outputs[i], feesOk, exchange);
        ghost var before, p, u := log, legacyOutput, txInfo;
        r := LegacyOutput(outputs[i], feesOk, exchange);
        OutputFieldLogs(swap, p, u, outputs, i, feesOk, exchange, old(log), before, log);
        if r.Err? {
          return;
        }
        events := events + step.value.events;
      }
      r := Ok(());
    }

    // The transaction is complete and waits for its review.
    ghost predicate ReviewDue()
      reads this
    {
      legacyOutput.state == OutputProcessingDone && !isExtraHeaderDataSet
    }

    // The approval on record: the user's, or the check that ended the outputs, and what was shown.
    ghost function ReviewEvent(data: SignData): Event
      reads this
    {
      LegacyReviewed(Given(swap, Answer(data.approve, legacyOutput.exchangeChecked)), CountVisible(txInfo.outputs))
    }

    // The header of a legacy transaction whose outputs are in: the point of its review. In
    // swap mode the check that ended the outputs stands for it.
    method LegacyReview(data: SignData) returns (r: Result<(), Sw>)
      requires Valid() && ReviewDue()
      modifies this`isExtraHeaderDataSet, this`isFinished, this`signing, this`log, this`m, this`ms
      ensures Sound() && Quiet()
      ensures r.Ok? <==> data.header == Some(true) && (swap || data.approve)
      ensures r.Ok? ==> Valid() && isFinished == old(isFinished) && isExtraHeaderDataSet
      ensures r.Ok? ==> signing == old(signing).(isTxParsedOnce := true)
      ensures r.Ok? ==> log == old(log) + [ReviewEvent(data)]
      ensures r.Err? ==> log == old(log)
    {
      if data.header.None? {
        return Err(WrongApduLength);
      }
      if !data.header.value {
        return Err(IncorrectData);
      }
      isExtraHeaderDataSet := true;
      var shown := CountVisible(txInfo.outputs);
      if !swap && !data.approve {
        isFinished := true;
        return Err(Deny);
      }
      var approval := Given(swap, Answer(data.approve, legacyOutput.exchangeChecked));
      EpochOfStep(m, LegacyReviewed(approval, shown));
      LegacyReviewStep(legacy, legacyOutput, txInfo, signing, m, approval);
      signing := signing.(isTxParsedOnce := true);
      Emit(LegacyReviewed(approval, shown));
      r := Ok(());
    }

    // What a signature of this round needs.
    ghost predicate SignsWith(data: SignData)
      reads this
    {
      && !pczt.IsSessionActive() && !data.empty && legacy.state == ReadyToSign && data.path.Some? && data.signs
      && SigningPath(data.path.value) && ChangeReturns(txInfo.changeAccount, data.path.value)
    }

    // HASH_SIGN: the review when it is due, a signature otherwise.
    method HandleHashSign(data: SignData) returns (r: Result<(), Sw>)
      requires Valid()
      modifies this`isExtraHeaderDataSet, this`isFinished, this`signing, this`hasReleasedSignature
      modifies this`log, this`m, this`ms
      ensures Sound() && (r.Ok? ==> Valid())
      ensures r.Ok? ==> !old(pczt).IsSessionActive() && old(m).kind == Legacy
      ensures old(ReviewDue()) ==>
                && Quiet() && (r.Ok? <==> !data.empty && data.header == Some(true) && (swap || data.approve))
                && (r.Ok? ==> && isFinished == old(isFinished) && isExtraHeaderDataSet
                              && signing == old(signing).(isTxParsedOnce := true)
                              && log == old(log) + [ReviewEvent(data)])
      ensures !old(ReviewDue()) ==> (r.Ok? <==> old(SignsWith(data)))
      ensures r.Err? ==> Quiet() && log == old(log)
      ensures !old(ReviewDue()) && r.Ok? ==>
                var complete := CompletesLegacy(old(signing));
                CountsCompletion(LegacySigned(data.path.value, complete)) && isFinished == (old(isFinished) || complete)
    {
      if pczt.IsSessionActive() {
        return Err(BadState);
      }
      if data.empty {
        return Err(WrongApduLength);
      }
      if legacyOutput.state == OutputProcessingDone && !isExtraHeaderDataSet {
        r := LegacyReview(data);
        return;
      }
      if legacy.state != ReadyToSign {
        return Err(ConditionsOfUseNotSatisfied);
      }
      if data.path.None? {
        return Err(WrongApduLength);
      }
      var path := data.path.value;
      if !CheckBip44Compliance(path, OnlyCoinType) {
        return Err(ConditionsOfUseNotSatisfied);
      }
      if !ChangeReturns(txInfo.changeAccount, path) {
        return Err(ConditionsOfUseNotSatisfied);
      }
      if !data.signs {
        return Err(TechnicalProblem);
      }
      ReleaseLegacy(path);
      r := Ok(());
    }

    method ReleaseLegacy(path: Path)
      requires Valid() && m.kind == Legacy && legacy.state == ReadyToSign
      requires ChangeReturns(txInfo.changeAccount, path) && SigningPath(path)
      modifies this`isFinished, this`signing, this`hasReleasedSignature, this`log, this`m, this`ms
      ensures Valid()
      ensures var complete := CompletesLegacy(old(signing));
              CountsCompletion(LegacySigned(path, complete)) && isFinished == (old(isFinished) || complete)
    {
      var complete := CompletesLegacy(signing);
      SignStep(legacy, legacyOutput, txInfo, signing, m, path);
      signing := signing.(alreadySigned := SaturatingInc(signing.alreadySigned));
      EmitSignature(LegacySigned(path, complete));
      if signing.alreadySigned == if signing.totalInputs == 0 then 1 else signing.totalInputs {
        isFinished := true;
      }
    }

    // ------------------------------------------------------------ src/main.rs

    // At most one transaction was completed, by the last event, and then the context is
    // finished; a context only becomes finished that way.
    twostate predicate Ends(ok: bool)
      reads this
    {
      && old(log) <= log
      && (|| m.completions == old(m).completions
          || (m.completions == old(m).completions + 1 && ok && isFinished && log != [] && Completes(log[|log| - 1])))
      && (ok && !old(isFinished) && isFinished ==> m.completions == old(m).completions + 1)
    }

    // The effect of each instruction, in terms of its own arguments.
    twostate predicate ServesHeader(header: Option<Global>, ok: bool)
      reads this
    {
      && (ok <==> header.Some? && !(swap && old(hasReleasedSignature)))
      && (ok ==> log == old(log) + [Event.Reset, PcztStarted(header.value)] && SessionStartsWith(header.value))
    }

    twostate predicate ServesPacket(section: Section, last: bool, finish: bool, payload: seq<Field>, answer: Answer,
                                    ok: bool, chain: seq<Snapshot>)
      reads this
    {
      PacketServed(h, swap, section, last, finish, payload, answer, old(Snap()), chain, ok, Snap())
    }

    twostate predicate ServesInput(index: nat, empty: bool, signs: bool, ok: bool)
      reads this
    {
      && (ok <==> empty && signs && old(InputSignable(index)))
      && (ok ==> Signs(Transparent(index), old(pczt).inputs[index].path))
    }

    twostate predicate ServesAction(pool: Pool, index: nat, empty: bool, derives: bool, signs: bool, ok: bool)
      reads this
    {
      && (ok <==> && empty && signs && old(ActionSignable(pool, index))
                  && KeyAvailable(old(pczt), old(pczt).Bundle(pool).records[index].path, derives))
      && (ok ==> Signs(Action(pool, index), old(pczt).Bundle(pool).records[index].path))
    }

    // handle_apdu, packets of a PCZT.
    method HandlePacket(apdu: Apdu) returns (r: Result<(), Sw>, ghost chain: seq<Snapshot>)
      requires Valid() && IsPacket(apdu)
      modifies this
      ensures Sound() && (r.Ok? ==> Valid()) && Ends(r.Ok?)
      ensures Logs(swap, apdu, r.Ok?, old(m), old(log), log)
      ensures apdu.PcztTransparentInput? ==>
                ServesPacket(Inputs, apdu.last, false, apdu.payload, Answer(false, false), r.Ok?, chain)
      ensures apdu.PcztTransparentOutput? ==>
                ServesPacket(Outputs, apdu.last, false, apdu.payload, Answer(false, false), r.Ok?, chain)
      ensures apdu.PcztAction? ==>
                ServesPacket(Actions(apdu.pool), apdu.last, apdu.finish, apdu.payload, apdu.answer, r.Ok?, chain)
    {
      var section := if apdu.PcztTransparentInput? then Inputs
                     else if apdu.PcztTransparentOutput? then Outputs
                     else Actions(apdu.pool);
      var finish := apdu.PcztAction? && apdu.finish;
      var answer := if apdu.PcztAction? then apdu.answer else Answer(false, false);
      r, chain := HandlePcztSection(section, apdu.last, finish, apdu.payload, answer);
      PacketLogs(swap, apdu, section, finish, apdu.payload, answer, r.Ok?, old(m), old(log), log);
    }

    // handle_apdu, the other PCZT instructions.
    method HandlePczt(apdu: Apdu) returns (r: Result<(), Sw>)
      requires Valid() && IsPczt(apdu)
      modifies this
      ensures Sound() && (r.Ok? ==> Valid()) && Ends(r.Ok?)
      ensures Logs(swap, apdu, r.Ok?, old(m), old(log), log)
      ensures apdu.PcztHeader? ==> ServesHeader(apdu.header, r.Ok?)
      ensures apdu.PcztSignTransparent? ==> ServesInput(apdu.index, apdu.empty, apdu.signs, r.Ok?)
      ensures apdu.PcztSignAction? ==>
                ServesAction(apdu.pool, apdu.index, apdu.empty, apdu.derives, apdu.signs, r.Ok?)
      ensures apdu.PcztInvalid? ==> r.Err?
    {
      match apdu {
        case PcztHeader(header) =>
          r := HandlePcztHeader(header);
          HeaderLogs(swap, header, r.Ok?, old(m), old(log), log);
        case PcztSignTransparent(index, empty, signs) =>
          r := HandleSignTransparent(index, empty, signs);
          SignatureLogs(swap, apdu, Transparent(index), r.Ok?, old(m), old(log), log);
        case PcztSignAction(pool, index, empty, derives, signs) =>
          r := HandleSignAction(pool, index, empty, derives, signs);
          SignatureLogs(swap, apdu, Action(pool, index), r.Ok?, old(m), old(log), log);
        case PcztInvalid =>
          ResetPczt();
          r := Err(IncorrectData);
          InvalidLogs(swap, old(m), log);
      }
    }

    twostate predicate ServesTrustedInput(first: bool, fields: seq<LegacyField>, inputProcessed: bool, ok: bool)
      reads this
    {
      var start := if first then LegacyParser(TrustedInput, Start) else old(legacy);
      && (ok <==> && !old(PacketRefused(first)) && RoundAccepted(start, fields)
                  && (StateAfter(start, !first && old(signing).isTxParsedOnce, fields) == Parsed ==> inputProcessed))
      && (ok && first ==> RoundServed(true, fields, [Event.Reset], start, NEW_TX_INFO, NEW_SIGNING, NEW_LEGACY_OUTPUT))
      && (ok && !first ==> RoundServed(true, fields, [], start, old(txInfo), old(signing), old(legacyOutput)))
    }

    twostate predicate ServesHashInput(first: bool, continues: bool, fields: seq<LegacyField>, ok: bool)
      reads this
    {
      var restarts := first && !continues;
      if old(PacketRefused(restarts)) || (continues && (old(txInfo).isV6 || !old(signing).isTxParsedOnce)) then !ok
      else if restarts then
        RoundServed(ok, fields, [Event.Reset], LegacyParser(Signature, Start), NEW_TX_INFO, NEW_SIGNING,
                    NEW_LEGACY_OUTPUT)
      else
        RoundServed(ok, fields, [], if continues then LegacyParser(Signature, Start) else old(legacy), old(txInfo),
                    old(signing), old(legacyOutput))
    }

    twostate predicate ServesChange(path: Option<Path>, derived: bool, ok: bool)
      reads this
    {
      && (ok <==> old(OutputsExpected()) && path.Some? && Bip44Path(path.value, 1) && derived)
      && (ok ==> log == old(log) + [LegacyChange(path.value[2])] && txInfo.changeAccount == Some(path.value[2]))
    }

    twostate predicate ServesOutputs(outputs: seq<LegacyOutputField>, feesOk: bool, answer: Answer, ok: bool)
      reads this
    {
      var x := OutputsParsed(swap, old(legacyOutput), old(txInfo), outputs, |outputs|, feesOk, answer.exchange);
      && (ok <==> outputs != [] && old(OutputsExpected()) && x.Some?)
      && (ok ==> && legacyOutput == x.value.parser && txInfo == x.value.info
                 && log == old(log) + x.value.events + [LegacyParsed(None)])
    }

    twostate predicate ServesSign(data: SignData, ok: bool)
      reads this
    {
      if old(ReviewDue()) then
        && (ok <==> && !old(pczt).IsSessionActive() && !data.empty && data.header == Some(true)
                    && (swap || data.approve))
        && (ok ==> log == old(log) + [ReviewEvent(data)] && signing == old(signing).(isTxParsedOnce := true))
      else
        && (ok <==> old(SignsWith(data)))
        && (ok ==> CountsCompletion(LegacySigned(data.path.value, CompletesLegacy(old(signing)))))
    }

    // handle_apdu, packets of a legacy round.
    method HandleRound(apdu: Apdu) returns (r: Result<(), Sw>)
      requires Valid() && IsRound(apdu)
      modifies this
      ensures Sound() && (r.Ok? ==> Valid()) && Ends(r.Ok?)
      ensures Logs(swap, apdu, r.Ok?, old(m), old(log), log)
      ensures apdu.GetTrustedInput? ==> ServesTrustedInput(apdu.first, apdu.fields, apdu.inputProcessed, r.Ok?)
      ensures apdu.HashInputStart? ==> ServesHashInput(apdu.first, apdu.continueHashing, apdu.fields, r.Ok?)
    {
      match apdu {
        case GetTrustedInput(first, fields, processed) =>
          r := HandleGetTrustedInput(first, fields, processed);
          RoundLogs(swap, apdu, first, fields, r.Ok?, old(m), old(log), log);
        case HashInputStart(first, cont, fields) =>
          r := HandleHashInputStart(first, cont, fields);
          RoundLogs(swap, apdu, first && !cont, fields, r.Ok?, old(m), old(log), log);
      }
    }

    // handle_apdu, HASH_INPUT_FINALIZE_FULL.
    method HandleFinalize(apdu: Apdu) returns (r: Result<(), Sw>)
      requires Valid() && IsFinalize(apdu)
      modifies this
      ensures Sound() && (r.Ok? ==> Valid()) && Ends(r.Ok?)
      ensures Logs(swap, apdu, r.Ok?, old(m), old(log), log)
      ensures apdu.ChangeInfo? ==> ServesChange(apdu.path, apdu.derived, r.Ok?)
      ensures apdu.FinalizeFull? ==> ServesOutputs(apdu.outputs, apdu.feesOk, apdu.answer, r.Ok?)
    {
      match apdu {
        case ChangeInfo(path, derived) =>
          r := HandleChangeInfo(path, derived);
          ChangeLogs(swap, path, derived, r.Ok?, old(m), old(log), log);
        case FinalizeFull(outputs, feesOk, answer) =>
          r := HandleFinalizeFull(outputs, feesOk, answer);
          OutputsLogs(swap, outputs, feesOk, answer, r.Ok?, old(m), old(log), log);
      }
    }

    // handle_apdu, the other instructions.
    method HandleOther(apdu: Apdu) returns (r: Result<(), Sw>)
      requires Valid() && IsOther(apdu)
      modifies this
      ensures Sound() && (r.Ok? || apdu.Query? ==> Valid()) && Ends(r.Ok?)
      ensures Logs(swap, apdu, r.Ok?, old(m), old(log), log)
      ensures apdu.Query? ==> (r.Ok? <==> apdu.answered) && log == old(log)
      ensures apdu.HashSign? ==> ServesSign(apdu.data, r.Ok?)
    {
      match apdu {
        case Query(answered) =>
          r := if answered then Ok(()) else Err(IncorrectData);
          QueryLogs(swap, answered, old(m), log);
        case HashSign(data) =>
          r := HandleHashSign(data);
          HashSignLogs(swap, data, r.Ok?, old(m), old(log), log);
      }
    }

    // handle_apdu.
    method Handle(apdu: Apdu) returns (r: Result<(), Sw>, ghost chain: seq<Snapshot>)
      requires Valid()
      modifies this
      ensures Sound() && (r.Ok? || !IsTransaction(apdu) ==> Valid()) && Ends(r.Ok?)
      ensures Logs(swap, apdu, r.Ok?, old(m), old(log), log)
      ensures apdu.Query? ==> (r.Ok? <==> apdu.answered) && log == old(log)
      ensures apdu.GetTrustedInput? ==> ServesTrustedInput(apdu.first, apdu.fields, apdu.inputProcessed, r.Ok?)
      ensures apdu.HashInputStart? ==> ServesHashInput(apdu.first, apdu.continueHashing, apdu.fields, r.Ok?)
      ensures apdu.ChangeInfo? ==> ServesChange(apdu.path, apdu.derived, r.Ok?)
      ensures apdu.FinalizeFull? ==> ServesOutputs(apdu.outputs, apdu.feesOk, apdu.answer, r.Ok?)
      ensures apdu.HashSign? ==> ServesSign(apdu.data, r.Ok?)
      ensures apdu.PcztHeader? ==> ServesHeader(apdu.header, r.Ok?)
      ensures apdu.PcztTransparentInput? ==>
                ServesPacket(Inputs, apdu.last, false, apdu.payload, Answer(false, false), r.Ok?, chain)
      ensures apdu.PcztTransparentOutput? ==>
                ServesPacket(Outputs, apdu.last, false, apdu.payload, Answer(false, false), r.Ok?, chain)
      ensures apdu.PcztAction? ==>
                ServesPacket(Actions(apdu.pool), apdu.last, apdu.finish, apdu.payload, apdu.answer, r.Ok?, chain)
      ensures apdu.PcztSignTransparent? ==> ServesInput(apdu.index, apdu.empty, apdu.signs, r.Ok?)
      ensures apdu.PcztSignAction? ==>
                ServesAction(apdu.pool, apdu.index, apdu.empty, apdu.derives, apdu.signs, r.Ok?)
      ensures apdu.PcztInvalid? ==> r.Err?
    {
      chain := [];
      if IsPacket(apdu) {
        r, chain := HandlePacket(apdu);
      } else if IsRound(apdu) {
        r := HandleRound(apdu);
      } else if IsPczt(apdu) {
        r := HandlePczt(apdu);
      } else if IsFinalize(apdu) {
        r := HandleFinalize(apdu);
      } else {
        r := HandleOther(apdu);
      }
    }

    // One turn of the command loop: a failed transaction instruction resets the context.
    method Serve(apdu: Apdu) returns (ok: bool, finished: bool)
      requires Valid()
      modifies this
      ensures Logged() && (!(swap && (finished || !ok)) ==> Valid() && (swap ==> isFinished == finished))
      ensures Turn(swap, apdu, ok, old(m), old(log), log)
      ensures || m.completions == old(m).completions
              || (m.completions == old(m).completions + 1 && ok && finished && log != [] && Completes(log[|log| - 1]))
      ensures ok && !old(isFinished) && finished ==> m.completions == old(m).completions + 1
    {
      var r, chain := Handle(apdu);
      ok, finished := r.Ok?, isFinished;
      if IsTransaction(apdu) && r.Err? {
        ghost var served := log;
        Reset(TrustedInput);
        assert log[..|log| - 1] == served;
      }
    }

    // A run that goes on: every instruction so far had its turn, and in swap mode succeeded.
    ghost predicate Running(apdus: seq<Apdu>, statuses: seq<bool>, marks: seq<nat>)
      reads this
    {
      forall n {:trigger RunningAt(n, apdus, statuses, marks)} :: n == |statuses| ==>
        RunningAt(n, apdus, statuses, marks)
    }

    ghost predicate RunningAt(n: nat, apdus: seq<Apdu>, statuses: seq<bool>, marks: seq<nat>)
      reads this
    {
      && Valid() && |statuses| == n && Served(swap, apdus, statuses, log, ms, marks)
      && (swap ==> !isFinished && m.completions == 0 && forall i :: 0 <= i < n ==> statuses[i])
    }

    lemma RunStarts(apdus: seq<Apdu>)
      requires Valid() && log == [] && !isFinished && m.completions == 0
      ensures Running(apdus, [], [0])
    {
      OpenLog();
      NoTurn(swap, apdus, ms);
    }

    // The turn of the next instruction. In swap mode the run ends with it when it fails or
    // finishes the transaction.
    method TakeTurn(apdu: Apdu, ghost apdus: seq<Apdu>, ghost statuses: seq<bool>, ghost marks: seq<nat>)
      returns (ok: bool, finished: bool)
      requires Running(apdus, statuses, marks) && |statuses| < |apdus| && apdu == apdus[|statuses|]
      modifies this
      ensures if swap && (finished || !ok) then
                IsRun(swap, h, apdus, log, statuses + [ok], Some(ok), ms, marks + [|log|])
              else Running(apdus, statuses + [ok], marks + [|log|])
    {
      assert RunningAt(|statuses|, apdus, statuses, marks);
      OpenLog();
      ok, finished := Serve(apdu);
      OpenLog();
      NextTurn(swap, apdus, statuses, old(log), old(ms), marks, ok, log, ms);
      if swap && (finished || !ok) {
        RunEnds();
      }
    }

    // A run that was never ended.
    lemma RunGoesOn(apdus: seq<Apdu>, statuses: seq<bool>, marks: seq<nat>)
      requires Running(apdus, statuses, marks) && |statuses| == |apdus|
      ensures IsRun(swap, h, apdus, log, statuses, None, ms, marks)
    {
      assert RunningAt(|statuses|, apdus, statuses, marks);
      RunEnds();
    }

    // What a run leaves behind; at most its last event completes a transaction.
    lemma RunEnds()
      requires Logged()
      ensures Accepted(swap, log) && Hashed(h, log) && IsTrace(swap, log, ms)
      ensures m.completions == 0 || (m.completions == 1 && log != [] && Completes(log[|log| - 1])) ==>
                forall i :: 0 <= i < |log| && Completes(log[i]) ==> i == |log| - 1 && m.completions == 1
    {
      OpenLog();
      TraceAccepted(swap, log, ms);
      if m.completions == 0 || (m.completions == 1 && log != [] && Completes(log[|log| - 1])) {
        CompletionIsLast(swap, log, ms);
      }
    }
  }

  // What a run of the command loop is: its turns, and how it ends.
  ghost predicate IsRun(swap: bool, h: SignatureDigest.Blake2b256, apdus: seq<Apdu>, log: seq<Event>,
                        statuses: seq<bool>, exit: Option<bool>, ms: seq<Monitor>, marks: seq<nat>)
  {
    && Accepted(swap, log) && Hashed(h, log) && IsTrace(swap, log, ms)
    && Served(swap, apdus, statuses, log, ms, marks)
    && (exit == None ==> |statuses| == |apdus|) && (!swap ==> exit == None)
    && (swap ==> forall i :: 0 <= i < |statuses| && !statuses[i] ==> i == |statuses| - 1 && exit == Some(false))
    && (exit == Some(true) ==> log != [] && Completes(log[|log| - 1]) && statuses != [] && statuses[|statuses| - 1])
    && (swap ==> forall i :: 0 <= i < |log| && Completes(log[i]) ==> i == |log| - 1 && exit == Some(true))
  }

  /**
   normal_main over any sequence of instructions. The log of the run is accepted by the
   monitor, its hashes are those of its contents, and between two marks it is the turn of one
   instruction. Outside swap mode the loop never ends; in swap mode the first error ends the
   run with false, and the run returns true exactly with the signature that completes its
   transaction, the last event of the run.
   */
  method NormalMain(swap: bool, h: SignatureDigest.Blake2b256, apdus: seq<Apdu>)
    returns (log: seq<Event>, statuses: seq<bool>, exit: Option<bool>, ghost ms: seq<Monitor>, ghost marks: seq<nat>)
    ensures Accepted(swap, log) && Hashed(h, log) && IsTrace(swap, log, ms)
    ensures Served(swap, apdus, statuses, log, ms, marks)
    ensures |statuses| <= |apdus| && |marks| == |statuses| + 1 && |ms| == |log| + 1
    ensures forall i, k :: 0 <= i <= k < |marks| ==> marks[i] <= marks[k] <= |log|
    ensures forall i, j :: 0 <= i < |statuses| && marks[i] <= j < marks[i + 1] && log[j].Signed? ==>
              apdus[i].PcztSignTransparent? || apdus[i].PcztSignAction?
    ensures forall i, j :: 0 <= i < |statuses| && marks[i] <= j < marks[i + 1] && log[j].Signed? ==>
              log[j].slot == if apdus[i].PcztSignTransparent? then Transparent(apdus[i].index)
                             else Action(apdus[i].pool, apdus[i].index)
    ensures forall i :: 0 <= i < |statuses| && apdus[i].PcztSignTransparent? ==>
              (statuses[i] <==> && apdus[i].empty && apdus[i].signs
                                && SlotSignable(ms[marks[i]], Transparent(apdus[i].index)))
    ensures forall i :: 0 <= i < |statuses| && apdus[i].PcztSignAction? && apdus[i].derives ==>
              (statuses[i] <==> && apdus[i].empty && apdus[i].signs
                                && SlotSignable(ms[marks[i]], Action(apdus[i].pool, apdus[i].index)))
    ensures exit == None ==> |statuses| == |apdus|
    ensures !swap ==> exit == None
    ensures swap ==> forall i :: 0 <= i < |statuses| && !statuses[i] ==> i == |statuses| - 1 && exit == Some(false)
    ensures exit == Some(true) ==> log != [] && Completes(log[|log| - 1]) && statuses != [] && statuses[|statuses| - 1]
    ensures swap ==> forall i :: 0 <= i < |log| && Completes(log[i]) ==> i == |log| - 1 && exit == Some(true)
  {
    var ctx := new TxContext(swap, h);
    statuses, exit := [], None;
    marks := [0];
    ctx.RunStarts(apdus);
    for i := 0 to |apdus|
      invariant fresh(ctx) && ctx.swap == swap && ctx.h == h
      invariant |statuses| == i && exit == None && ctx.Running(apdus, statuses, marks)
    {
      var ok, isFinished := ctx.TakeTurn(apdus[i], apdus, statuses, marks);
      statuses, marks := statuses + [ok], marks + [|ctx.log|];
      if swap && (isFinished || !ok) {
        exit := Some(ok);
        break;
      }
    }
    if exit == None {
      ctx.RunGoesOn(apdus, statuses, marks);
    }
    log, ms := ctx.log, ctx.ms;
    RunAnswers(swap, apdus, statuses, log, ms, marks);
  }

  // The answer that counts in a mode.
  function Given(swap: bool, answer: Answer): Approval {
    if swap then Exchange(answer.exchange) else User(answer.user)
  }

  // In a run with at most one completion, and that by its last event, no other event completes.
  lemma CompletionIsLast(swap: bool, log: seq<Event>, ms: seq<Monitor>)
    requires IsTrace(swap, log, ms)
    requires ms[|log|].completions == 0 || (ms[|log|].completions == 1 && log != [] && Completes(log[|log| - 1]))
    ensures forall i :: 0 <= i < |log| && Completes(log[i]) ==> i == |log| - 1 && ms[|log|].completions == 1
  {
    CompletionsCounted(swap, log, ms, |log|);
    forall i | 0 <= i < |log| && Completes(log[i]) ensures i == |log| - 1 && ms[|log|].completions == 1 {
      NoCompletionBefore(log, i, |log|);
      if i < |log| - 1 { NoCompletionBefore(log, i, |log| - 1); }
    }
  }
}
