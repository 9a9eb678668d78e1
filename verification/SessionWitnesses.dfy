/**
 Runs of the session. At two of them it does less than its documentation says; the exact
 conditions are LegacyRuns.HiddenOutputReturnsExactly and PcztInvariant.InputsFinishedExactly.
 A third is a whole transaction, from its header to its signature.
 */
module SessionWitnesses {
  import opened Outcomes
  import opened Words
  import opened Paths
  import SignatureDigest
  import opened SignedContent
  import opened Transaction
  import opened SigningSpec
  import opened PcztState
  import opened PcztInvariant
  import opened FieldProofs
  import opened LegacyState
  import opened Instructions
  import opened SigningSession

  // ---------------------------------------------------------------- a change account declared twice

  // Two outputs, in two packets: the change first, then an external one.
  const CHANGE_PACKET := [OutputCount(2), LegacyOutputHead, LegacyOutputScript(true, ChangeScript)]
  const EXTERNAL_PACKET := [LegacyOutputHead, LegacyOutputScript(true, DisplayableScript)]

  lemma ChangePacket(t: TxInfo)
    requires t.changeAccount.Some? && !t.isChangeFound
    ensures OutputsParsed(false, NEW_LEGACY_OUTPUT, t, CHANGE_PACKET, 3, true, false)
            == Some(OutputRun(LegacyOutputParser(ParsingOutput, 2, 1, false), OutputAdded(t, true),
                              [LegacyOutputRecorded(t.changeAccount)]))
  {
    var o0 := NEW_LEGACY_OUTPUT;
    var o1 := LegacyOutputParser(ParsingOutput, 2, 0, false);
    var o2 := LegacyOutputParser(ProcessingOutputScript, 2, 0, false);
    OutputsNext(false, o0, t, CHANGE_PACKET, 0, true, false, OutputRun(o0, t, []), []);
    OutputsNext(false, o0, t, CHANGE_PACKET, 1, true, false, OutputRun(o1, t, []), []);
    OutputsNext(false, o0, t, CHANGE_PACKET, 2, true, false, OutputRun(o2, t, []), []);
    var recorded := [LegacyOutputRecorded(t.changeAccount)];
    assert ScriptParsed(false, o2, t, ChangeScript, true, false)
           == Some(OutputRun(LegacyOutputParser(ParsingOutput, 2, 1, false), OutputAdded(t, true), recorded));
    assert [] + recorded == recorded;
  }

  lemma OneVisible(outputs: seq<TxOutput>)
    requires outputs == [TxOutput(true)]
    ensures CountVisible(outputs + [TxOutput(false)]) == 1
  {
    CountVisibleSnoc([], TxOutput(true));
    assert [] + [TxOutput(true)] == outputs;
    CountVisibleSnoc(outputs, TxOutput(false));
  }

  lemma ExternalPacket(t: TxInfo)
    requires t.outputs == [TxOutput(true)]
    ensures OutputsParsed(false, LegacyOutputParser(ParsingOutput, 2, 1, false), t, EXTERNAL_PACKET, 2, true, false)
            == Some(OutputRun(LegacyOutputParser(OutputProcessingDone, 2, 2, false), OutputAdded(t, false),
                              [LegacyOutputRecorded(None), LegacyOutputsDone(false)]))
  {
    var o := LegacyOutputParser(ParsingOutput, 2, 1, false);
    var o1 := LegacyOutputParser(ProcessingOutputScript, 2, 1, false);
    OneVisible(t.outputs);
    OutputsNext(false, o, t, EXTERNAL_PACKET, 0, true, false, OutputRun(o, t, []), []);
    OutputsNext(false, o, t, EXTERNAL_PACKET, 1, true, false, OutputRun(o1, t, []), []);
    var recorded := [LegacyOutputRecorded(None), LegacyOutputsDone(false)];
    assert ScriptParsed(false, o1, t, DisplayableScript, true, false)
           == Some(OutputRun(LegacyOutputParser(OutputProcessingDone, 2, 2, false), OutputAdded(t, false), recorded));
    assert [] + recorded == recorded;
  }

  // What the host sees accepted: an output is hidden under account a, account b is
  // declared after it, and the signature is released under b.
  function RedeclaredLog(a: u32, b: u32, path: Path): seq<Event> {
    [Event.Reset, LegacyParsed(Some(0))]
    + [LegacyChange(a), LegacyOutputRecorded(Some(a)), LegacyParsed(None)]
    + [LegacyChange(b), LegacyOutputRecorded(None), LegacyOutputsDone(false), LegacyParsed(None)]
    + [LegacyReviewed(User(true), 1), LegacyParsed(None), LegacySigned(path, true)]
  }

  // A change declaration and one packet of outputs.
  method Declare(ctx: TxContext, path: Path, packet: seq<LegacyOutputField>, ghost run: OutputRun)
    requires ctx.Valid() && ctx.m.kind == Legacy && ctx.OutputsExpected() && !ctx.swap
    requires Bip44Path(path, 1) && packet != []
    requires var t := ctx.txInfo.(changeAccount := Some(path[2]));
             OutputsParsed(false, ctx.legacyOutput, t, packet, |packet|, true, false) == Some(run)
    modifies ctx`legacyOutput, ctx`txInfo, ctx`log, ctx`m, ctx`ms
    ensures ctx.Valid() && ctx.m.kind == Legacy && ctx.legacyOutput == run.parser && ctx.txInfo == run.info
    ensures ctx.log == old(ctx.log) + ([LegacyChange(path[2])] + run.events + [LegacyParsed(None)])
  {
    var r := ctx.HandleChangeInfo(Some(path), true);
    r := ctx.HandleFinalizeFull(packet, true, Answer(false, false));
  }

  // HASH_INPUT_START for a transaction without transparent inputs, which its header is.
  method StartEmpty(ctx: TxContext)
    requires ctx.Valid() && !ctx.swap
    modifies ctx
    ensures ctx.Valid() && ctx.m.kind == Legacy && ctx.log == old(ctx.log) + [Event.Reset, LegacyParsed(Some(0))]
    ensures ctx.legacy == LegacyParser(Signature, PresignReady) && ctx.legacyOutput == NEW_LEGACY_OUTPUT
    ensures ctx.txInfo == NEW_TX_INFO && ctx.signing == NEW_SIGNING && !ctx.isExtraHeaderDataSet
    ensures ctx.isFinished ==> old(ctx.isFinished)
  {
    var r := ctx.HandleHashInputStart(true, false, [Header(V5, 0)]);
  }

  // HASH_INPUT_START, then both outputs, each after its own change declaration.
  method SendOutputs(ctx: TxContext, a: Path, b: Path)
    requires ctx.Valid() && !ctx.swap && !ctx.isFinished && Bip44Path(a, 1) && Bip44Path(b, 1)
    modifies ctx
    ensures ctx.Valid() && ctx.m.kind == Legacy
    ensures ctx.log == old(ctx.log) + [Event.Reset, LegacyParsed(Some(0))]
                       + [LegacyChange(a[2]), LegacyOutputRecorded(Some(a[2])), LegacyParsed(None)]
                       + [LegacyChange(b[2]), LegacyOutputRecorded(None), LegacyOutputsDone(false), LegacyParsed(None)]
    ensures ctx.ReviewDue() && !ctx.isFinished && CountVisible(ctx.txInfo.outputs) == 1 && !ctx.txInfo.isV6
    ensures ctx.txInfo.changeAccount == Some(b[2]) && ctx.signing == NEW_SIGNING
  {
    StartEmpty(ctx);
    var t := NEW_TX_INFO.(changeAccount := Some(a[2]));
    ChangePacket(t);
    var changed := OutputRun(LegacyOutputParser(ParsingOutput, 2, 1, false), OutputAdded(t, true),
                             [LegacyOutputRecorded(Some(a[2]))]);
    Declare(ctx, a, CHANGE_PACKET, changed);
    var u := OutputAdded(t, true).(changeAccount := Some(b[2]));
    ExternalPacket(u);
    OneVisible(u.outputs);
    var sent := OutputRun(LegacyOutputParser(OutputProcessingDone, 2, 2, false), OutputAdded(u, false),
                          [LegacyOutputRecorded(None), LegacyOutputsDone(false)]);
    Declare(ctx, b, EXTERNAL_PACKET, sent);
  }

  // The review, the signing round and the signature.
  method SignReviewed(ctx: TxContext, path: Path)
    requires ctx.Valid() && ctx.m.kind == Legacy && !ctx.swap && ctx.ReviewDue() && !ctx.isFinished
    requires CountVisible(ctx.txInfo.outputs) == 1 && !ctx.txInfo.isV6 && ctx.signing == NEW_SIGNING
    requires SigningPath(path) && ctx.txInfo.changeAccount == DerivationAccount(path)
    modifies ctx
    ensures ctx.Valid()
    ensures ctx.log == old(ctx.log) + [LegacyReviewed(User(true), 1), LegacyParsed(None), LegacySigned(path, true)]
  {
    var r := ctx.HandleHashSign(SignData(false, Some(true), None, true, false));
    r := ctx.HandleHashInputStart(false, true, [Header(V5, 0)]);
    r := ctx.HandleHashSign(SignData(false, None, Some(path), false, true));
  }

  /**
   The run that keeps an output off the review and does not return it: whatever two change
   paths a and b and signing path of b's account the host picks, all eight instructions
   succeed, the output hidden under a's account stays hidden, and the signature is
   released under b's.
   */
  method RedeclaredChange(h: SignatureDigest.Blake2b256, a: Path, b: Path, path: Path) returns (log: seq<Event>)
    requires Bip44Path(a, 1) && Bip44Path(b, 1) && SigningPath(path) && DerivationAccount(path) == DerivationAccount(b)
    ensures log == RedeclaredLog(a[2], b[2], path) && Accepted(false, log)
    ensures log[3].hiddenFor == DerivationAccount(a) && DerivationAccount(log[11].path) == DerivationAccount(b)
  {
    var ctx := new TxContext(false, h);
    SendOutputs(ctx, a, b);
    SignReviewed(ctx, path);
    log := ctx.log;
    ctx.RunEnds();
  }

  // ---------------------------------------------------------------- inputs reported unfinished

  /**
   A PCZT without transparent inputs whose first output amount has just been read: the
   inputs are all in, and yet an empty last packet of inputs is refused as incomplete.
   */
  method InputsReportedUnfinished(h: SignatureDigest.Blake2b256, g: Global, amount: nat)
    returns (r: Result<(), Sw>, p: PcztParser)
    requires amount <= MAX_MONEY
    ensures InputsRead(p) && p.state == WaitOutputScript && r == Err(WrongApduLength)
  {
    var ctx := new TxContext(true, h);
    ctx.StartSession(g);
    r := ctx.InputsStart(Count(0), false);
    r := ctx.OutputsStart(Count(1), false);
    r := ctx.OutputHead(PcztState.OutputHead(amount), false);
    p := ctx.pczt;
    Open(h, p, ctx.txInfo, ctx.signing, ctx.draft, ctx.m);
    InputsFinishedExactly(p, ctx.txInfo, ctx.signing);
    assert ctx.Valid();
    ghost var chain;
    r, chain := ctx.HandlePcztSection(Inputs, true, false, [], Answer(false, false));
  }

  // ---------------------------------------------------------------- a transaction of one shielded spend

  // A V5 header, no transparent data, and an Orchard bundle of one action.
  method OpenBundle(ctx: TxContext, g: Global)
    requires ctx.Valid() && ctx.m.kind == Idle && !g.isV6
    modifies ctx
    ensures ctx.Live() && ctx.log == old(ctx.log) + [PcztStarted(g)] && ctx.pczt.state == Shielded(Orchard, WaitAction)
    ensures ctx.pczt.orchard == Bundle.Bundle(true, 1, [], Tally(0, 0), 0, Sums(0, 0)) && !ctx.pczt.ironwood.present
    ensures ctx.pczt.ironwood.valueBalance == 0 && ctx.pczt.keyPath == None && ctx.pczt.totalOutputAmount == 0
    ensures ctx.txInfo.totalAmount == 0 && ctx.txInfo.outputs == [] && !ctx.txInfo.isV6 && !ctx.txInfo.isChangeFound
            && ctx.txInfo.changeAccount == None
  {
    ctx.StartSession(g);
    var r := ctx.InputsStart(Count(0), false);
    r := ctx.OutputsStart(Count(0), false);
    Open(ctx.h, ctx.pczt, ctx.txInfo, ctx.signing, ctx.draft, ctx.m);
    r := ctx.ActionsStart(Orchard, Count(1), false, Answer(true, true));
  }

  // The fields of the action up to its output metadata.
  method ReadAction(ctx: TxContext, spend: nat, path: Path)
    requires ctx.Live() && ctx.pczt.state == Shielded(Orchard, WaitAction) && ctx.pczt.keyPath == None
    requires spend <= MAX_MONEY && SigningPath(path)
    modifies ctx
    ensures ctx.Live() && ctx.log == old(ctx.log) + [ActionHeadRead(Orchard, spend)]
    ensures ctx.pczt == old(ctx.pczt).(currentSpend := spend, currentPath := Some(path), keyPath := Some(path),
                                       state := Shielded(Orchard, WaitOutputMetadata))
    ensures ctx.txInfo == old(ctx.txInfo) && ctx.draft == old(ctx.draft) && ctx.signing == old(ctx.signing)
  {
    var r := ctx.ActionHead(Orchard, PcztState.ActionHead(spend), false);
    r := ctx.Zip32Derivation(Orchard, PcztState.Zip32Derivation(path, true, true), false);
    r := ctx.ActionOutput(Orchard, PcztState.ActionOutput, false);
    r := ctx.CiphertextPart(Orchard, Ciphertext(true), false, ProcessEncCiphertext, WaitOutCiphertextLen);
    r := ctx.CiphertextPart(Orchard, Ciphertext(true), false, ProcessOutCiphertext, WaitOutputMetadata);
  }

  // An output recovered by the outgoing key.
  method EndAction(ctx: TxContext, output: nat)
    requires ctx.Live() && ctx.pczt.state == Shielded(Orchard, WaitOutputMetadata) && ctx.pczt.currentPath.Some?
    requires ctx.pczt.orchard == Bundle.Bundle(true, 1, [], Tally(0, 0), 0, Sums(0, 0)) && !ctx.pczt.ironwood.present
    requires output <= MAX_MONEY && ctx.pczt.currentSpend <= MAX_MONEY
    modifies ctx
    ensures ctx.Live() && ctx.pczt.state == Shielded(Orchard, WaitTrailer)
    ensures var spend, path := old(ctx.pczt).currentSpend, old(ctx.pczt).currentPath.value;
            && ctx.log == old(ctx.log) + [ActionRecorded(Orchard, path, spend, output, Shown)]
            && ctx.pczt.orchard.records == [Record(path, spend != 0, false)]
            && ctx.pczt.orchard.sums == Sums(spend, output) && ctx.pczt.ironwood == old(ctx.pczt).ironwood
            && ctx.pczt.totalOutputAmount == old(ctx.pczt).totalOutputAmount
    ensures ctx.txInfo == old(ctx.txInfo).(outputs := old(ctx.txInfo).outputs + [TxOutput(false)])
  {
    var r := ctx.FinishAction(Orchard, OutputMetadata(output, true, External(true)), false);
  }

  // All of that, up to the trailer.
  method SendAction(ctx: TxContext, g: Global, spend: nat, output: nat, path: Path)
    requires ctx.Valid() && ctx.m.kind == Idle && !g.isV6
    requires 0 < spend <= MAX_MONEY && output <= MAX_MONEY && SigningPath(path)
    modifies ctx
    ensures ctx.Live() && ctx.pczt.state == Shielded(Orchard, WaitTrailer) && !ctx.txInfo.isV6
    ensures ctx.log == old(ctx.log)
              + [PcztStarted(g), ActionHeadRead(Orchard, spend), ActionRecorded(Orchard, path, spend, output, Shown)]
    ensures ctx.pczt.orchard.records == [Record(path, true, false)] && ctx.pczt.orchard.sums == Sums(spend, output)
    ensures ctx.pczt.ironwood.valueBalance == 0 && !ctx.pczt.ironwood.present && ctx.pczt.totalOutputAmount == 0
    ensures ctx.txInfo.totalAmount == 0 && ctx.txInfo.outputs == [TxOutput(false)] && ctx.txInfo.changeAccount == None
  {
    OpenBundle(ctx, g);
    ReadAction(ctx, spend, path);
    EndAction(ctx, output);
  }

  // The trailer with its balance, and the review.
  method CloseBundle(ctx: TxContext, digest: SignatureDigest.Digest) returns (ghost review: Event)
    requires ctx.Live() && ctx.pczt.state == Shielded(Orchard, WaitTrailer) && !ctx.txInfo.isV6
    requires var sums := ctx.pczt.orchard.sums; sums.output <= sums.spend <= MAX_MONEY
    requires ctx.pczt.ironwood.valueBalance == 0 && !ctx.pczt.ironwood.present && ctx.pczt.totalOutputAmount == 0
    requires ctx.txInfo.totalAmount == 0 && ctx.txInfo.outputs == [TxOutput(false)] && ctx.txInfo.changeAccount == None
    modifies ctx
    ensures ctx.Live() && ctx.pczt.state == Shielded(Orchard, ActionsDone) && ctx.pczt.outputsReviewed
    ensures ctx.pczt.orchard.records == old(ctx.pczt).orchard.records && !ctx.pczt.ironwood.present
    ensures ctx.txInfo.changeAccount == None && ctx.log == old(ctx.log) + [review]
    ensures var sums := old(ctx.pczt).orchard.sums;
            review.Reviewed? && review.fee == sums.spend - sums.output
              && review.shown == CountVisible([TxOutput(false)])
  {
    var sums := ctx.pczt.orchard.sums;
    ghost var x := ctx.Snap();
    var r := ctx.ParseTrailer(Orchard, Trailer(sums.spend - sums.output, 0, digest), false, Answer(true, true));
    CloseKeepsRecords(ctx.swap, x, Orchard, sums.spend - sums.output, ctx.Snap());
    review := ctx.log[|x.log|];
  }

  // finish_pczt and the signature of the action.
  method FinishAndSign(ctx: TxContext, path: Path) returns (ghost signature: Event)
    requires ctx.Live() && ctx.pczt.state == Shielded(Orchard, ActionsDone) && ctx.pczt.outputsReviewed
    requires ctx.pczt.orchard.records == [Record(path, true, false)] && !ctx.pczt.ironwood.present
    requires ctx.txInfo.changeAccount == None
    modifies ctx
    ensures ctx.Valid() && ctx.log == old(ctx.log) + [Finished, signature]
    ensures signature.Signed? && signature.slot == Action(Orchard, 0) && signature.path == path
  {
    var r := ctx.FinishPczt();
    ghost var finished := ctx.log;
    ctx.ActionAwaits(Orchard, 0);
    r := ctx.HandleSignAction(Orchard, 0, true, true, true);
    signature := ctx.log[|finished|];
  }

  // The whole transaction.
  method SpendOne(ctx: TxContext, g: Global, spend: nat, output: nat, path: Path, digest: SignatureDigest.Digest)
    returns (ghost review: Event, ghost signature: Event)
    requires ctx.Valid() && ctx.m.kind == Idle && !g.isV6
    requires 0 < spend <= MAX_MONEY && output <= spend && SigningPath(path)
    modifies ctx
    ensures ctx.Valid() && ctx.log == old(ctx.log) + SpendLog(g, spend, output, path, review, signature)
    ensures review.Reviewed? && review.fee == spend - output && review.shown == 1
    ensures signature.Signed? && signature.slot == Action(Orchard, 0) && signature.path == path
  {
    SendAction(ctx, g, spend, output, path);
    OneShown();
    review := CloseBundle(ctx, digest);
    signature := FinishAndSign(ctx, path);
  }

  function SpendLog(g: Global, spend: nat, output: nat, path: Path, review: Event, signature: Event): seq<Event> {
    [PcztStarted(g), ActionHeadRead(Orchard, spend), ActionRecorded(Orchard, path, spend, output, Shown)]
    + [review] + [Finished, signature]
  }

  /**
   A transaction that spends one Orchard note and pays an external address is signed, in
   either mode, whatever it spends and pays: the review shows its one output and the fee that
   is left, and the signature released is that of the action, under its path.
   */
  method OrchardOnlySpend(swap: bool, h: SignatureDigest.Blake2b256, g: Global, spend: nat, output: nat, path: Path,
                          digest: SignatureDigest.Digest)
    returns (log: seq<Event>)
    requires !g.isV6 && 0 < spend <= MAX_MONEY && output <= spend && SigningPath(path)
    ensures Accepted(swap, log) && |log| == 6 && log == SpendLog(g, spend, output, path, log[3], log[5])
    ensures log[3].Reviewed? && log[3].fee == spend - output && log[3].shown == 1
    ensures log[5].Signed? && log[5].slot == Action(Orchard, 0) && log[5].path == path
  {
    var ctx := new TxContext(swap, h);
    ghost var review, signature := SpendOne(ctx, g, spend, output, path, digest);
    log := ctx.log;
    ctx.RunEnds();
    assert log == SpendLog(g, spend, output, path, review, signature);
  }

  lemma OneShown()
    ensures CountVisible([TxOutput(false)]) == 1
  {
    CountVisibleSnoc([], TxOutput(false));
    assert [] + [TxOutput(false)] == [TxOutput(false)];
  }
}
