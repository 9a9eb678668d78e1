/**
 What acceptance by the monitor says of where the recorded data came from: every
 transparent input, transparent output and shielded action on record is what was read of
 it, the header and the fee that were approved are those of what is signed, and the user
 was shown every output that is not hidden
 (src/parser/pczt/transparent.rs, orchard.rs, ironwood.rs, common.rs).
 */
module ReadingRuns {
  import opened Outcomes
  import opened Words
  import opened Bytes
  import opened SignatureDigest
  import opened SignedContent
  import opened SigningSpec

  // ---------------------------------------------------------------- inputs and outputs

  predicate StartsReading(e: Event) { e.InputValue? || e.OutputValue? }
  predicate EndsReading(e: Event) { e.InputRecorded? || e.OutputRecorded? }

  // The reading that starts with an event.
  function ReadingOf(e: Event): Reading
    requires StartsReading(e)
  {
    if e.InputValue? then InputReading(e.prevout, e.sequence, e.amount, []) else OutputReading(e.amount, [])
  }

  lemma StepReading(log: seq<Event>, ms: seq<Monitor>, i: nat)
    requires i < |log| && |ms| == |log| + 1 && StepAt(log, ms, i) && log[i] != Reset
    ensures ms[i + 1].reading ==
              if StartsReading(log[i]) then Some(ReadingOf(log[i]))
              else if EndsReading(log[i]) then None
              else if log[i].ScriptRead? then ScriptGrown(ms[i].reading, log[i].bytes)
              else ms[i].reading
    ensures StartsReading(log[i]) ==> ms[i].reading == None
  {
    match log[i]
    case InputValue(_, _, _) =>
    case OutputValue(_) =>
    case InputRecorded(_, _) =>
    case OutputRecorded(_, _) =>
    case ScriptRead(_) =>
    case _ =>
  }

  lemma StepRecords(log: seq<Event>, ms: seq<Monitor>, i: nat)
    requires i < |log| && |ms| == |log| + 1 && StepAt(log, ms, i)
    ensures log[i].InputRecorded? ==> InputAsRead(ms[i].reading, log[i].txin)
    ensures log[i].OutputRecorded? ==> OutputAsRead(ms[i].reading, log[i].txout)
    ensures log[i].ActionRecorded? ==> ms[i].head == Some(Head(log[i].pool, log[i].spend))
    ensures log[i].Reviewed? ==>
              && ms[i].reading == None && ms[i].header.Some?
              && HeaderTaken(log[i].content.tx, ms[i].header.value)
  {
    match log[i]
    case InputRecorded(_, _) =>
    case OutputRecorded(_, _) =>
    case ActionRecorded(_, _, _, _, _) =>
    case Reviewed(_, _, _, _) =>
    case _ =>
  }

  // The script parts read between i and j, put together.
  ghost function ScriptBetween(log: seq<Event>, i: nat, j: nat): seq<u8>
    requires i <= j <= |log|
    decreases j
  {
    if i == j then [] else ScriptBetween(log, i, j - 1) + if log[j - 1].ScriptRead? then log[j - 1].bytes else []
  }

  // The reading that started at i is the one in progress at j.
  ghost predicate ReadSince(log: seq<Event>, i: nat, j: nat) {
    && Earlier(log, i, j) && j <= |log| && StartsReading(log[i])
    && forall k :: i < k < j ==> !StartsReading(log[k]) && !EndsReading(log[k])
  }

  function WithScript(r: Reading, script: seq<u8>): Reading {
    match r
    case InputReading(prevout, sequence, amount, _) => InputReading(prevout, sequence, amount, script)
    case OutputReading(amount, _) => OutputReading(amount, script)
  }

  lemma {:induction false} ReadingHasCause(swap: bool, log: seq<Event>, ms: seq<Monitor>, j: nat) returns (i: nat)
    requires IsTrace(swap, log, ms) && j <= |log| && ms[j].reading.Some?
    ensures ReadSince(log, i, j)
    ensures ms[j].reading == Some(WithScript(ReadingOf(log[i]), ScriptBetween(log, i + 1, j)))
  {
    if j == 0 || log[j - 1] == Reset {
      AtEpochStart(swap, log, ms, j);
    } else {
      StepReading(log, ms, j - 1);
      if StartsReading(log[j - 1]) {
        i := j - 1;
      } else {
        i := ReadingHasCause(swap, log, ms, j - 1);
        var script := ScriptBetween(log, i + 1, j - 1);
        assert script + [] == script;
      }
    }
  }

  /**
   The record of a transparent input is the head and the script that were read for it: the
   outpoint, the sequence number, the amount in eight little-endian bytes, and the parts of
   the script in order. The amount is the one that entered the fee.
   */
  lemma InputRecordIsWhatWasRead(swap: bool, log: seq<Event>, j: nat) returns (i: nat)
    requires Accepted(swap, log) && j < |log| && log[j].InputRecorded?
    ensures ReadSince(log, i, j) && log[i].InputValue?
    ensures var txin := log[j].txin;
            && txin.prevout == log[i].prevout && txin.sequence == log[i].sequence
            && |txin.amount| == 8 && BytesVal(txin.amount) == log[i].amount
            && txin.scriptPubkey == ScriptBetween(log, i + 1, j)
  {
    var ms := Trace(swap, log);
    StepRecords(log, ms, j);
    i := ReadingHasCause(swap, log, ms, j);
  }

  /** The record of a transparent output is the amount and the script that were read for it. */
  lemma OutputRecordIsWhatWasRead(swap: bool, log: seq<Event>, j: nat) returns (i: nat)
    requires Accepted(swap, log) && j < |log| && log[j].OutputRecorded?
    ensures ReadSince(log, i, j) && log[i].OutputValue?
    ensures var txout := log[j].txout;
            && |txout.amount| == 8 && BytesVal(txout.amount) == log[i].amount
            && txout.scriptPubkey == ScriptBetween(log, i + 1, j)
  {
    var ms := Trace(swap, log);
    StepRecords(log, ms, j);
    i := ReadingHasCause(swap, log, ms, j);
  }

  // ---------------------------------------------------------------- actions

  lemma StepHead(log: seq<Event>, ms: seq<Monitor>, i: nat)
    requires i < |log| && |ms| == |log| + 1 && StepAt(log, ms, i) && log[i] != Reset
    ensures ms[i + 1].head ==
              if log[i].ActionHeadRead? then Some(Head(log[i].pool, log[i].spend))
              else if log[i].ActionRecorded? then None
              else ms[i].head
  {
    match log[i]
    case ActionHeadRead(_, _) =>
    case ActionRecorded(_, _, _, _, _) =>
    case _ =>
  }

  // The action whose head was read at i is the one in progress at j.
  ghost predicate HeadSince(log: seq<Event>, i: nat, j: nat) {
    && Earlier(log, i, j) && j <= |log| && log[i].ActionHeadRead?
    && forall k :: i < k < j ==> !log[k].ActionHeadRead? && !log[k].ActionRecorded?
  }

  lemma {:induction false} HeadHasCause(swap: bool, log: seq<Event>, ms: seq<Monitor>, j: nat) returns (i: nat)
    requires IsTrace(swap, log, ms) && j <= |log| && ms[j].head.Some?
    ensures HeadSince(log, i, j) && ms[j].head == Some(Head(log[i].pool, log[i].spend))
  {
    if j == 0 || log[j - 1] == Reset {
      AtEpochStart(swap, log, ms, j);
    } else {
      StepHead(log, ms, j - 1);
      if log[j - 1].ActionHeadRead? {
        i := j - 1;
      } else {
        i := HeadHasCause(swap, log, ms, j - 1);
      }
    }
  }

  /**
   The spend value an action is recorded with is the one in the head that was read for it, in
   its pool; an output that is left out of the review as a dummy is worth nothing.
   */
  lemma ActionSpendIsWhatWasRead(swap: bool, log: seq<Event>, j: nat) returns (i: nat)
    requires Accepted(swap, log) && j < |log| && log[j].ActionRecorded?
    ensures HeadSince(log, i, j) && log[i].pool == log[j].pool && log[i].spend == log[j].spend
    ensures log[j].kind == Dummy ==> log[j].output == 0
  {
    var ms := Trace(swap, log);
    StepRecords(log, ms, j);
    i := HeadHasCause(swap, log, ms, j);
  }

  // ---------------------------------------------------------------- header

  lemma StepHeader(log: seq<Event>, ms: seq<Monitor>, i: nat)
    requires i < |log| && |ms| == |log| + 1 && StepAt(log, ms, i) && log[i] != Reset
    ensures ms[i + 1].header == if log[i].PcztStarted? then Some(log[i].header) else ms[i].header
  {
    match log[i]
    case PcztStarted(_) =>
    case _ =>
  }

  lemma {:induction false} HeaderHasCause(swap: bool, log: seq<Event>, ms: seq<Monitor>, j: nat) returns (i: nat)
    requires IsTrace(swap, log, ms) && j <= |log| && ms[j].header.Some?
    ensures Earlier(log, i, j) && log[i].PcztStarted? && ms[j].header == Some(log[i].header)
  {
    if j == 0 || log[j - 1] == Reset {
      AtEpochStart(swap, log, ms, j);
    } else {
      StepHeader(log, ms, j - 1);
      if log[j - 1].PcztStarted? {
        i := j - 1;
      } else {
        i := HeaderHasCause(swap, log, ms, j - 1);
      }
    }
  }

  /** What is approved, and signed, has the version, branch, locktime and expiry height of the PCZT's header. */
  lemma ReviewedHeaderWasRead(swap: bool, log: seq<Event>, j: nat) returns (i: nat)
    requires Accepted(swap, log) && j < |log| && log[j].Reviewed?
    ensures Earlier(log, i, j) && log[i].PcztStarted?
    ensures var t, g := log[j].content.tx, log[i].header;
            && t.isV6 == g.isV6 && t.txVersion == SignatureDigest.V5
            && t.branchId == g.branchId && t.branchIdRaw == g.branchId
            && t.locktime == g.locktime && t.expiryHeight == g.expiryHeight
  {
    var ms := Trace(swap, log);
    StepRecords(log, ms, j);
    i := HeaderHasCause(swap, log, ms, j);
  }

  // ---------------------------------------------------------------- the fee of the signed content

  ghost function InputsTotal(ins: seq<TransparentInput>): nat {
    if ins == [] then 0 else InputsTotal(ins[..|ins| - 1]) + BytesVal(ins[|ins| - 1].amount)
  }

  ghost function OutputsTotal(outs: seq<TransparentOutput>): nat {
    if outs == [] then 0 else OutputsTotal(outs[..|outs| - 1]) + BytesVal(outs[|outs| - 1].amount)
  }

  // Spends less outputs of the shielded actions between i and j.
  ghost function ShieldedNet(log: seq<Event>, i: nat, j: nat): int
    requires i <= j <= |log|
    decreases j
  {
    if i == j then 0
    else ShieldedNet(log, i, j - 1) + if log[j - 1].ActionRecorded? then log[j - 1].spend - log[j - 1].output else 0
  }

  // What is being read has entered the balance already.
  function Pending(r: Option<Reading>): int {
    match r
    case None => 0
    case Some(InputReading(_, _, amount, _)) => amount
    case Some(OutputReading(amount, _)) => 0 - amount
  }

  lemma TotalsSnoc(ins: seq<TransparentInput>, i: TransparentInput, outs: seq<TransparentOutput>, o: TransparentOutput)
    ensures InputsTotal(ins + [i]) == InputsTotal(ins) + BytesVal(i.amount)
    ensures OutputsTotal(outs + [o]) == OutputsTotal(outs) + BytesVal(o.amount)
  {
    assert (ins + [i])[..|ins|] == ins && (outs + [o])[..|outs|] == outs;
  }

  ghost predicate BalanceIs(m: Monitor, shielded: int) {
    m.balance == InputsTotal(m.txins) - OutputsTotal(m.txouts) + Pending(m.reading) + shielded
  }

  lemma InputTotals(log: seq<Event>, ms: seq<Monitor>, i: nat, shielded: int)
    requires i < |log| && |ms| == |log| + 1 && StepAt(log, ms, i) && BalanceIs(ms[i], shielded)
    requires log[i].InputRecorded?
    ensures BalanceIs(ms[i + 1], shielded)
  {
    TotalsSnoc(ms[i].txins, log[i].txin, [], TransparentOutput([], []));
  }

  lemma OutputTotals(log: seq<Event>, ms: seq<Monitor>, i: nat, shielded: int)
    requires i < |log| && |ms| == |log| + 1 && StepAt(log, ms, i) && BalanceIs(ms[i], shielded)
    requires log[i].OutputRecorded?
    ensures BalanceIs(ms[i + 1], shielded)
  {
    TotalsSnoc([], TransparentInput([], [], [], 0), ms[i].txouts, log[i].txout);
  }

  lemma OtherTotals(log: seq<Event>, ms: seq<Monitor>, i: nat, shielded: int)
    requires i < |log| && |ms| == |log| + 1 && StepAt(log, ms, i) && BalanceIs(ms[i], shielded)
    requires log[i] != Reset && !EndsReading(log[i])
    ensures BalanceIs(ms[i + 1], shielded + if log[i].ActionRecorded? then log[i].spend - log[i].output else 0)
  {
    match log[i]
    case InputValue(_, _, _) =>
    case OutputValue(_) =>
    case ScriptRead(_) =>
    case ActionRecorded(_, _, _, _, _) =>
    case _ =>
  }

  lemma {:induction false} BalanceOfContent(swap: bool, log: seq<Event>, ms: seq<Monitor>, s: nat, j: nat)
    requires IsTrace(swap, log, ms) && EpochStart(log, s, j)
    ensures BalanceIs(ms[j], ShieldedNet(log, s, j))
    decreases j
  {
    if s == j {
      AtEpochStart(swap, log, ms, s);
    } else {
      BalanceOfContent(swap, log, ms, s, j - 1);
      var shielded := ShieldedNet(log, s, j - 1);
      if log[j - 1].InputRecorded? {
        InputTotals(log, ms, j - 1, shielded);
      } else if log[j - 1].OutputRecorded? {
        OutputTotals(log, ms, j - 1, shielded);
      } else {
        OtherTotals(log, ms, j - 1, shielded);
      }
    }
  }

  /**
   The fee approved is that of what is signed: the amounts of the signed inputs, less the
   amounts of the signed outputs, plus what the shielded actions spend less what they create.
   */
  lemma FeeIsOfContent(swap: bool, log: seq<Event>, s: nat, j: nat)
    requires Accepted(swap, log) && j < |log| && log[j].Reviewed? && EpochStart(log, s, j)
    ensures log[j].fee == InputsTotal(log[j].content.inputs) - OutputsTotal(log[j].content.outputs)
            + ShieldedNet(log, s, j)
  {
    var ms := Trace(swap, log);
    BalanceOfContent(swap, log, ms, s, j);
    StepBalance(log, ms, j);
    StepRecords(log, ms, j);
    ReviewedContentWasRecorded(swap, log, s, j);
    ListsAreEvents(swap, log, ms, s, j);
  }

  // ---------------------------------------------------------------- what the user sees

  // Outputs recorded between i and j for the review: transparent, shielded and legacy ones.
  ghost function OutputsBetween(log: seq<Event>, i: nat, j: nat): nat
    requires i <= j <= |log|
    decreases j
  {
    if i == j then 0
    else
      var e := log[j - 1];
      OutputsBetween(log, i, j - 1)
      + if e.OutputRecorded? || e.LegacyOutputRecorded? || (e.ActionRecorded? && e.kind != Dummy) then 1 else 0
  }

  // Those of them that are not hidden as change.
  ghost function VisibleBetween(log: seq<Event>, i: nat, j: nat): nat
    requires i <= j <= |log|
    decreases j
  {
    if i == j then 0
    else
      var e := log[j - 1];
      VisibleBetween(log, i, j - 1)
      + if || (e.OutputRecorded? && e.hidden == None) || (e.LegacyOutputRecorded? && e.hiddenFor == None)
           || (e.ActionRecorded? && e.kind == Shown) then 1 else 0
  }

  lemma StepOutputCounts(log: seq<Event>, ms: seq<Monitor>, i: nat)
    requires i < |log| && |ms| == |log| + 1 && StepAt(log, ms, i) && log[i] != Reset
    ensures var e := log[i];
            && ms[i + 1].outputs == ms[i].outputs
                 + (if e.OutputRecorded? || e.LegacyOutputRecorded? || (e.ActionRecorded? && e.kind != Dummy) then 1
                    else 0)
            && ms[i + 1].visible == ms[i].visible
                 + if || (e.OutputRecorded? && e.hidden == None) || (e.LegacyOutputRecorded? && e.hiddenFor == None)
                      || (e.ActionRecorded? && e.kind == Shown) then 1 else 0
  {
    match log[i]
    case OutputRecorded(_, _) =>
    case ActionRecorded(_, _, _, _, _) =>
    case LegacyOutputRecorded(_) =>
    case _ =>
  }

  lemma {:induction false} CountsOfOutputs(swap: bool, log: seq<Event>, ms: seq<Monitor>, s: nat, j: nat)
    requires IsTrace(swap, log, ms) && EpochStart(log, s, j)
    ensures ms[j].outputs == OutputsBetween(log, s, j) && ms[j].visible == VisibleBetween(log, s, j)
    decreases j
  {
    if s == j {
      AtEpochStart(swap, log, ms, s);
    } else {
      CountsOfOutputs(swap, log, ms, s, j - 1);
      StepOutputCounts(log, ms, j - 1);
    }
  }

  lemma StepShows(log: seq<Event>, ms: seq<Monitor>, i: nat)
    requires i < |log| && |ms| == |log| + 1 && StepAt(log, ms, i)
    requires (log[i].Reviewed? || log[i].LegacyReviewed?) && log[i].approval.User?
    ensures log[i].shown == if ms[i].visible == 0 then ms[i].outputs else ms[i].visible
  {}

  /**
   What the user approves shows every output of the transaction that is not hidden as change,
   and when every one is hidden it shows them all.
   */
  lemma ReviewShowsOutputs(swap: bool, log: seq<Event>, s: nat, j: nat)
    requires Accepted(swap, log) && j < |log| && EpochStart(log, s, j)
    requires (log[j].Reviewed? || log[j].LegacyReviewed?) && log[j].approval.User?
    ensures log[j].shown == if VisibleBetween(log, s, j) == 0 then OutputsBetween(log, s, j)
                            else VisibleBetween(log, s, j)
  {
    var ms := Trace(swap, log);
    CountsOfOutputs(swap, log, ms, s, j);
    StepShows(log, ms, j);
  }
}
