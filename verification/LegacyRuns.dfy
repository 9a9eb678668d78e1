/**
 What acceptance by the monitor means for runs of the legacy instructions
 (src/handlers/sign_tx.rs, src/parser/legacy/).
 */
module LegacyRuns {
  import opened Outcomes
  import opened Paths
  import opened SigningSpec

  // ---------------------------------------------------------------- approval

  // The outputs were all in before j, in its epoch; in swap mode they were validated.
  ghost predicate OutputsDoneBefore(swap: bool, log: seq<Event>, j: nat) {
    exists d: nat :: Earlier(log, d, j) && log[d].LegacyOutputsDone? && (swap ==> log[d].validated)
  }

  // An approval followed, before j.
  ghost predicate ApprovedBefore(swap: bool, log: seq<Event>, j: nat) {
    exists r: nat :: Earlier(log, r, j) && log[r].LegacyReviewed? && OutputsDoneBefore(swap, log, r)
  }

  // How a legacy epoch comes to have its outputs, and its approval.
  lemma StepOutputs(log: seq<Event>, ms: seq<Monitor>, i: nat)
    requires i < |log| && |ms| == |log| + 1 && StepAt(log, ms, i)
    ensures ms[i + 1].legacyOutputs ==>
              && log[i] != Reset
              && (if log[i].LegacyOutputsDone? then ms[i].swap ==> log[i].validated else ms[i].legacyOutputs)
  {
    match log[i]
    case LegacyOutputsDone(_) =>
    case _ =>
  }

  lemma {:induction false} OutputsHaveCause(swap: bool, log: seq<Event>, ms: seq<Monitor>, j: nat)
    requires IsTrace(swap, log, ms) && j <= |log| && ms[j].legacyOutputs
    ensures OutputsDoneBefore(swap, log, j)
  {
    if j > 0 {
      StepOutputs(log, ms, j - 1);
      EpochNumbers(swap, log, ms, 0, j - 1);
      if log[j - 1].LegacyOutputsDone? {
        assert Earlier(log, j - 1, j);
      } else {
        OutputsHaveCause(swap, log, ms, j - 1);
        var d: nat :| Earlier(log, d, j - 1) && log[d].LegacyOutputsDone? && (swap ==> log[d].validated);
        assert Earlier(log, d, j);
      }
    }
  }

  lemma StepReviewed(log: seq<Event>, ms: seq<Monitor>, i: nat)
    requires i < |log| && |ms| == |log| + 1 && StepAt(log, ms, i) && ms[i + 1].kind == Legacy && ms[i + 1].reviewed
    ensures log[i] != Reset
    ensures if log[i].LegacyReviewed? then ms[i].legacyOutputs else ms[i].reviewed && ms[i].kind != Pczt
  {
    match log[i]
    case LegacyReviewed(_, _) =>
    case _ =>
  }

  lemma {:induction false} ApprovalHasCause(swap: bool, log: seq<Event>, ms: seq<Monitor>, j: nat)
    requires IsTrace(swap, log, ms) && j <= |log| && ms[j].kind == Legacy && ms[j].reviewed
    ensures ApprovedBefore(swap, log, j)
  {
    if j > 0 {
      StepReviewed(log, ms, j - 1);
      if log[j - 1].LegacyReviewed? {
        OutputsHaveCause(swap, log, ms, j - 1);
        assert Earlier(log, j - 1, j);
      } else if ms[j - 1].kind == Legacy {
        ApprovalHasCause(swap, log, ms, j - 1);
        var r: nat :| Earlier(log, r, j - 1) && log[r].LegacyReviewed? && OutputsDoneBefore(swap, log, r);
        assert Earlier(log, r, j);
      } else {
        IdleIsFresh(swap, log, ms, j - 1);
      }
    }
  }

  // What a legacy signature requires.
  lemma StepLegacySigned(log: seq<Event>, ms: seq<Monitor>, i: nat)
    requires i < |log| && |ms| == |log| + 1 && StepAt(log, ms, i) && log[i].LegacySigned?
    ensures var m, e := ms[i], log[i];
            && m.kind == Legacy && m.reviewed && ChangeReturns(m.change, e.path)
            && (e.complete <==> SaturatingInc(m.legacySigned) == if m.legacyInputs == 0 then 1 else m.legacyInputs)
  {}

  /**
   Every legacy signature follows, in its epoch, the end of the outputs and then an
   approval; in swap mode those outputs passed the check against the Exchange request.
   */
  lemma LegacySignedAfterReview(swap: bool, log: seq<Event>, j: nat)
    requires Accepted(swap, log) && j < |log| && log[j].LegacySigned?
    ensures ApprovedBefore(swap, log, j)
  {
    var ms := Trace(swap, log);
    StepLegacySigned(log, ms, j);
    ApprovalHasCause(swap, log, ms, j);
  }

  // What the end of the outputs keeps out.
  lemma StepOutputsOpen(log: seq<Event>, ms: seq<Monitor>, i: nat)
    requires i < |log| && |ms| == |log| + 1 && StepAt(log, ms, i)
    ensures log[i].LegacyOutputsDone? ==> ms[i + 1].legacyOutputs
    ensures log[i].LegacyOutputRecorded? || log[i].LegacyChange? || log[i].LegacyOutputsDone? ==> !ms[i].legacyOutputs
    ensures log[i] != Reset && ms[i].legacyOutputs ==> ms[i + 1].legacyOutputs
  {
    match log[i]
    case LegacyOutputRecorded(_) =>
    case LegacyChange(_) =>
    case LegacyOutputsDone(_) =>
    case _ =>
  }

  lemma {:induction false} OutputsStayDone(swap: bool, log: seq<Event>, ms: seq<Monitor>, i: nat, j: nat)
    requires IsTrace(swap, log, ms) && SameEpoch(log, i, j) && ms[i].legacyOutputs
    ensures ms[j].legacyOutputs
    decreases j - i
  {
    if i < j {
      OutputsStayDone(swap, log, ms, i, j - 1);
      StepOutputsOpen(log, ms, j - 1);
    }
  }

  /** Nothing joins the outputs, and no change account is declared, once the outputs are in. */
  lemma OutputsAreFinal(swap: bool, log: seq<Event>, d: nat, j: nat)
    requires Accepted(swap, log) && Earlier(log, d, j) && j < |log| && log[d].LegacyOutputsDone?
    ensures !log[j].LegacyOutputRecorded? && !log[j].LegacyChange? && !log[j].LegacyOutputsDone?
  {
    var ms := Trace(swap, log);
    StepOutputsOpen(log, ms, d);
    OutputsStayDone(swap, log, ms, d + 1, j);
    StepOutputsOpen(log, ms, j);
  }

  // ---------------------------------------------------------------- the change account

  // k is the last declaration of a change account before j, in its epoch.
  ghost predicate LastChange(log: seq<Event>, k: nat, j: nat) {
    Earlier(log, k, j) && log[k].LegacyChange? && forall i :: k < i < j ==> !log[i].LegacyChange?
  }

  lemma StepAccount(log: seq<Event>, ms: seq<Monitor>, i: nat)
    requires i < |log| && |ms| == |log| + 1 && StepAt(log, ms, i)
    ensures log[i].LegacyChange? ==> ms[i + 1].kind == Legacy && ms[i + 1].change == Some(log[i].account)
    ensures ms[i].kind == Legacy && log[i] != Reset && !log[i].LegacyChange? ==>
              ms[i + 1].kind == Legacy && ms[i + 1].change == ms[i].change
    ensures log[i].LegacyOutputRecorded? ==>
              ms[i].kind == Legacy && (log[i].hiddenFor.Some? ==> ms[i].change == log[i].hiddenFor)
    ensures ms[i + 1].kind == Legacy ==> log[i] != Reset && ms[i].kind != Pczt
    ensures ms[i + 1].kind == Legacy && ms[i].kind == Idle ==> ms[i + 1].change == ms[i].change
  {
    match log[i]
    case LegacyChange(_) =>
    case LegacyOutputRecorded(_) =>
    case LegacyParsed(_) =>
    case _ =>
  }

  lemma {:induction false} AccountStays(swap: bool, log: seq<Event>, ms: seq<Monitor>, k: nat, j: nat)
    requires IsTrace(swap, log, ms) && LastChange(log, k, j)
    ensures ms[j].kind == Legacy && ms[j].change == Some(log[k].account)
    decreases j
  {
    StepAccount(log, ms, j - 1);
    if k < j - 1 { AccountStays(swap, log, ms, k, j - 1); }
  }

  /** A legacy signature spends from the account of the last change declaration of its epoch. */
  lemma LegacyChangeGoverns(swap: bool, log: seq<Event>, k: nat, j: nat)
    requires Accepted(swap, log) && j < |log| && log[j].LegacySigned? && LastChange(log, k, j)
    ensures DerivationAccount(log[j].path) == Some(log[k].account)
  {
    var ms := Trace(swap, log);
    AccountStays(swap, log, ms, k, j);
    StepLegacySigned(log, ms, j);
  }

  // A change account in force was declared in the epoch.
  lemma {:induction false} AccountHasCause(swap: bool, log: seq<Event>, ms: seq<Monitor>, j: nat) returns (k: nat)
    requires IsTrace(swap, log, ms) && j <= |log| && ms[j].kind == Legacy && ms[j].change.Some?
    ensures LastChange(log, k, j)
  {
    if j > 0 {
      StepAccount(log, ms, j - 1);
      if log[j - 1].LegacyChange? {
        k := j - 1;
      } else if ms[j - 1].kind == Legacy {
        k := AccountHasCause(swap, log, ms, j - 1);
      } else {
        IdleIsFresh(swap, log, ms, j - 1);
      }
    }
  }

  lemma {:induction false} StillLegacy(swap: bool, log: seq<Event>, ms: seq<Monitor>, i: nat, j: nat)
    requires IsTrace(swap, log, ms) && SameEpoch(log, i, j) && ms[i].kind == Legacy
    ensures ms[j].kind == Legacy && (ms[i].change.Some? ==> ms[j].change.Some?)
    decreases j - i
  {
    if i < j {
      StillLegacy(swap, log, ms, i, j - 1);
      StepAccount(log, ms, j - 1);
    }
  }

  /**
   Whether an output hidden as change of a legacy transaction returns to the account a
   later signature of the epoch spends from. A change account is in force at that
   signature; the output returns exactly when its declaration names the account the
   output was hidden under, and it always does when no declaration follows the output.
   */
  lemma HiddenOutputReturnsExactly(swap: bool, log: seq<Event>, i: nat, j: nat) returns (k: nat)
    requires Accepted(swap, log) && Earlier(log, i, j) && j < |log| && log[j].LegacySigned?
    requires log[i].LegacyOutputRecorded? && log[i].hiddenFor.Some?
    ensures LastChange(log, k, j)
    ensures DerivationAccount(log[j].path) == log[i].hiddenFor <==> Some(log[k].account) == log[i].hiddenFor
    ensures k < i ==> DerivationAccount(log[j].path) == log[i].hiddenFor
  {
    var ms := Trace(swap, log);
    StepAccount(log, ms, i);
    StillLegacy(swap, log, ms, i, j);
    k := AccountHasCause(swap, log, ms, j);
    LegacyChangeGoverns(swap, log, k, j);
    if k < i {
      assert LastChange(log, k, i);
      AccountStays(swap, log, ms, k, i);
    }
  }

  // ---------------------------------------------------------------- completion

  // Legacy signatures released between s and j.
  ghost function SignaturesBetween(log: seq<Event>, s: nat, j: nat): nat
    requires s <= j <= |log|
    decreases j
  {
    if s == j then 0 else SignaturesBetween(log, s, j - 1) + if log[j - 1].LegacySigned? then 1 else 0
  }

  // The number of inputs the last header between s and j declared.
  ghost function DeclaredInputs(log: seq<Event>, s: nat, j: nat): nat
    requires s <= j <= |log|
    decreases j
  {
    if s == j then 0
    else if log[j - 1].LegacyParsed? && log[j - 1].inputs.Some? then log[j - 1].inputs.value
    else DeclaredInputs(log, s, j - 1)
  }

  lemma StepCounts(log: seq<Event>, ms: seq<Monitor>, i: nat)
    requires i < |log| && |ms| == |log| + 1 && StepAt(log, ms, i) && log[i] != Reset
    ensures ms[i + 1].legacySigned ==
              if log[i].LegacySigned? then SaturatingInc(ms[i].legacySigned) else ms[i].legacySigned
    ensures if log[i].LegacyParsed? && log[i].inputs.Some? then
              ms[i + 1].legacyInputs == log[i].inputs.value <= MAX_COMPACT_SIZE
            else ms[i + 1].legacyInputs == ms[i].legacyInputs
  {
    match log[i]
    case LegacyParsed(_) =>
    case LegacySigned(_, _) =>
    case _ =>
  }

  lemma {:induction false} CountsAreEvents(swap: bool, log: seq<Event>, ms: seq<Monitor>, s: nat, j: nat)
    requires IsTrace(swap, log, ms) && EpochStart(log, s, j)
    ensures var n := SignaturesBetween(log, s, j); ms[j].legacySigned == if n >= COUNT_MAX then COUNT_MAX else n
    ensures ms[j].legacyInputs == DeclaredInputs(log, s, j) <= MAX_COMPACT_SIZE
    decreases j
  {
    if s == j {
      AtEpochStart(swap, log, ms, s);
    } else {
      CountsAreEvents(swap, log, ms, s, j - 1);
      StepCounts(log, ms, j - 1);
    }
  }

  /**
   A legacy signature completes its transaction exactly when it is the last one the
   declared inputs call for; a transaction without inputs calls for one.
   */
  lemma LegacyCompleteExactly(swap: bool, log: seq<Event>, s: nat, j: nat)
    requires Accepted(swap, log) && j < |log| && log[j].LegacySigned? && EpochStart(log, s, j)
    ensures log[j].complete <==>
              var n := DeclaredInputs(log, s, j);
              SignaturesBetween(log, s, j + 1) == if n == 0 then 1 else n
  {
    var ms := Trace(swap, log);
    CountsAreEvents(swap, log, ms, s, j);
    StepLegacySigned(log, ms, j);
  }
}
