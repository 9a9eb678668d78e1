/**
 The records and states of the PCZT parser (src/parser/pczt.rs, src/parser/pczt/) as the
 signing session uses them.

 Payload bytes are represented by the fields a parser reads from them. A field that does
 not fit the state that reads it stands for any read, hash, derivation or validation
 failure there.
 */
module PcztState {
  import opened Outcomes
  import opened Words
  import opened Paths
  import opened SignatureDigest
  import opened Transaction
  import opened SigningSpec

  const MAX_MONEY: nat := 2_100_000_000_000_000
  const U64_MAX: nat := 0xFFFF_FFFF_FFFF_FFFF
  const MAX_INPUTS: nat := 32
  const MAX_OUTPUTS: nat := 10
  const MAX_ACTIONS: nat := 32
  const MAX_SCRIPT: nat := 252
  const PREVOUT_SIZE := 36

  // ---------------------------------------------------------------- PCZT

  datatype ShieldedStep =
    | WaitAction | WaitZip32Derivation | WaitActionOutput
    | WaitEncCiphertextLen | ProcessEncCiphertext | WaitOutCiphertextLen | ProcessOutCiphertext
    | WaitOutputMetadata | WaitTrailer | ActionsDone

  datatype State =
    | WaitHeaderAndGlobal
    | WaitInputsCount | WaitInput | WaitInputScript | ProcessInputScript | WaitInputSighashType | WaitInputDerivation
    | InputsDone
    | WaitOutput | WaitOutputScript | ProcessOutputScript | WaitOutputDerivation
    | OutputsDone
    | Shielded(pool: Pool, step: ShieldedStep)

  predicate InInput(st: State) { st.WaitInput? || MidInput(st) }
  predicate InOutput(st: State) { st.WaitOutput? || MidOutput(st) }

  predicate MidInput(st: State) {
    st.WaitInputScript? || st.ProcessInputScript? || st.WaitInputSighashType? || st.WaitInputDerivation?
  }

  predicate MidOutput(st: State) { st.WaitOutputScript? || st.ProcessOutputScript? || st.WaitOutputDerivation? }

  // A transparent input or a shielded action awaiting its signature. Every transparent
  // input is real; an action is real when its spend value is not zero.
  datatype Record = Record(path: Path, isReal: bool, signed: bool)

  // Orchard and Ironwood keep the same bundle state.
  datatype Bundle = Bundle(present: bool, actionCount: nat, records: seq<Record>, tally: Tally, valueBalance: int,
                           sums: Sums)
  datatype Tally = Tally(signedCount: nat, realSpendCount: nat)
  datatype Sums = Sums(spend: nat, output: nat)

  const EMPTY_BUNDLE := Bundle(false, 0, [], Tally(0, 0), 0, Sums(0, 0))

  datatype PcztParser = PcztParser(
    state: State,
    inputCount: nat,
    inputs: seq<Record>,
    outputCount: nat,
    outputParsedCount: nat,
    outputsReviewed: bool,
    pcztFinished: bool,
    totalOutputAmount: nat,
    orchard: Bundle,
    ironwood: Bundle,
    isV6Tx: bool,
    keyPath: Option<Path>,
    currentPath: Option<Path>,
    currentSpend: nat)
  {
    predicate IsSessionActive() { state != WaitHeaderAndGlobal || pcztFinished }

    predicate InputsFinished() {
      || state.InputsDone? || state.WaitOutput? || state.ProcessOutputScript? || state.WaitOutputDerivation?
      || state.OutputsDone? || state.Shielded?
    }

    predicate OutputsFinished() { state == OutputsDone || state.Shielded? }

    predicate ActionsFinished(pool: Pool) {
      if pool == Ironwood then state == Shielded(Ironwood, ActionsDone)
      else state == Shielded(Orchard, ActionsDone) || (state.Shielded? && state.pool == Ironwood)
    }

    predicate IsReadyToSign() {
      && (!orchard.present || ActionsFinished(Orchard))
      && (!isV6Tx || !ironwood.present || ActionsFinished(Ironwood))
      && outputsReviewed
    }

    predicate IsFinished() { pcztFinished && IsReadyToSign() }

    function Bundle(pool: Pool): Bundle { if pool == Orchard then orchard else ironwood }

    // are_orchard_signatures_done and are_ironwood_signatures_done.
    predicate ShieldedDone() { Done(orchard) && Done(ironwood) }
  }

  predicate Done(b: Bundle) { !b.present || b.tally.signedCount >= b.tally.realSpendCount }

  const NEW_PCZT := PcztParser(WaitHeaderAndGlobal, 0, [], 0, 0, false, false, 0,
    EMPTY_BUNDLE, EMPTY_BUNDLE, false, None, None, 0)

  // ---------------------------------------------------------------- payload fields

  // What becomes of the output of an action: decrypted by the internal key, recovered
  // by the outgoing key, a zero-valued dummy, or none of these.
  datatype Recovery = Internal | External(withinBudget: bool) | ZeroDummy | Unrecoverable

  datatype Field =
    | Count(n: nat)
    | InputHead(prevout: seq<u8>, sequence: u32, amount: nat)
    | ScriptPart(bytes: seq<u8>, complete: bool, p2pkh: bool)
    | SighashType(all: bool)
    | InputDerivation(path: Path)
    | OutputHead(amount: nat)
    | OutputDerivation(changePath: Option<Path>, keyMatches: bool, kind: ScriptKind)
    | ActionHead(spend: nat)                                    // cv_net, nullifier, rk, spend note, alpha
    | Zip32Derivation(path: Path, derived: bool, rkMatches: bool)
    | ActionOutput                                              // cmx, ephemeral key
    | Ciphertext(complete: bool)
    | OutputMetadata(output: nat, valid: bool, recovery: Recovery)
    | Trailer(magnitude: nat, sign: nat, digest: Digest)        // value balance, anchor; digest of the bundle
    | Malformed

  // The packets of one part of a PCZT.
  datatype Section = Inputs | Outputs | Actions(pool: Pool)

  // ---------------------------------------------------------------- counting

  // Entries below k that are real, and that are signed.
  function RealBelow(rs: seq<Record>, k: nat): nat
    requires k <= |rs|
  {
    if k == 0 then 0 else RealBelow(rs, k - 1) + if rs[k - 1].isReal then 1 else 0
  }

  function SignedBelow(rs: seq<Record>, k: nat): nat
    requires k <= |rs|
  {
    if k == 0 then 0 else SignedBelow(rs, k - 1) + if rs[k - 1].signed then 1 else 0
  }

  function CountReal(rs: seq<Record>): nat { RealBelow(rs, |rs|) }
  function CountSigned(rs: seq<Record>): nat { SignedBelow(rs, |rs|) }

  // Only real entries are signed.
  predicate SignedReal(rs: seq<Record>) { forall i :: 0 <= i < |rs| && rs[i].signed ==> rs[i].isReal }

  predicate AllSigned(rs: seq<Record>) { forall i :: 0 <= i < |rs| && rs[i].isReal ==> rs[i].signed }

  // The counts below k depend on the entries below k only.
  lemma {:induction false} SameBelow(rs: seq<Record>, qs: seq<Record>, k: nat)
    requires k <= |rs| && k <= |qs| && forall i :: 0 <= i < k ==> rs[i] == qs[i]
    ensures RealBelow(rs, k) == RealBelow(qs, k) && SignedBelow(rs, k) == SignedBelow(qs, k)
  {
    if k > 0 { SameBelow(rs, qs, k - 1); }
  }

  lemma CountSnoc(rs: seq<Record>, r: Record)
    ensures CountReal(rs + [r]) == CountReal(rs) + (if r.isReal then 1 else 0)
    ensures CountSigned(rs + [r]) == CountSigned(rs) + (if r.signed then 1 else 0)
  {
    SameBelow(rs, rs + [r], |rs|);
  }

  lemma {:induction false} CountsDecideBelow(rs: seq<Record>, k: nat)
    requires k <= |rs| && SignedReal(rs)
    ensures SignedBelow(rs, k) <= RealBelow(rs, k) <= k
    ensures SignedBelow(rs, k) >= RealBelow(rs, k) <==> forall i :: 0 <= i < k && rs[i].isReal ==> rs[i].signed
  {
    if k > 0 { CountsDecideBelow(rs, k - 1); }
  }

  // Counting tells when every real entry is signed.
  lemma CountsDecide(rs: seq<Record>)
    requires SignedReal(rs)
    ensures CountSigned(rs) <= CountReal(rs) <= |rs|
    ensures CountSigned(rs) >= CountReal(rs) <==> AllSigned(rs)
  {
    CountsDecideBelow(rs, |rs|);
  }

  function Mark(rs: seq<Record>, i: nat): seq<Record>
    requires i < |rs|
  {
    rs[i := rs[i].(signed := true)]
  }

  lemma {:induction false} MarkBelow(rs: seq<Record>, i: nat, k: nat)
    requires i < |rs| && !rs[i].signed && k <= |rs|
    ensures SignedBelow(Mark(rs, i), k) == SignedBelow(rs, k) + (if i < k then 1 else 0)
    ensures RealBelow(Mark(rs, i), k) == RealBelow(rs, k)
  {
    if k > 0 { MarkBelow(rs, i, k - 1); }
  }

  lemma CountMark(rs: seq<Record>, i: nat)
    requires i < |rs| && !rs[i].signed
    ensures CountSigned(Mark(rs, i)) == CountSigned(rs) + 1 && CountReal(Mark(rs, i)) == CountReal(rs)
  {
    MarkBelow(rs, i, |rs|);
  }

  // ---------------------------------------------------------------- slots

  function Entries(inputs: seq<Record>, orchard: seq<Record>, ironwood: seq<Record>, slot: Slot): seq<Record> {
    match slot
    case Transparent(_) => inputs
    case Action(pool, _) => if pool == Orchard then orchard else ironwood
  }

  // The entry behind a slot agrees with the monitor.
  ghost predicate SlotMatches(rs: seq<Record>, required: map<Slot, Path>, signed: set<Slot>, slot: Slot) {
    && (slot in required <==> slot.index < |rs| && rs[slot.index].isReal)
    && (slot in required ==> rs[slot.index].path == required[slot])
    && (slot in signed <==> slot.index < |rs| && rs[slot.index].signed)
  }

  // The records are exactly the monitor's slots.
  ghost predicate SlotsMatch(inputs: seq<Record>, orchard: seq<Record>, ironwood: seq<Record>,
                             required: map<Slot, Path>, signed: set<Slot>)
  {
    forall slot :: SlotMatches(Entries(inputs, orchard, ironwood, slot), required, signed, slot)
  }

  lemma AddEntry(rs: seq<Record>, required: map<Slot, Path>, signed: set<Slot>, r: Record, added: Slot, slot: Slot)
    requires SlotMatches(rs, required, signed, slot) && !r.signed
    requires added.index == |rs| && (slot.index == added.index ==> slot == added)
    ensures SlotMatches(rs + [r], if r.isReal then required[added := r.path] else required, signed, slot)
  {}

  lemma KeepEntry(rs: seq<Record>, required: map<Slot, Path>, signed: set<Slot>, path: Path, added: Slot, slot: Slot)
    requires SlotMatches(rs, required, signed, slot) && slot != added
    ensures SlotMatches(rs, required[added := path], signed, slot)
  {}

  lemma AddInput(inputs: seq<Record>, orchard: seq<Record>, ironwood: seq<Record>, required: map<Slot, Path>,
                 signed: set<Slot>, path: Path)
    requires SlotsMatch(inputs, orchard, ironwood, required, signed)
    ensures SlotsMatch(inputs + [Record(path, true, false)], orchard, ironwood, required[Transparent(|inputs|) := path],
                       signed)
  {
    var inputs' := inputs + [Record(path, true, false)];
    forall slot ensures SlotMatches(Entries(inputs', orchard, ironwood, slot), required[Transparent(|inputs|) := path],
                                    signed, slot) {
      assert SlotMatches(Entries(inputs, orchard, ironwood, slot), required, signed, slot);
      if slot.Transparent? {
        AddEntry(inputs, required, signed, Record(path, true, false), Transparent(|inputs|), slot);
      } else {
        KeepEntry(Entries(inputs, orchard, ironwood, slot), required, signed, path, Transparent(|inputs|), slot);
      }
    }
  }

  lemma AddOrchard(inputs: seq<Record>, orchard: seq<Record>, ironwood: seq<Record>, required: map<Slot, Path>,
                   signed: set<Slot>, r: Record)
    requires SlotsMatch(inputs, orchard, ironwood, required, signed) && !r.signed
    ensures SlotsMatch(inputs, orchard + [r], ironwood,
                       if r.isReal then required[Action(Orchard, |orchard|) := r.path] else required, signed)
  {
    var added := Action(Orchard, |orchard|);
    var required' := if r.isReal then required[added := r.path] else required;
    forall slot ensures SlotMatches(Entries(inputs, orchard + [r], ironwood, slot), required', signed, slot) {
      var rs := Entries(inputs, orchard, ironwood, slot);
      assert SlotMatches(rs, required, signed, slot);
      if slot.Action? && slot.pool == Orchard {
        AddEntry(rs, required, signed, r, added, slot);
      } else if r.isReal {
        KeepEntry(rs, required, signed, r.path, added, slot);
      }
    }
  }

  lemma AddIronwood(inputs: seq<Record>, orchard: seq<Record>, ironwood: seq<Record>, required: map<Slot, Path>,
                    signed: set<Slot>, r: Record)
    requires SlotsMatch(inputs, orchard, ironwood, required, signed) && !r.signed
    ensures SlotsMatch(inputs, orchard, ironwood + [r],
                       if r.isReal then required[Action(Ironwood, |ironwood|) := r.path] else required, signed)
  {
    var added := Action(Ironwood, |ironwood|);
    var required' := if r.isReal then required[added := r.path] else required;
    forall slot ensures SlotMatches(Entries(inputs, orchard, ironwood + [r], slot), required', signed, slot) {
      var rs := Entries(inputs, orchard, ironwood, slot);
      assert SlotMatches(rs, required, signed, slot);
      if slot.Action? && slot.pool == Ironwood {
        AddEntry(rs, required, signed, r, added, slot);
      } else if r.isReal {
        KeepEntry(rs, required, signed, r.path, added, slot);
      }
    }
  }

  lemma MarkEntry(rs: seq<Record>, required: map<Slot, Path>, signed: set<Slot>, marked: Slot, slot: Slot)
    requires marked.index < |rs| && SlotMatches(rs, required, signed, slot)
             && (slot.index == marked.index ==> slot == marked)
    ensures SlotMatches(Mark(rs, marked.index), required, signed + {marked}, slot)
  {}

  lemma MarkInput(inputs: seq<Record>, orchard: seq<Record>, ironwood: seq<Record>, required: map<Slot, Path>,
                  signed: set<Slot>, i: nat)
    requires SlotsMatch(inputs, orchard, ironwood, required, signed) && i < |inputs|
    ensures SlotsMatch(Mark(inputs, i), orchard, ironwood, required, signed + {Transparent(i)})
  {
    forall slot ensures SlotMatches(Entries(Mark(inputs, i), orchard, ironwood, slot), required,
                                    signed + {Transparent(i)}, slot) {
      assert SlotMatches(Entries(inputs, orchard, ironwood, slot), required, signed, slot);
      if slot.Transparent? { MarkEntry(inputs, required, signed, Transparent(i), slot); }
    }
  }

  lemma MarkOrchard(inputs: seq<Record>, orchard: seq<Record>, ironwood: seq<Record>, required: map<Slot, Path>,
                    signed: set<Slot>, i: nat)
    requires SlotsMatch(inputs, orchard, ironwood, required, signed) && i < |orchard|
    ensures SlotsMatch(inputs, Mark(orchard, i), ironwood, required, signed + {Action(Orchard, i)})
  {
    forall slot ensures SlotMatches(Entries(inputs, Mark(orchard, i), ironwood, slot), required,
                                    signed + {Action(Orchard, i)}, slot) {
      assert SlotMatches(Entries(inputs, orchard, ironwood, slot), required, signed, slot);
      if slot.Action? && slot.pool == Orchard { MarkEntry(orchard, required, signed, Action(Orchard, i), slot); }
    }
  }

  lemma MarkIronwood(inputs: seq<Record>, orchard: seq<Record>, ironwood: seq<Record>, required: map<Slot, Path>,
                     signed: set<Slot>, i: nat)
    requires SlotsMatch(inputs, orchard, ironwood, required, signed) && i < |ironwood|
    ensures SlotsMatch(inputs, orchard, Mark(ironwood, i), required, signed + {Action(Ironwood, i)})
  {
    forall slot ensures SlotMatches(Entries(inputs, orchard, Mark(ironwood, i), slot), required,
                                    signed + {Action(Ironwood, i)}, slot) {
      assert SlotMatches(Entries(inputs, orchard, ironwood, slot), required, signed, slot);
      if slot.Action? && slot.pool == Ironwood { MarkEntry(ironwood, required, signed, Action(Ironwood, i), slot); }
    }
  }

  // Every entry of every list is signed, if real.
  predicate EverythingSigned(inputs: seq<Record>, orchard: seq<Record>, ironwood: seq<Record>) {
    AllSigned(inputs) && AllSigned(orchard) && AllSigned(ironwood)
  }

  // The completion predicates decide whether every slot is signed.
  lemma DoneIsComplete(inputs: seq<Record>, orchard: seq<Record>, ironwood: seq<Record>, required: map<Slot, Path>,
                       signed: set<Slot>)
    requires SlotsMatch(inputs, orchard, ironwood, required, signed)
    requires SignedReal(inputs) && SignedReal(orchard) && SignedReal(ironwood)
    ensures EverythingSigned(inputs, orchard, ironwood) <==> signed == required.Keys
  {
    forall slot ensures slot in signed ==> slot in required {
      assert SlotMatches(Entries(inputs, orchard, ironwood, slot), required, signed, slot);
    }
    if signed == required.Keys {
      forall i | 0 <= i < |inputs| && inputs[i].isReal ensures inputs[i].signed {
        assert SlotMatches(Entries(inputs, orchard, ironwood, Transparent(i)), required, signed, Transparent(i));
      }
      forall i | 0 <= i < |orchard| && orchard[i].isReal ensures orchard[i].signed {
        assert SlotMatches(Entries(inputs, orchard, ironwood, Action(Orchard, i)), required, signed,
                           Action(Orchard, i));
      }
      forall i | 0 <= i < |ironwood| && ironwood[i].isReal ensures ironwood[i].signed {
        assert SlotMatches(Entries(inputs, orchard, ironwood, Action(Ironwood, i)), required, signed,
                           Action(Ironwood, i));
      }
    }
    if EverythingSigned(inputs, orchard, ironwood) {
      forall slot ensures slot in required ==> slot in signed {
        assert SlotMatches(Entries(inputs, orchard, ironwood, slot), required, signed, slot);
      }
    }
  }
}
