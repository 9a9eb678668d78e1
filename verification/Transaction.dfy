/**
 The transaction state every instruction shares (src/tx.rs): the outputs collected for
 the review and the signing counters.
 */
module Transaction {
  import opened Outcomes
  import opened Words

  datatype TxOutput = TxOutput(isChange: bool)

  datatype TxInfo = TxInfo(
    isV6: bool,
    changeAccount: Option<u32>,
    isChangeFound: bool,
    outputs: seq<TxOutput>,
    totalAmount: nat)

  datatype TxSigningState = TxSigningState(isTxParsedOnce: bool, alreadySigned: nat, totalInputs: nat)

  const NEW_TX_INFO := TxInfo(false, None, false, [], 0)
  const NEW_SIGNING := TxSigningState(false, 0, 0)

  // The user's answer at the review, and the outcome of the check against the Exchange
  // request.
  datatype Answer = Answer(user: bool, exchange: bool)

  datatype ScriptKind = ChangeScript | DisplayableScript | UnsupportedScript

  function OutputAdded(t: TxInfo, isChange: bool): TxInfo {
    t.(outputs := t.outputs + [TxOutput(isChange)], isChangeFound := t.isChangeFound || isChange)
  }

  // Outputs below k that are not change.
  function VisibleBelow(outputs: seq<TxOutput>, k: nat): nat
    requires k <= |outputs|
  {
    if k == 0 then 0 else VisibleBelow(outputs, k - 1) + if outputs[k - 1].isChange then 0 else 1
  }

  function CountVisible(outputs: seq<TxOutput>): nat { VisibleBelow(outputs, |outputs|) }

  lemma {:induction false} SameVisibleBelow(outputs: seq<TxOutput>, o: TxOutput, k: nat)
    requires k <= |outputs|
    ensures VisibleBelow(outputs + [o], k) == VisibleBelow(outputs, k)
  {
    if k > 0 { SameVisibleBelow(outputs, o, k - 1); }
  }

  lemma CountVisibleSnoc(outputs: seq<TxOutput>, o: TxOutput)
    ensures CountVisible(outputs + [o]) == CountVisible(outputs) + (if o.isChange then 0 else 1)
  {
    SameVisibleBelow(outputs, o, |outputs|);
  }

  // The outputs of a self-transfer, shown.
  function Revealed(outputs: seq<TxOutput>): (r: seq<TxOutput>)
    ensures |r| == |outputs|
  {
    seq(|outputs|, _ => TxOutput(false))
  }

  lemma {:induction false} RevealedBelow(outputs: seq<TxOutput>, k: nat)
    requires k <= |outputs|
    ensures VisibleBelow(Revealed(outputs), k) == k
  {
    if k > 0 { RevealedBelow(outputs, k - 1); }
  }

  lemma RevealedAreVisible(outputs: seq<TxOutput>)
    ensures CountVisible(Revealed(outputs)) == |outputs|
  {
    RevealedBelow(outputs, |outputs|);
  }

  // The outputs of a transfer to oneself are revealed, except in swap mode.
  ghost predicate RevealedIn(swap: bool, before: seq<TxOutput>, after: seq<TxOutput>) {
    && |after| == |before|
    && if !swap && (forall i :: 0 <= i < |before| ==> before[i].isChange) then
         forall i :: 0 <= i < |after| ==> !after[i].isChange
       else after == before
  }

  lemma {:induction false} NoneVisibleBelow(outputs: seq<TxOutput>, k: nat)
    requires k <= |outputs|
    ensures VisibleBelow(outputs, k) == 0 <==> forall i :: 0 <= i < k ==> outputs[i].isChange
  {
    if k > 0 { NoneVisibleBelow(outputs, k - 1); }
  }

  // The outputs the review leaves behind.
  function Settled(swap: bool, outputs: seq<TxOutput>): seq<TxOutput> {
    if CountVisible(outputs) == 0 && !swap then Revealed(outputs) else outputs
  }

  lemma SettledIs(swap: bool, outputs: seq<TxOutput>)
    ensures RevealedIn(swap, outputs, Settled(swap, outputs))
    ensures CountVisible(Settled(swap, outputs))
            == if CountVisible(outputs) == 0 && !swap then |outputs| else CountVisible(outputs)
  {
    NoneVisibleBelow(outputs, |outputs|);
    RevealedAreVisible(outputs);
  }
}
