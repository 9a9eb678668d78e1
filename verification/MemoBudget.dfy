/**
 What the review may retain of shielded outputs: at most four displayed outputs and
 1024 bytes of memo text (src/parser/pczt.rs).
 */
module MemoBudget {
  import opened Outcomes
  import opened Words
  import opened Bytes

  const ORCHARD_MEMO_SIZE := 512
  const MAX_RETAINED_MEMO_BYTES := 2 * ORCHARD_MEMO_SIZE
  const MEMO_HASH_DISPLAY_LEN := 64
  const MAX_DISPLAYED := 4
  const MEMO_TEXT_MAX_TAG: u8 := 0xF4
  const MEMO_EMPTY_TAG: u8 := 0xF6

  datatype Error = TechnicalProblem | NotEnoughMemorySpace
  datatype MemoText = Text(bytes: seq<u8>) | Hash(bytes: seq<u8>)

  type Hash32 = seq<u8> -> Bytes32

  // is_displayable_memo_text.
  predicate Displayable(text: seq<u8>) {
    forall i :: 0 <= i < |text| ==> 0x20 <= text[i] <= 0x7E
  }

  function HexDigit(n: int): u8
    requires 0 <= n < 16
  {
    if n < 10 then 0x30 + n else 0x61 + n - 10
  }

  // Two lower-case hexadecimal digits a byte.
  function Hex(b: seq<u8>): (r: seq<u8>)
    ensures |r| == 2 * |b|
  {
    if b == [] then [] else [HexDigit(b[0] / 16), HexDigit(b[0] % 16)] + Hex(b[1..])
  }

  // The digit a lower-case hexadecimal character stands for.
  function DigitValue(c: u8): Option<nat> {
    if 0x30 <= c <= 0x39 then Some(c - 0x30) else if 0x61 <= c <= 0x66 then Some(c - 0x61 + 10) else None
  }

  /** The bytes can be read back from their digits, the high digit of each byte first. */
  lemma {:induction false} HexReads(b: seq<u8>, i: nat)
    requires i < |b|
    ensures var high, low := DigitValue(Hex(b)[2 * i]), DigitValue(Hex(b)[2 * i + 1]);
            high.Some? && low.Some? && b[i] == 16 * high.value + low.value
  {
    if i > 0 { HexReads(b[1..], i - 1); }
  }

  // The memo without its trailing zeros: zero-padding the text gives the memo back.
  ghost predicate IsTrimmed(memo: seq<u8>, text: seq<u8>) {
    && |text| <= |memo| && text == memo[..|text|] && AllZero(memo[|text|..])
    && (text == [] || text[|text| - 1] != 0)
  }

  // `rposition` of a non-zero byte, plus one.
  method TrimmedLength(memo: seq<u8>) returns (n: nat)
    ensures n <= |memo| && IsTrimmed(memo, memo[..n])
  {
    n := |memo|;
    while n > 0 && memo[n - 1] == 0
      invariant n <= |memo| && AllZero(memo[n..])
    {
      n := n - 1;
    }
  }

  lemma TrimmedUnique(memo: seq<u8>, a: seq<u8>, b: seq<u8>)
    requires IsTrimmed(memo, a) && IsTrimmed(memo, b)
    ensures a == b
  {
    assert forall i :: |a| <= i < |memo| ==> memo[i] == memo[|a|..][i - |a|];
    assert forall i :: |b| <= i < |memo| ==> memo[i] == memo[|b|..][i - |b|];
    assert a != [] ==> memo[|a| - 1] == a[|a| - 1];
    assert b != [] ==> memo[|b| - 1] == b[|b| - 1];
  }

  predicate IsEmptyMemo(memo: seq<u8>)
    requires |memo| == ORCHARD_MEMO_SIZE
  {
    (memo[0] == MEMO_EMPTY_TAG && AllZero(memo[1..])) || AllZero(memo)
  }

  // Shown verbatim: the trimmed memo is printable and fits what is left.
  ghost predicate ShownAsText(memo: seq<u8>, budget: int) {
    exists text :: IsTrimmed(memo, text) && Displayable(text) && |text| <= budget
  }

  class Review {
    var retainedMemoBytes: nat
    var displayedShieldedOutputs: nat

    ghost predicate Valid()
      reads this
    {
      retainedMemoBytes <= MAX_RETAINED_MEMO_BYTES && displayedShieldedOutputs <= MAX_DISPLAYED
    }

    constructor ()
      ensures Valid() && retainedMemoBytes == 0 && displayedShieldedOutputs == 0
    {
      retainedMemoBytes, displayedShieldedOutputs := 0, 0;
    }

    // claim_displayed_shielded_output.
    method Claim() returns (r: Result<(), Error>)
      requires Valid()
      modifies this`displayedShieldedOutputs
      ensures Valid()
      ensures r.Ok? <==> old(displayedShieldedOutputs) < MAX_DISPLAYED
      ensures displayedShieldedOutputs == old(displayedShieldedOutputs) + if r.Ok? then 1 else 0
    {
      if displayedShieldedOutputs >= MAX_DISPLAYED {
        return Err(NotEnoughMemorySpace);
      }
      displayedShieldedOutputs := displayedShieldedOutputs + 1;
      r := Ok(());
    }

    // memo_display. The condition `memo[0] <= 0xF4` and valid UTF-8 both follow from
    // the text being printable ASCII; the former is kept where the source tests it.
    method MemoDisplay(h: Hash32, memo: seq<u8>) returns (r: Result<Option<MemoText>, Error>)
      requires Valid()
      modifies this`retainedMemoBytes
      ensures Valid()
      ensures retainedMemoBytes == old(retainedMemoBytes) + Retained(r)
      ensures r.Err? && r.error == TechnicalProblem <==> |memo| != ORCHARD_MEMO_SIZE
      ensures |memo| == ORCHARD_MEMO_SIZE ==>
        var budget := MAX_RETAINED_MEMO_BYTES - old(retainedMemoBytes);
        && (r == Ok(None) <==> IsEmptyMemo(memo))
        && (r.Ok? && r.value.Some? && r.value.value.Text? <==> !IsEmptyMemo(memo) && ShownAsText(memo, budget))
        && (r.Err? && r.error == NotEnoughMemorySpace <==>
              !IsEmptyMemo(memo) && !ShownAsText(memo, budget) && budget < MEMO_HASH_DISPLAY_LEN)
      ensures r.Ok? && r.value.Some? ==> Faithful(h, memo, r.value.value)
    {
      if |memo| != ORCHARD_MEMO_SIZE {
        return Err(TechnicalProblem);
      }
      if memo[0] == MEMO_EMPTY_TAG && AllZero(memo[1..]) {
        return Ok(None);
      }
      var memoLen := TrimmedLength(memo);
      if memoLen == 0 {
        assert AllZero(memo);
        return Ok(None);
      }
      assert !AllZero(memo) by { assert memo[memoLen - 1] != 0; }
      var budget := MAX_RETAINED_MEMO_BYTES - retainedMemoBytes;
      var text := memo[..memoLen];
      TextCondition(memo, text, budget);
      if memo[0] <= MEMO_TEXT_MAX_TAG && memoLen <= budget && Displayable(text) {
        retainedMemoBytes := retainedMemoBytes + memoLen;
        return Ok(Some(Text(text)));
      }
      if MEMO_HASH_DISPLAY_LEN > budget {
        return Err(NotEnoughMemorySpace);
      }
      retainedMemoBytes := retainedMemoBytes + MEMO_HASH_DISPLAY_LEN;
      r := Ok(Some(Hash(Hex(h(memo)))));
    }
  }

  // A text memo is printable and zero-pads back to the memo; a hash memo is its hash.
  ghost predicate Faithful(h: Hash32, memo: seq<u8>, m: MemoText) {
    match m
    case Text(text) => Displayable(text) && IsTrimmed(memo, text)
    case Hash(hex) => hex == Hex(h(memo)) && |hex| == MEMO_HASH_DISPLAY_LEN
  }

  lemma TextCondition(memo: seq<u8>, text: seq<u8>, budget: int)
    requires IsTrimmed(memo, text) && text != []
    ensures ShownAsText(memo, budget) <==> memo[0] <= MEMO_TEXT_MAX_TAG && |text| <= budget && Displayable(text)
  {
    assert memo[0] == text[0];
    if ShownAsText(memo, budget) {
      var t :| IsTrimmed(memo, t) && Displayable(t) && |t| <= budget;
      TrimmedUnique(memo, text, t);
    }
  }

  // Bytes a rendering keeps.
  function Retained(r: Result<Option<MemoText>, Error>): nat {
    if r.Ok? && r.value.Some? then |r.value.value.bytes| else 0
  }

  function TotalRetained(rs: seq<Option<MemoText>>): nat {
    if rs == [] then 0
    else TotalRetained(rs[..|rs| - 1]) + match rs[|rs| - 1] { case None => 0 case Some(m) => |m.bytes| }
  }

  // The rendering of a memo with this much of the budget left: nothing exactly for an empty
  // memo, and the text exactly if it can be shown.
  ghost predicate Rendered(h: Hash32, memo: seq<u8>, budget: int, m: Option<MemoText>) {
    && |memo| == 512 && (m.None? <==> IsEmptyMemo(memo))
    && (m.Some? ==> Faithful(h, memo, m.value) && (m.value.Text? <==> ShownAsText(memo, budget)))
  }

  // Neither the text of the memo nor its hash can be shown.
  ghost predicate CannotShow(memo: seq<u8>, budget: int) {
    |memo| != 512 || (!IsEmptyMemo(memo) && !ShownAsText(memo, budget) && budget < 64)
  }

  // What the renderings before the i-th leave of the budget.
  ghost function BudgetAt(shown: seq<Option<MemoText>>, i: nat): int
    requires i <= |shown|
  {
    1024 - TotalRetained(shown[..i])
  }

  ghost predicate AllFaithful(h: Hash32, memos: seq<seq<u8>>, shown: seq<Option<MemoText>>) {
    |shown| <= |memos| && forall i :: 0 <= i < |shown| ==> Rendered(h, memos[i], BudgetAt(shown, i), shown[i])
  }

  /**
   Any sequence of shielded outputs, each claimed and then rendered, up to the first
   refusal: the bytes shown never exceed the budget, the outputs shown never exceed four, and
   each is rendered as its memo and what is left of the budget call for. An output is refused
   exactly when four are shown already or its memo can be shown neither way.
   */
  method ReviewOutputs(h: Hash32, memos: seq<seq<u8>>) returns (shown: seq<Option<MemoText>>, refused: bool)
    ensures |shown| <= |memos| && |shown| <= 4
    ensures TotalRetained(shown) <= 1024
    ensures AllFaithful(h, memos, shown)
    ensures refused <==> |shown| < |memos|
    ensures refused ==> |shown| == 4 || CannotShow(memos[|shown|], BudgetAt(shown, |shown|))
  {
    var review := new Review();
    shown, refused := [], false;
    while |shown| < |memos|
      invariant review.Valid() && fresh(review) && AllFaithful(h, memos, shown)
      invariant review.displayedShieldedOutputs == |shown| && review.retainedMemoBytes == TotalRetained(shown)
      decreases |memos| - |shown|
    {
      assert shown[..|shown|] == shown;
      var r := Show(review, h, memos[|shown|]);
      if r.Err? {
        refused := true;
        return;
      }
      Extend(h, memos, shown, r.value);
      TotalSnoc(shown, r.value);
      shown := shown + [r.value];
    }
  }

  // Claims room for one output and renders its memo.
  method Show(review: Review, h: Hash32, memo: seq<u8>) returns (r: Result<Option<MemoText>, Error>)
    requires review.Valid()
    modifies review
    ensures review.Valid() && review.retainedMemoBytes == old(review.retainedMemoBytes) + Retained(r)
    ensures r.Ok? ==> review.displayedShieldedOutputs == old(review.displayedShieldedOutputs) + 1
    ensures r.Ok? ==> Rendered(h, memo, 1024 - old(review.retainedMemoBytes), r.value)
    ensures r.Err? <==> || old(review.displayedShieldedOutputs) == 4
                        || CannotShow(memo, 1024 - old(review.retainedMemoBytes))
  {
    var claimed := review.Claim();
    if claimed.Err? {
      return Err(claimed.error);
    }
    r := review.MemoDisplay(h, memo);
  }

  lemma Extend(h: Hash32, memos: seq<seq<u8>>, shown: seq<Option<MemoText>>, m: Option<MemoText>)
    requires AllFaithful(h, memos, shown) && |shown| < |memos|
    requires Rendered(h, memos[|shown|], 1024 - TotalRetained(shown), m)
    ensures AllFaithful(h, memos, shown + [m])
  {
    var grown := shown + [m];
    forall i | 0 <= i < |grown| ensures Rendered(h, memos[i], BudgetAt(grown, i), grown[i]) {
      if i < |shown| {
        assert Rendered(h, memos[i], BudgetAt(shown, i), shown[i]) && grown[..i] == shown[..i];
      } else {
        assert grown[..i] == shown;
      }
    }
  }

  lemma TotalSnoc(shown: seq<Option<MemoText>>, m: Option<MemoText>)
    ensures TotalRetained(shown + [m]) == TotalRetained(shown) + Retained(Ok(m))
  {
    assert (shown + [m])[..|shown|] == shown;
  }
}
