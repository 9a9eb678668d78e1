/**
 The Sinsemilla messages of the note commitment (ledger_zcash_crypto/src/orchard.rs)
 and of Commit^ivk (ledger_zcash_crypto/src/lib.rs): how the bits are laid out, and
 that the layout loses nothing of the fields.
 */
module NoteMessage {
  import opened Words
  import opened Bytes

  const L_ORCHARD_BASE: nat := 255
  const NOTE_COMMITMENT_MESSAGE_BITS: nat := 32 * 8 + 32 * 8 + 64 + L_ORCHARD_BASE + L_ORCHARD_BASE
  const COMMIT_IVK_MESSAGE_BITS: nat := 2 * L_ORCHARD_BASE

  datatype Note = Note(gD: Bytes32, pkD: Bytes32, value: nat, rho: Bytes32, psi: Bytes32) {
    // `value` is a u64; rho and psi encode base-field elements.
    ghost predicate Valid() {
      && value < Pow256(8)
      && BytesVal(rho) < Pow2(L_ORCHARD_BASE)
      && BytesVal(psi) < Pow2(L_ORCHARD_BASE)
    }
  }

  /** Writes the first `bitLen` bits of `bytes` at `offset` and nothing else. */
  method AppendLeBits(message: array<bool>, offset: nat, bytes: seq<u8>, bitLen: nat) returns (offset': nat)
    requires offset + bitLen <= message.Length && bitLen <= 8 * |bytes|
    modifies message
    ensures offset' == offset + bitLen
    ensures message[..offset'] == old(message[..offset]) + LeBits(bytes, bitLen)
    ensures message[offset'..] == old(message[offset'..])
  {
    for bitIndex := 0 to bitLen
      invariant message[..offset + bitIndex] == old(message[..offset]) + LeBits(bytes, bitLen)[..bitIndex]
      invariant message[offset + bitIndex..] == old(message[offset + bitIndex..])
    {
      ghost var before := message[..];
      message[offset + bitIndex] := BitAt(bytes, bitIndex);
      assert message[..offset + bitIndex] == before[..offset + bitIndex];
      assert message[..offset + bitIndex + 1] == message[..offset + bitIndex] + [BitAt(bytes, bitIndex)];
      assert message[offset + bitIndex + 1..] == before[offset + bitIndex..][1..];
      assert old(message[offset + bitIndex..])[1..] == old(message[offset + bitIndex + 1..]);
    }
    offset' := offset + bitLen;
    assert LeBits(bytes, bitLen)[..bitLen] == LeBits(bytes, bitLen);
  }

  // The layout: g_d, pk_d, the value, rho and psi one after the other.
  function Layout(n: Note): (bits: seq<bool>)
    ensures |bits| == NOTE_COMMITMENT_MESSAGE_BITS
  {
    LeBits(n.gD, 32 * 8) + LeBits(n.pkD, 32 * 8) + LeBits(ToBytes(n.value, 8), 64)
    + LeBits(n.rho, L_ORCHARD_BASE) + LeBits(n.psi, L_ORCHARD_BASE)
  }

  /** The five calls fill all 1086 bits, each exactly once. */
  method NoteCommitmentMessage(n: Note) returns (bits: seq<bool>)
    ensures bits == Layout(n)
  {
    var message := new bool[NOTE_COMMITMENT_MESSAGE_BITS];
    var offset := AppendLeBits(message, 0, n.gD, 32 * 8);
    offset := AppendLeBits(message, offset, n.pkD, 32 * 8);
    offset := AppendLeBits(message, offset, ToBytes(n.value, 8), 64);
    offset := AppendLeBits(message, offset, n.rho, L_ORCHARD_BASE);
    offset := AppendLeBits(message, offset, n.psi, L_ORCHARD_BASE);
    assert offset == message.Length;
    assert message[..offset] == message[..];
    bits := message[..];
  }

  lemma FiveSegments<T>(a: seq<T>, b: seq<T>, c: seq<T>, d: seq<T>, e: seq<T>)
    ensures var s := a + b + c + d + e;
            var i, j, k, l := |a|, |a| + |b|, |a| + |b| + |c|, |a| + |b| + |c| + |d|;
            && s[..i] == a && s[i..j] == b && s[j..k] == c && s[k..l] == d && s[l..] == e
  {}

  /** Every field can be read back from its bits of the message. */
  lemma LayoutDecodes(n: Note)
    requires n.Valid()
    ensures BitsVal(Layout(n)[..256]) == BytesVal(n.gD)
    ensures BitsVal(Layout(n)[256..512]) == BytesVal(n.pkD)
    ensures BitsVal(Layout(n)[512..576]) == n.value
    ensures BitsVal(Layout(n)[576..831]) == BytesVal(n.rho)
    ensures BitsVal(Layout(n)[831..]) == BytesVal(n.psi)
  {
    FiveSegments(LeBits(n.gD, 32 * 8), LeBits(n.pkD, 32 * 8), LeBits(ToBytes(n.value, 8), 64),
                 LeBits(n.rho, L_ORCHARD_BASE), LeBits(n.psi, L_ORCHARD_BASE));
    LeBitsVal(n.gD);
    LeBitsVal(n.pkD);
    LeBitsVal(ToBytes(n.value, 8));
    ToBytesVal(n.value, 8);
    LeBitsTruncated(n.rho, L_ORCHARD_BASE);
    LeBitsTruncated(n.psi, L_ORCHARD_BASE);
  }

  /** The message determines the note. */
  lemma LayoutInjective(n: Note, m: Note)
    requires n.Valid() && m.Valid() && Layout(n) == Layout(m)
    ensures n == m
  {
    LayoutDecodes(n);
    LayoutDecodes(m);
    BytesValInjective(n.gD, m.gD);
    BytesValInjective(n.pkD, m.pkD);
    BytesValInjective(n.rho, m.rho);
    BytesValInjective(n.psi, m.psi);
  }

  // ---------------------------------------------------------------- Commit^ivk

  // repr_to_truncated_le_bits: the bits are filled by index.
  method TruncatedLeBits(repr: Bytes32, n: nat) returns (bits: seq<bool>)
    requires n <= 256
    ensures bits == LeBits(repr, n)
  {
    var out := new bool[n];
    var i := 0;
    while i < n
      invariant i <= n
      invariant forall k :: 0 <= k < i ==> out[k] == BitAt(repr, k)
    {
      out[i] := BitAt(repr, i);
      i := i + 1;
    }
    bits := out[..];
  }

  method CommitIvkMessage(ak: Bytes32, nk: Bytes32) returns (bits: seq<bool>)
    ensures |bits| == COMMIT_IVK_MESSAGE_BITS
    ensures bits == LeBits(ak, L_ORCHARD_BASE) + LeBits(nk, L_ORCHARD_BASE)
    ensures BytesVal(ak) < Pow2(L_ORCHARD_BASE) && BytesVal(nk) < Pow2(L_ORCHARD_BASE) ==>
              && BitsVal(bits[..L_ORCHARD_BASE]) == BytesVal(ak)
              && BitsVal(bits[L_ORCHARD_BASE..]) == BytesVal(nk)
  {
    var akBits := TruncatedLeBits(ak, L_ORCHARD_BASE);
    var nkBits := TruncatedLeBits(nk, L_ORCHARD_BASE);
    bits := akBits + nkBits;
    assert bits[..L_ORCHARD_BASE] == akBits && bits[L_ORCHARD_BASE..] == nkBits;
    if BytesVal(ak) < Pow2(L_ORCHARD_BASE) && BytesVal(nk) < Pow2(L_ORCHARD_BASE) {
      LeBitsTruncated(ak, L_ORCHARD_BASE);
      LeBitsTruncated(nk, L_ORCHARD_BASE);
    }
  }

  lemma CommitIvkInjective(ak: Bytes32, nk: Bytes32, ak': Bytes32, nk': Bytes32)
    requires BytesVal(ak) < Pow2(L_ORCHARD_BASE) && BytesVal(nk) < Pow2(L_ORCHARD_BASE)
    requires BytesVal(ak') < Pow2(L_ORCHARD_BASE) && BytesVal(nk') < Pow2(L_ORCHARD_BASE)
    requires LeBits(ak, L_ORCHARD_BASE) + LeBits(nk, L_ORCHARD_BASE)
          == LeBits(ak', L_ORCHARD_BASE) + LeBits(nk', L_ORCHARD_BASE)
    ensures ak == ak' && nk == nk'
  {
    SplitAt(LeBits(ak, L_ORCHARD_BASE), LeBits(nk, L_ORCHARD_BASE),
               LeBits(ak', L_ORCHARD_BASE), LeBits(nk', L_ORCHARD_BASE));
    LeBitsTruncated(ak, L_ORCHARD_BASE);
    LeBitsTruncated(nk, L_ORCHARD_BASE);
    LeBitsTruncated(ak', L_ORCHARD_BASE);
    LeBitsTruncated(nk', L_ORCHARD_BASE);
    BytesValInjective(ak, ak');
    BytesValInjective(nk, nk');
  }
}
