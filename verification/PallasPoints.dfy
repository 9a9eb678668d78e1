/**
 Pallas points as the secure element handles them: what its point and big-number calls
 promise, and the 32-byte point encoding built on top of them
 (ledger_zcash_crypto/src/lib.rs, redpallas.rs).
 */
module PallasPoints {
  import opened Outcomes
  import opened Words
  import opened Bytes
  import opened PallasGroup

  datatype Error = Cx | MalformedScalar

  const TWO_256: nat := 0x1_0000000000000000_0000000000000000_0000000000000000_0000000000000000

  /**
   Calls into the secure element. `compress` gives the big-endian abscissa and the sign
   bit of a point it can export, `decompress` the point of such a pair; `modAdd` may
   leave its result unreduced.
   */
  datatype Sdk<!E(!new)> = Sdk(
    g: Group<E>,
    order: nat,
    compress: E -> Option<(Bytes32, nat)>,
    decompress: (Bytes32, nat) -> Option<E>,
    modAdd: (nat, nat) -> nat)
  {
    ghost predicate Correct() {
      && g.Abelian() && 0 < order && order <= TWO_256 && g.Annihilates(order)
      && (forall p {:trigger compress(p)} :: CompressCorrect(p))
      && (forall a, b {:trigger modAdd(a, b)} :: ModAddCorrect(a, b))
    }

    // An exported point decompresses to itself and, under the other sign, to its
    // negation. Its abscissa is below 2^255 and is not zero: the curve has no point
    // with x = 0, nor one of order two.
    ghost predicate CompressCorrect(p: E) {
      compress(p).Some? ==>
        var (x, sign) := compress(p).value;
        && sign < 2 && x[0] < 128 && !AllZero(x)
        && decompress(x, sign) == Some(p)
        && decompress(x, 1 - sign) == Some(g.neg(p))
    }

    // Congruent to the sum, but possibly in [order, 2 order).
    ghost predicate ModAddCorrect(a: nat, b: nat) {
      a < order && b < order ==> modAdd(a, b) < 2 * order && modAdd(a, b) % order == (a + b) % order
    }

    // `rnd_scalarmul` on a big-endian scalar.
    function ScalarMul(p: E, scalarBe: Bytes32): E {
      g.mul(BytesVal(Reverse(scalarBe)), p)
    }
  }

  // ---------------------------------------------------------------- encoding

  // `x | (bit << 7)` and `x ^ 0x80` on a byte.
  function SetTop(x: u8, bit: nat): u8
    requires bit < 2
  {
    if x >= 128 || bit == 0 then x else x + 128
  }

  function FlipTop(x: u8): u8 { if x >= 128 then x - 128 else x + 128 }

  function SetSign(xLe: Bytes32, sign: nat): Bytes32 {
    xLe[31 := SetTop(xLe[31], sign % 2)]
  }

  function ClearSign(encoded: Bytes32): Bytes32 {
    encoded[31 := encoded[31] % 128]
  }

  // Flipping the top bit of the last byte.
  function FlipSign(encoded: Bytes32): Bytes32 {
    encoded[31 := FlipTop(encoded[31])]
  }

  lemma SignRoundTrip(xLe: Bytes32, sign: nat)
    requires xLe[31] < 128 && sign < 2
    ensures ClearSign(SetSign(xLe, sign)) == xLe && SetSign(xLe, sign)[31] / 128 == sign
    ensures ClearSign(FlipSign(SetSign(xLe, sign))) == xLe && FlipSign(SetSign(xLe, sign))[31] / 128 == 1 - sign
  {}

  function EncodePoint(xBe: Bytes32, sign: nat): Bytes32 {
    SetSign(Reverse(xBe), sign)
  }

  function DecodePoint(encoded: Bytes32): (Bytes32, nat) {
    (Reverse(ClearSign(encoded)), encoded[31] / 128)
  }

  lemma EncodingRoundTrip(xBe: Bytes32, sign: nat)
    requires xBe[0] < 128 && sign < 2
    ensures DecodePoint(EncodePoint(xBe, sign)) == (xBe, sign)
    ensures DecodePoint(FlipSign(EncodePoint(xBe, sign))) == (xBe, 1 - sign)
  {
    ReverseAt(xBe, 31);
    SignRoundTrip(Reverse(xBe), sign);
    ReverseTwice(xBe);
  }

  /**
   The encoding is 32 little-endian bytes of the abscissa with the sign in the top bit: as an
   integer, x + 2^255 sign, where x is read from its big-endian bytes.
   */
  lemma EncodingValue(xBe: Bytes32, sign: nat)
    requires xBe[0] < 128 && sign < 2
    ensures |EncodePoint(xBe, sign)| == 32 && BytesVal(EncodePoint(xBe, sign)) == BeVal(xBe) + 128 * Pow256(31) * sign
  {
    var xLe := Reverse(xBe);
    ReverseAt(xBe, 31);
    BeIsReversed(xBe);
    SignedVal(xLe, sign, 31);
  }

  lemma SignedVal(xLe: Bytes32, sign: nat, k: nat)
    requires k == 31 && xLe[k] < 128 && sign < 2
    ensures BytesVal(SetSign(xLe, sign)) == BytesVal(xLe) + 128 * Pow256(k) * sign
  {
    LastByte(xLe, k, SetTop(xLe[k], sign % 2));
    LastByte(xLe, k, xLe[k]);
    assert xLe[k := xLe[k]] == xLe;
    TopBit(Pow256(k), xLe[k], sign);
  }

  // The last byte is worth 256^31 times its value.
  lemma LastByte(b: Bytes32, k: nat, last: u8)
    requires k == 31
    ensures BytesVal(b[k := last]) == BytesVal(b[..k]) + Pow256(k) * last
  {
    var c := b[k := last];
    BytesValSplit(c, k);
    assert c[..k] == b[..k] && c[k..] == [last];
    OneByte(last);
  }

  lemma TopBit(p: nat, low: nat, sign: nat)
    ensures p * (low + 128 * sign) == p * low + 128 * p * sign
  {}

  lemma OneByte(x: u8)
    ensures BytesVal([x]) == x
  {
    assert [x][1..] == [];
  }

  // Only the zero abscissa is encoded as 32 zero bytes.
  lemma ZeroDecodes(encoded: Bytes32)
    requires AllZero(encoded)
    ensures AllZero(DecodePoint(encoded).0)
  {
    var x := ClearSign(encoded);
    forall i | 0 <= i < 32 ensures Reverse(x)[i] == 0 {
      ReverseAt(x, i);
    }
  }

  lemma NonZeroEncoding(encoded: Bytes32)
    requires !AllZero(DecodePoint(encoded).0)
    ensures !AllZero(encoded)
  {
    if AllZero(encoded) { ZeroDecodes(encoded); }
  }

  function PointFromBytes<E(!new)>(sdk: Sdk<E>, encoded: Bytes32): (r: Option<E>) {
    var (xBe, sign) := DecodePoint(encoded);
    sdk.decompress(xBe, sign)
  }

  // pallas_point_to_bytes: decoding gives the point back, decoding with the sign bit
  // flipped its negation.
  function PointToBytes<E(!new)>(sdk: Sdk<E>, p: E): (r: Option<Bytes32>)
    requires sdk.Correct()
    ensures r.Some? <==> sdk.compress(p).Some?
    ensures r.Some? ==>
      && PointFromBytes(sdk, r.value) == Some(p)
      && PointFromBytes(sdk, FlipSign(r.value)) == Some(sdk.g.neg(p))
      && !AllZero(r.value) && !AllZero(FlipSign(r.value))
  {
    match sdk.compress(p)
    case None => None
    case Some(pair) =>
      EncodingRoundTrip(pair.0, pair.1);
      NonZeroEncoding(EncodePoint(pair.0, pair.1));
      NonZeroEncoding(FlipSign(EncodePoint(pair.0, pair.1)));
      Some(EncodePoint(pair.0, pair.1))
  }

  // canonical_scalar_bytes_be.
  function CanonicalScalarBe<E(!new)>(sdk: Sdk<E>, le: Bytes32): (r: Result<Bytes32, Error>)
    ensures r.Ok? <==> BytesVal(le) < sdk.order
    ensures r.Ok? ==> BytesVal(Reverse(r.value)) == BytesVal(le)
  {
    ReverseTwice(le);
    if BytesVal(le) < sdk.order then Ok(Reverse(le)) else Err(MalformedScalar)
  }

  // A basepoint decoded and multiplied by a big-endian scalar.
  function BasepointMul<E(!new)>(sdk: Sdk<E>, basepoint: Bytes32, scalarBe: Bytes32): (r: Result<E, Error>)
    ensures r.Ok? <==> PointFromBytes(sdk, basepoint).Some?
    ensures r.Ok? ==> r.value == sdk.g.mul(BytesVal(Reverse(scalarBe)), PointFromBytes(sdk, basepoint).value)
  {
    match PointFromBytes(sdk, basepoint)
    case None => Err(Cx)
    case Some(b) => Ok(sdk.ScalarMul(b, scalarBe))
  }

  // `export` of a reduced number: 32 big-endian bytes.
  function ExportBe(n: nat): (b: Bytes32)
    requires n < TWO_256
    ensures BytesVal(Reverse(b)) == n
  {
    ReverseTwice(ToBytes(n, 32));
    Pow256Of32();
    ToBytesVal(n, 32);
    Reverse(ToBytes(n, 32))
  }
}
