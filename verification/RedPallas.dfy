/**
 RedPallas signing and key randomization (ledger_zcash_crypto/src/redpallas.rs),
 section 5.4.7 of the Zcash protocol specification.
 */
module RedPallas {
  import opened Outcomes
  import opened Residues
  import opened Words
  import opened Bytes
  import opened PallasPoints

  // H^star, the hash to a canonical little-endian scalar.
  type HStar = seq<u8> -> Bytes32

  ghost predicate CanonicalHash<E(!new)>(sdk: Sdk<E>, hstar: HStar) {
    forall m {:trigger hstar(m)} :: BytesVal(hstar(m)) < sdk.order
  }

  // The two halves of the 64-byte signature.
  datatype Signature = Signature(r: Bytes32, s: Bytes32)

  datatype SigningKey = SigningKey(bytes: Bytes32, verificationKey: Bytes32)

  // redpallas_hstar: a 64-byte hash read as a little-endian integer and reduced modulo
  // the order. Whatever the hash, the result is canonical.
  function ReducedHash<E(!new)>(sdk: Sdk<E>, hash: seq<u8> -> seq<u8>, m: seq<u8>): (r: Bytes32)
    requires sdk.Correct()
    ensures BytesVal(r) < sdk.order && BytesVal(r) % sdk.order == BytesVal(hash(m)) % sdk.order
  {
    var wide := BytesVal(hash(m));
    ModUnique(wide % sdk.order, 0, wide % sdk.order, sdk.order);
    Reverse(ExportBe(wide % sdk.order))
  }

  function BasepointMulBytes<E(!new)>(sdk: Sdk<E>, basepoint: Bytes32, scalarBe: Bytes32): (r: Result<Bytes32, Error>)
    requires sdk.Correct()
    ensures r.Ok? ==>
      && PointFromBytes(sdk, basepoint).Some?
      && PointFromBytes(sdk, r.value)
        == Some(sdk.g.mul(BytesVal(Reverse(scalarBe)), PointFromBytes(sdk, basepoint).value))
  {
    match BasepointMul(sdk, basepoint, scalarBe)
    case Err(e) => Err(e)
    case Ok(p) =>
      match PointToBytes(sdk, p)
      case None => Err(Cx)
      case Some(b) => Ok(b)
  }

  /**
   The verification equation of section 5.4.7: R and s are decoded strictly, c is the
   hash of R, the key and the message, and [s] B = R + [c] vk.
   */
  ghost predicate Verifies<E(!new)>(sdk: Sdk<E>, hstar: HStar, basepoint: Bytes32, pk: Bytes32, msg: seq<u8>,
                                    rBytes: Bytes32, sBytes: Bytes32)
    requires sdk.Correct()
  {
    var b, vk, r := PointFromBytes(sdk, basepoint), PointFromBytes(sdk, pk), PointFromBytes(sdk, rBytes);
    && b.Some? && vk.Some? && r.Some?
    && BytesVal(sBytes) < sdk.order
    && var c := BytesVal(hstar(rBytes + pk + msg));
    && sdk.g.mul(BytesVal(sBytes), b.value) == sdk.g.add(r.value, sdk.g.mul(c, vk.value))
  }

  // nonce + challenge * scalar, whatever the representative `modAdd` returns.
  lemma ResponseCongruent(order: nat, nonce: nat, challenge: nat, scalar: nat, product: nat, sum: nat)
    requires order > 0 && product == (challenge * scalar) % order && sum % order == (nonce + product) % order
    ensures (sum % order) % order == (nonce + challenge * scalar) % order
  {
    var t := challenge * scalar;
    DivMod(t, order);
    DivMod(sum, order);
    ModUnique(sum % order, 0, sum % order, order);
    ModShift(nonce + product, t / order, order);
  }

  // [s] B = R + [c] vk from s = nonce + c * scalar modulo the order.
  lemma SchnorrEquation<E(!new)>(sdk: Sdk<E>, b: E, s: nat, nonce: nat, c: nat, scalar: nat)
    requires sdk.Correct() && s % sdk.order == (nonce + c * scalar) % sdk.order
    ensures sdk.g.mul(s, b) == sdk.g.add(sdk.g.mul(nonce, b), sdk.g.mul(c, sdk.g.mul(scalar, b)))
  {
    sdk.g.MulCongruent(sdk.order, s, nonce + c * scalar, b);
    sdk.g.MulAdd(nonce, c * scalar, b);
    sdk.g.MulMul(c, scalar, b);
  }

  // What the signer outputs: R = [H*(random, pk, msg)] B and the canonical
  // s = nonce + H*(R, pk, msg) * scalar.
  ghost predicate SignatureOf<E(!new)>(sdk: Sdk<E>, hstar: HStar, scalar: nat, pk: Bytes32, basepoint: Bytes32,
                                       random: seq<u8>, msg: seq<u8>, rBytes: Bytes32, sBytes: Bytes32)
    requires sdk.Correct()
  {
    var nonce, challenge := hstar(random + pk + msg), hstar(rBytes + pk + msg);
    && BasepointMulBytes(sdk, basepoint, Reverse(nonce)) == Ok(rBytes)
    && BytesVal(sBytes) < sdk.order
    && BytesVal(sBytes) % sdk.order == (BytesVal(nonce) + BytesVal(challenge) * scalar) % sdk.order
  }

  /**
   redpallas_sign: refuses only a non-canonical key or a point the secure element
   cannot export. `modAdd` may return an unreduced sum; s is canonical all the same.
   */
  method Sign<E(!new)>(sdk: Sdk<E>, hstar: HStar, scalarLe: Bytes32, pk: Bytes32, basepoint: Bytes32, random: seq<u8>,
                       msg: seq<u8>)
    returns (r: Result<Signature, Error>)
    requires sdk.Correct() && CanonicalHash(sdk, hstar)
    ensures r.Ok? <==> (BytesVal(scalarLe) < sdk.order &&
                       BasepointMulBytes(sdk, basepoint, Reverse(hstar(random + pk + msg))).Ok?)
    ensures r.Ok? ==> SignatureOf(sdk, hstar, BytesVal(scalarLe), pk, basepoint, random, msg, r.value.r, r.value.s)
    ensures r.Ok? ==> BytesVal(r.value.s) < sdk.order
                      && BytesVal(r.value.s) % sdk.order
                         == (BytesVal(hstar(random + pk + msg))
                             + BytesVal(hstar(r.value.r + pk + msg)) * BytesVal(scalarLe))
                            % sdk.order
  {
    var scalarBe := CanonicalScalarBe(sdk, scalarLe);
    if scalarBe.Err? {
      return Err(scalarBe.error);
    }
    var nonceLe := hstar(random + pk + msg);
    var nonceBe := CanonicalScalarBe(sdk, nonceLe);
    var rBytes := BasepointMulBytes(sdk, basepoint, nonceBe.value);
    if rBytes.Err? {
      return Err(rBytes.error);
    }
    var challengeLe := hstar(rBytes.value + pk + msg);
    var challengeBe := CanonicalScalarBe(sdk, challengeLe);
    var nonce, challenge := BytesVal(Reverse(nonceBe.value)), BytesVal(Reverse(challengeBe.value));
    var scalar := BytesVal(Reverse(scalarBe.value));
    assert nonce == BytesVal(nonceLe) && challenge == BytesVal(challengeLe) && scalar == BytesVal(scalarLe);
    var sLe := Response(sdk, nonce, challenge, scalar);
    r := Ok(Signature(rBytes.value, sLe));
  }

  /** Every signature made with the scalar of the verification key verifies. */
  lemma SignaturesVerify<E(!new)>(sdk: Sdk<E>, hstar: HStar, scalar: nat, pk: Bytes32, basepoint: Bytes32,
                                  random: seq<u8>, msg: seq<u8>, rBytes: Bytes32, sBytes: Bytes32)
    requires sdk.Correct() && SignatureOf(sdk, hstar, scalar, pk, basepoint, random, msg, rBytes, sBytes)
    requires PointFromBytes(sdk, basepoint).Some?
    requires PointFromBytes(sdk, pk) == Some(sdk.g.mul(scalar, PointFromBytes(sdk, basepoint).value))
    ensures Verifies(sdk, hstar, basepoint, pk, msg, rBytes, sBytes)
  {
    var nonce, challenge := hstar(random + pk + msg), hstar(rBytes + pk + msg);
    ReverseTwice(nonce);
    SchnorrEquation(sdk, PointFromBytes(sdk, basepoint).value, BytesVal(sBytes), BytesVal(nonce), BytesVal(challenge),
                    scalar);
  }

  // s = nonce + challenge * scalar, reduced to a canonical scalar.
  method Response<E(!new)>(sdk: Sdk<E>, nonce: nat, challenge: nat, scalar: nat) returns (sLe: Bytes32)
    requires sdk.Correct() && nonce < sdk.order
    ensures BytesVal(sLe) < sdk.order
    ensures BytesVal(sLe) % sdk.order == (nonce + challenge * scalar) % sdk.order
  {
    var product := Product(challenge, scalar) % sdk.order;
    var sum := sdk.modAdd(nonce, product);
    assert sdk.ModAddCorrect(nonce, product);
    var s := sum % sdk.order;
    sLe := Reverse(ExportBe(s));
    ResponseCongruent(sdk.order, nonce, challenge, scalar, product, sum);
  }

  function Product(a: nat, b: nat): (p: nat)
    ensures p == a * b
  {
    a * b
  }

  // ---------------------------------------------------------------- randomized keys

  // spendauth_signing_key: the key and [scalar] B.
  method SpendAuthSigningKey<E(!new)>(sdk: Sdk<E>, basepoint: Bytes32, scalarLe: Bytes32)
    returns (r: Result<SigningKey, Error>)
    requires sdk.Correct()
    ensures r.Ok? <==> BytesVal(scalarLe) < sdk.order && BasepointMulBytes(sdk, basepoint, Reverse(scalarLe)).Ok?
    ensures r.Ok? ==> r.value.bytes == scalarLe
                      && Ok(r.value.verificationKey) == BasepointMulBytes(sdk, basepoint, Reverse(scalarLe))
  {
    var scalarBe := CanonicalScalarBe(sdk, scalarLe);
    if scalarBe.Err? {
      return Err(scalarBe.error);
    }
    var vk := BasepointMulBytes(sdk, basepoint, scalarBe.value);
    if vk.Err? {
      return Err(vk.error);
    }
    r := Ok(SigningKey(scalarLe, vk.value));
  }

  // Both operands must be canonical.
  ghost predicate Canonical<E(!new)>(sdk: Sdk<E>, scalarLe: Bytes32, alphaLe: Bytes32) {
    BytesVal(scalarLe) < sdk.order && BytesVal(alphaLe) < sdk.order
  }

  // (scalar + alpha) mod order through the unreduced sum.
  method RandomizedScalar<E(!new)>(sdk: Sdk<E>, scalarLe: Bytes32, alphaLe: Bytes32) returns (r: Result<Bytes32, Error>)
    requires sdk.Correct()
    ensures r.Ok? <==> Canonical(sdk, scalarLe, alphaLe)
    ensures r.Ok? ==> r.value == RandomizedBe(sdk, scalarLe, alphaLe)
  {
    var scalarBe := CanonicalScalarBe(sdk, scalarLe);
    if scalarBe.Err? {
      return Err(scalarBe.error);
    }
    var alphaBe := CanonicalScalarBe(sdk, alphaLe);
    if alphaBe.Err? {
      return Err(alphaBe.error);
    }
    var scalar, alpha := BytesVal(Reverse(scalarBe.value)), BytesVal(Reverse(alphaBe.value));
    var sum := sdk.modAdd(scalar, alpha);
    assert sdk.ModAddCorrect(scalar, alpha);
    var reduced := sum % sdk.order;
    assert reduced == (BytesVal(scalarLe) + BytesVal(alphaLe)) % sdk.order;
    r := Ok(ExportBe(reduced));
  }

  ghost function RandomizedBe<E(!new)>(sdk: Sdk<E>, scalarLe: Bytes32, alphaLe: Bytes32): Bytes32
    requires sdk.Correct()
  {
    ExportBe((BytesVal(scalarLe) + BytesVal(alphaLe)) % sdk.order)
  }

  // spendauth_randomized_signing_key.
  method RandomizedSigningKey<E(!new)>(sdk: Sdk<E>, basepoint: Bytes32, scalarLe: Bytes32, alphaLe: Bytes32)
    returns (r: Result<SigningKey, Error>)
    requires sdk.Correct()
    ensures r.Ok? <==> (Canonical(sdk, scalarLe, alphaLe) &&
                       BasepointMulBytes(sdk, basepoint, RandomizedBe(sdk, scalarLe, alphaLe)).Ok?)
    ensures r.Ok? ==> BytesVal(r.value.bytes) == (BytesVal(scalarLe) + BytesVal(alphaLe)) % sdk.order
    ensures r.Ok? ==>
              Ok(r.value.verificationKey) == BasepointMulBytes(sdk, basepoint, RandomizedBe(sdk, scalarLe, alphaLe))
    ensures r.Ok? ==> IsShiftedKey(sdk, basepoint, BytesVal(scalarLe), BytesVal(alphaLe), r.value.verificationKey)
  {
    var randomizedBe := RandomizedScalar(sdk, scalarLe, alphaLe);
    if randomizedBe.Err? {
      return Err(randomizedBe.error);
    }
    ReverseTwice(randomizedBe.value);
    r := SpendAuthSigningKey(sdk, basepoint, Reverse(randomizedBe.value));
    if r.Ok? {
      ShiftedMul(sdk, PointFromBytes(sdk, basepoint).value, BytesVal(scalarLe), BytesVal(alphaLe),
                 BytesVal(Reverse(randomizedBe.value)));
    }
  }

  /**
   orchard_spend_auth_signature_with_ask: the key is randomized by alpha and signs. What it
   releases verifies under vk + [alpha] B, and it refuses only a scalar that is not
   canonical or a point the secure element cannot export.
   */
  method SpendAuthSignature<E(!new)>(sdk: Sdk<E>, hstar: HStar, basepoint: Bytes32, scalarLe: Bytes32, alphaLe: Bytes32,
                                     random: seq<u8>, sigHash: seq<u8>)
    returns (r: Result<Signature, Error>, ghost rk: Bytes32)
    requires sdk.Correct() && CanonicalHash(sdk, hstar)
    ensures r.Ok? ==> IsShiftedKey(sdk, basepoint, BytesVal(scalarLe), BytesVal(alphaLe), rk)
    ensures r.Ok? ==> Verifies(sdk, hstar, basepoint, rk, sigHash, r.value.r, r.value.s)
    ensures var vk := BasepointMulBytes(sdk, basepoint, RandomizedBe(sdk, scalarLe, alphaLe));
            r.Ok? <==> && Canonical(sdk, scalarLe, alphaLe) && vk.Ok?
                       && BasepointMulBytes(sdk, basepoint, Reverse(hstar(random + vk.value + sigHash))).Ok?
  {
    rk := scalarLe;
    var key := RandomizedSigningKey(sdk, basepoint, scalarLe, alphaLe);
    if key.Err? {
      return Err(key.error), rk;
    }
    rk := key.value.verificationKey;
    SumIsCanonical(sdk, scalarLe, alphaLe);
    r := Sign(sdk, hstar, key.value.bytes, key.value.verificationKey, basepoint, random, sigHash);
    if r.Ok? {
      SignaturesVerify(sdk, hstar, BytesVal(key.value.bytes), key.value.verificationKey, basepoint, random, sigHash,
                       r.value.r, r.value.s);
    }
  }

  lemma SumIsCanonical<E(!new)>(sdk: Sdk<E>, scalarLe: Bytes32, alphaLe: Bytes32)
    requires sdk.Correct()
    ensures (BytesVal(scalarLe) + BytesVal(alphaLe)) % sdk.order < sdk.order
  {}

  // spendauth_randomized_verification_key_bytes: the light path succeeds exactly when
  // the full one does and returns the same key.
  method RandomizedVerificationKeyBytes<E(!new)>(sdk: Sdk<E>, basepoint: Bytes32, scalarLe: Bytes32, alphaLe: Bytes32)
    returns (r: Result<Bytes32, Error>)
    requires sdk.Correct()
    ensures r.Ok? <==> (Canonical(sdk, scalarLe, alphaLe) &&
                       BasepointMulBytes(sdk, basepoint, RandomizedBe(sdk, scalarLe, alphaLe)).Ok?)
    ensures r.Ok? ==> r == BasepointMulBytes(sdk, basepoint, RandomizedBe(sdk, scalarLe, alphaLe))
    ensures r.Ok? ==> IsShiftedKey(sdk, basepoint, BytesVal(scalarLe), BytesVal(alphaLe), r.value)
  {
    var randomizedBe := RandomizedScalar(sdk, scalarLe, alphaLe);
    if randomizedBe.Err? {
      return Err(randomizedBe.error);
    }
    r := BasepointMulBytes(sdk, basepoint, randomizedBe.value);
    if r.Ok? {
      ShiftedMul(sdk, PointFromBytes(sdk, basepoint).value, BytesVal(scalarLe), BytesVal(alphaLe),
                 BytesVal(Reverse(randomizedBe.value)));
    }
  }

  // `key` encodes vk + [alpha] B, where vk = [scalar] B is the key before randomization.
  ghost predicate IsShiftedKey<E(!new)>(sdk: Sdk<E>, basepoint: Bytes32, scalar: nat, alpha: nat, key: Bytes32) {
    && PointFromBytes(sdk, basepoint).Some?
    && var b := PointFromBytes(sdk, basepoint).value;
    && PointFromBytes(sdk, key) == Some(sdk.g.add(sdk.g.mul(scalar, b), sdk.g.mul(alpha, b)))
  }

  lemma ShiftedMul<E(!new)>(sdk: Sdk<E>, b: E, scalar: nat, alpha: nat, sum: nat)
    requires sdk.Correct() && sum == (scalar + alpha) % sdk.order
    ensures sdk.g.mul(sum, b) == sdk.g.add(sdk.g.mul(scalar, b), sdk.g.mul(alpha, b))
  {
    sdk.g.MulMod(sdk.order, scalar + alpha, b);
    sdk.g.MulAdd(scalar, alpha, b);
  }
}
