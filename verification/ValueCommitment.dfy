/**
 ValueCommit^Orchard (ledger_zcash_crypto/src/lib.rs), section 5.4.8.3 of the Zcash
 protocol specification: [value] V + [rcv] R, with the zero cases and the negation by
 sign bit the source takes.
 */
module ValueCommitment {
  import opened Outcomes
  import opened Words
  import opened Bytes
  import opened PallasGroup
  import opened PallasPoints

  // The basepoints decode to V and R.
  ghost predicate Bases<E(!new)>(sdk: Sdk<E>, vBytes: Bytes32, rBytes: Bytes32, v: E, r: E) {
    PointFromBytes(sdk, vBytes) == Some(v) && PointFromBytes(sdk, rBytes) == Some(r)
  }

  function UnsignedAbs(value: i64): (n: nat)
    ensures n <= 0x8000_0000_0000_0000 && n as int == if value < 0 then 0 - value else value
  {
    var v: int := value;
    if v < 0 then -v else v
  }

  // A negative term goes through the encoding of its absolute value.
  ghost predicate Negatable<E(!new)>(sdk: Sdk<E>, value: int, v: E) {
    value < 0 ==> sdk.compress(sdk.g.mul(0 - value, v)).Some?
  }

  // value_commitment_value_term: [value] V, absent for zero.
  method ValueTerm<E(!new)>(sdk: Sdk<E>, vBytes: Bytes32, value: i64, ghost v: E) returns (r: Result<Option<E>, Error>)
    requires sdk.Correct()
    ensures r.Ok? && r.value.None? <==> value == 0
    ensures r.Ok? && r.value.Some? && PointFromBytes(sdk, vBytes) == Some(v) ==> r.value.value == sdk.g.mul(value, v)
    ensures PointFromBytes(sdk, vBytes) == Some(v) ==> (r.Ok? <==> Negatable(sdk, value, v))
  {
    if value == 0 {
      return Ok(None);
    }
    var abs := UnsignedAbs(value);
    var term := BasepointMul(sdk, vBytes, ExportBe(abs));
    if term.Err? {
      return Err(term.error);
    }
    if value < 0 {
      var encoded := PointToBytes(sdk, term.value);
      if encoded.None? {
        return Err(Cx);
      }
      var negated := PointFromBytes(sdk, FlipSign(encoded.value));
      sdk.g.MulNeg(abs, v);
      if negated.None? {
        return Err(Cx);
      }
      return Ok(negated);
    }
    r := Ok(Some(term.value));
  }

  // The group element a commitment encoding stands for: 32 zero bytes are the identity.
  ghost function PointOf<E(!new)>(sdk: Sdk<E>, c: Bytes32): Option<E> {
    if AllZero(c) then Some(sdk.g.zero) else PointFromBytes(sdk, c)
  }

  ghost function CommitmentPoint<E(!new)>(sdk: Sdk<E>, value: int, rcv: nat, v: E, r: E): E {
    sdk.g.add(sdk.g.mul(value, v), sdk.g.mul(rcv, r))
  }

  // When a commitment succeeds: the randomness is zero or canonical, and the secure element
  // can export what has to be exported.
  ghost predicate Committable<E(!new)>(sdk: Sdk<E>, value: int, rcv: Bytes32, v: E, r: E) {
    && (AllZero(rcv) || BytesVal(rcv) < sdk.order)
    && Negatable(sdk, value, v)
    && ((value == 0 && AllZero(rcv)) || sdk.compress(CommitmentPoint(sdk, value, BytesVal(rcv), v, r)).Some?)
  }

  /** orchard_value_commitment_bytes: a commitment that succeeds encodes [value] V + [rcv] R. */
  method Commit<E(!new)>(sdk: Sdk<E>, vBytes: Bytes32, rBytes: Bytes32, value: i64, rcv: Bytes32, ghost v: E,
                         ghost r: E)
    returns (c: Result<Bytes32, Error>)
    requires sdk.Correct()
    ensures c.Ok? && Bases(sdk, vBytes, rBytes, v, r) ==>
              PointOf(sdk, c.value) == Some(CommitmentPoint(sdk, value, BytesVal(rcv), v, r))
    ensures Bases(sdk, vBytes, rBytes, v, r) ==> (c.Ok? <==> Committable(sdk, value, rcv, v, r))
    ensures c.Ok? ==> AllZero(rcv) || BytesVal(rcv) < sdk.order
    ensures value == 0 && AllZero(rcv) ==> c.Ok? && AllZero(c.value)
  {
    var valueTerm := ValueTerm(sdk, vBytes, value, v);
    if valueTerm.Err? {
      return Err(valueTerm.error);
    }
    var sum := valueTerm.value;
    ZeroTerms(sdk.g, sdk.g.mul(value, v), sdk.g.mul(BytesVal(rcv), r), v, r);
    if AllZero(rcv) {
      ZeroBytes(rcv);
    } else {
      var rcvBe := CanonicalScalarBe(sdk, rcv);
      if rcvBe.Err? {
        return Err(rcvBe.error);
      }
      var rcvTerm := BasepointMul(sdk, rBytes, rcvBe.value);
      if rcvTerm.Err? {
        return Err(rcvTerm.error);
      }
      sum := Some(if sum.Some? then sdk.g.add(sum.value, rcvTerm.value) else rcvTerm.value);
    }
    if sum.None? {
      return Ok(Zeros(32));
    }
    var encoded := PointToBytes(sdk, sum.value);
    if encoded.None? {
      return Err(Cx);
    }
    c := Ok(encoded.value);
  }

  // What a missing term contributes.
  lemma ZeroTerms<E(!new)>(g: Group<E>, a: E, b: E, v: E, r: E)
    requires g.Abelian()
    ensures g.mul(0, v) == g.zero && g.mul(0, r) == g.zero
    ensures g.add(a, g.zero) == a && g.add(g.zero, b) == b && g.add(g.zero, g.zero) == g.zero
  {
    assert g.Step(0, v) && g.Step(0, r) && g.Unit(a) && g.Unit(b) && g.Comm(g.zero, b) && g.Unit(g.zero);
  }

  lemma {:induction false} ZeroBytes(b: seq<u8>)
    requires AllZero(b)
    ensures BytesVal(b) == 0
  {
    if b != [] { ZeroBytes(b[1..]); }
  }

  // ---------------------------------------------------------------- homomorphism

  datatype Opening = Opening(value: int, rcv: nat)

  ghost function Values(os: seq<Opening>): int {
    if os == [] then 0 else os[0].value + Values(os[1..])
  }

  ghost function Randomness(os: seq<Opening>): nat {
    if os == [] then 0 else os[0].rcv + Randomness(os[1..])
  }

  // `cs` are successful commitments to the openings `os`, in order.
  ghost predicate Commitments<E(!new)>(sdk: Sdk<E>, cs: seq<Bytes32>, os: seq<Opening>, v: E, r: E) {
    && |cs| == |os|
    && forall i :: 0 <= i < |cs| ==>
         PointOf(sdk, cs[i]) == Some(sdk.g.add(sdk.g.mul(os[i].value, v), sdk.g.mul(os[i].rcv, r)))
  }

  ghost function SumOf<E(!new)>(sdk: Sdk<E>, cs: seq<Bytes32>): E
    requires forall i :: 0 <= i < |cs| ==> PointOf(sdk, cs[i]).Some?
  {
    if cs == [] then sdk.g.zero else sdk.g.add(PointOf(sdk, cs[0]).value, SumOf(sdk, cs[1..]))
  }

  /**
   Over any list, the sum of the decoded commitments is
   [sum of the values] V + [sum of the randomness mod order] R.
   */
  lemma SumOfCommitments<E(!new)>(sdk: Sdk<E>, cs: seq<Bytes32>, os: seq<Opening>, v: E, r: E)
    requires sdk.Correct() && Commitments(sdk, cs, os, v, r)
    ensures SumOf(sdk, cs)
         == sdk.g.add(sdk.g.mul(Values(os), v), sdk.g.mul(Randomness(os) % sdk.order, r))
  {
    SumUnreduced(sdk, cs, os, v, r);
    sdk.g.MulMod(sdk.order, Randomness(os), r);
  }

  lemma {:induction false} SumUnreduced<E(!new)>(sdk: Sdk<E>, cs: seq<Bytes32>, os: seq<Opening>, v: E, r: E)
    requires sdk.Correct() && Commitments(sdk, cs, os, v, r)
    ensures SumOf(sdk, cs) == sdk.g.add(sdk.g.mul(Values(os), v), sdk.g.mul(Randomness(os), r))
  {
    var g := sdk.g;
    if cs == [] {
      ZeroTerms(g, g.zero, g.zero, v, r);
    } else {
      SumUnreduced(sdk, cs[1..], os[1..], v, r);
      var x, s := os[0], os[1..];
      g.MulAdd(x.value, Values(s), v);
      g.MulAdd(x.rcv, Randomness(s), r);
      g.Interchange(g.mul(x.value, v), g.mul(x.rcv, r), g.mul(Values(s), v), g.mul(Randomness(s), r));
    }
  }
}
