/**
 Multi-limb Montgomery arithmetic of the Pallas base and scalar fields
 (ledger_zcash_crypto/src/montgomery.rs), proved against plain integers with the
 real moduli, R^2 and INV constants.

 Machine words are integers with explicit bounds: every `u64` and `u128` below is
 a subset type, so each assignment carries the proof that the source's arithmetic
 neither overflows nor loses bits except where the source truncates on purpose.
 */
module Montgomery {
  import opened Outcomes
  import opened Residues
  import opened Words
  import opened Bytes

  // Powers of the limb base 2^64.
  const B1: int := 0x1_0000_0000_0000_0000
  const B2: int := 0x1_0000_0000_0000_0000_0000_0000_0000_0000
  const B3: int := 0x1_0000_0000_0000_0000_0000_0000_0000_0000_0000_0000_0000_0000
  const B4: int := 0x1_0000_0000_0000_0000_0000_0000_0000_0000_0000_0000_0000_0000_0000_0000_0000_0000
  const MASK: int := 0xFFFF_FFFF_FFFF_FFFF


  datatype Limbs = Limbs(l0: u64, l1: u64, l2: u64, l3: u64)

  // The integer a four-limb little-endian value stands for.
  function Val(a: Limbs): (v: int)
    ensures 0 <= v < B4
  {
    a.l0
    + B1 * a.l1
    + B2 * a.l2
    + B3 * a.l3
  }

  // ---------------------------------------------------------------- words

  // Bitwise conjunction of two naturals, bit by bit.
  function And(x: nat, y: nat): nat {
    if x == 0 || y == 0 then 0
    else (if x % 2 == 1 && y % 2 == 1 then 1 else 0) + 2 * And(x / 2, y / 2)
  }

  function Ones(n: nat): nat {
    if n == 0 then 0 else 1 + 2 * Ones(n - 1)
  }

  lemma {:induction false} AndOnes(x: nat, n: nat)
    requires x <= Ones(n)
    ensures And(x, Ones(n)) == x
    decreases n
  {
    if n > 0 && x > 0 {
      AndOnes(x / 2, n - 1);
    }
  }

  lemma OnesStep(n: nat)
    ensures Ones(n + 4) == 16 * Ones(n) + 15
  {
    assert Ones(n + 2) == 4 * Ones(n) + 3;
  }

  lemma OnesOf64()
    ensures Ones(64) == MASK
  {
    OnesStep(0); OnesStep(4); OnesStep(8); OnesStep(12);
    OnesStep(16); OnesStep(20); OnesStep(24); OnesStep(28);
    assert Ones(32) == 0xFFFF_FFFF;
    OnesStep(32); OnesStep(36); OnesStep(40); OnesStep(44);
    OnesStep(48); OnesStep(52); OnesStep(56); OnesStep(60);
  }

  // A borrow mask is all zeros or all ones, so masking keeps or clears the limb.
  lemma AndMask(x: u64, mask: u64)
    requires mask == 0 || mask == MASK
    ensures And(x, mask) == if mask == 0 then 0 else x
  {
    if mask != 0 {
      OnesOf64();
      AndOnes(x, 64);
    }
  }

  function Lo(w: u128): u64 { w % B1 }
  function Hi(w: u128): u64 { w / B1 }

  lemma Distrib(x: int, y: int, z: int)
    ensures x * z + y * z == (x + y) * z
  {}

  lemma Assoc(x: int, y: int, z: int)
    ensures x * (y * z) == (x * y) * z
  {}

  lemma ProductBound(b: u64, c: u64)
    ensures 0 <= b * c <= 0xFFFF_FFFF_FFFF_FFFE_0000_0000_0000_0001
  {
    MulMono(0, b, c);
    MulMono(b, 0xFFFF_FFFF_FFFF_FFFF, c);
  }

  function Adc(a: u64, b: u64, carry: u64): (r: (u64, u64))
    ensures r.0 + B1 * r.1 == a + b + carry
  {
    var ret: u128 := a + b + carry;
    (Lo(ret), Hi(ret))
  }

  function Mac(a: u64, b: u64, c: u64, carry: u64): (r: (u64, u64))
    ensures r.0 + B1 * r.1 == a + b * c + carry
  {
    ProductBound(b, c);
    var ret: u128 := a + b * c + carry;
    (Lo(ret), Hi(ret))
  }

  // Subtraction with borrow: the returned borrow is a full-width mask.
  function Sbb(a: u64, b: u64, borrow: u64): (r: (u64, u64))
    requires borrow == 0 || borrow == MASK
    ensures r.1 == 0 || r.1 == MASK
    ensures r.0 == a - b - (if borrow == 0 then 0 else 1) + (if r.1 == 0 then 0 else B1)
  {
    var subtrahend: u128 := b + borrow / 0x8000_0000_0000_0000;
    var ret: u128 := (a - subtrahend) % B2;
    (Lo(ret), Hi(ret))
  }

  // ---------------------------------------------------------------- reduction

  // INV is the negated inverse of the modulus' low limb modulo 2^64.
  ghost predicate NegInverse(m0: int, inv: int) {
    (m0 * inv + 1) % B1 == 0
  }

  // The multiplier chosen in a round clears the low limb.
  lemma LowLimbCleared(w0: u64, m0: u64, inv: u64, k: u64)
    requires NegInverse(m0, inv)
    requires k == (w0 * inv) % B1
    ensures (w0 + k * m0) % B1 == 0
  {
    var q := (w0 * inv) / B1;
    var t := (m0 * inv + 1) / B1;
    calc {
      w0 + k * m0;
    ==
      w0 + (w0 * inv - B1 * q) * m0;
    ==
      w0 * (m0 * inv + 1) - B1 * q * m0;
    ==
      w0 * (B1 * t) - B1 * q * m0;
    ==
      B1 * (w0 * t - q * m0);
    }
  }

  // One of the four unrolled rounds of montgomery_reduce_u64x8: the window `w`
  // and the next limb `next` enter, the window shifted by one limb leaves. Some
  // multiple `k` of the modulus is added to make the low limb zero.
  method ReduceRound(w: Limbs, next: u64, carry2: u64, modulus: Limbs, inv: u64)
    returns (y: Limbs, carry2': u64, ghost k: u64)
    requires NegInverse(modulus.l0, inv) && carry2 <= 1
    ensures carry2' <= 1
    ensures B1 * (Val(y) + B4 * carry2') == Val(w) + B4 * (next + carry2) + k * Val(modulus)
  {
    var factor: u64 := (w.l0 * inv) % B1;
    k := factor;
    var (low, c0) := Mac(w.l0, factor, modulus.l0, 0);
    var (y0, c1) := Mac(w.l1, factor, modulus.l1, c0);
    var (y1, c2) := Mac(w.l2, factor, modulus.l2, c1);
    var (y2, c3) := Mac(w.l3, factor, modulus.l3, c2);
    var (y3, c4) := Adc(next, carry2, c3);
    LowLimbCleared(w.l0, modulus.l0, inv, factor);
    LowLimbZero(low, c0, w.l0 + factor * modulus.l0);
    RoundIdentity(factor, modulus);
    RoundTelescope(w, Limbs(y0, y1, y2, y3), next + carry2, c0, c1, c2, c3, c4,
                   factor * modulus.l0, factor * modulus.l1, factor * modulus.l2, factor * modulus.l3);
    y, carry2' := Limbs(y0, y1, y2, y3), c4;
  }

  lemma LowLimbZero(low: u64, c: int, t: int)
    requires low + B1 * c == t && t % B1 == 0
    ensures low == 0
  {}

  // The carry chain of one round, with the four products as given integers.
  lemma RoundTelescope(w: Limbs, y: Limbs, top: int, c0: int, c1: int, c2: int, c3: int, c4: int,
                       p0: int, p1: int, p2: int, p3: int)
    requires B1 * c0 == w.l0 + p0 && y.l0 + B1 * c1 == w.l1 + p1 + c0 && y.l1 + B1 * c2 == w.l2 + p2 + c1
    requires y.l2 + B1 * c3 == w.l3 + p3 + c2 && y.l3 + B1 * c4 == top + c3
    ensures B1 * (Val(y) + B4 * c4) == Val(w) + B4 * top + p0 + B1 * p1 + B2 * p2 + B3 * p3
  {}

  lemma RoundIdentity(k: int, m: Limbs)
    ensures k * Val(m) == k * m.l0 + B1 * (k * m.l1) + B2 * (k * m.l2) + B3 * (k * m.l3)
  {}

  // The borrow chain: limb-wise difference and the final borrow mask.
  method SubLimbs(a: Limbs, m: Limbs) returns (d: Limbs, borrow: u64)
    ensures borrow == 0 || borrow == MASK
    ensures Val(d) == Val(a) - Val(m) + (if borrow == 0 then 0 else B4)
  {
    var (d0, b0) := Sbb(a.l0, m.l0, 0);
    var (d1, b1) := Sbb(a.l1, m.l1, b0);
    var (d2, b2) := Sbb(a.l2, m.l2, b1);
    var (d3, b3) := Sbb(a.l3, m.l3, b2);
    d, borrow := Limbs(d0, d1, d2, d3), b3;
  }

  // The carry chain that adds the masked modulus back.
  method AddLimbs(a: Limbs, b: Limbs) returns (e: Limbs, carry: u64)
    ensures Val(e) + B4 * carry == Val(a) + Val(b)
  {
    var (e0, c0) := Adc(a.l0, b.l0, 0);
    var (e1, c1) := Adc(a.l1, b.l1, c0);
    var (e2, c2) := Adc(a.l2, b.l2, c1);
    var (e3, c3) := Adc(a.l3, b.l3, c2);
    e, carry := Limbs(e0, e1, e2, e3), c3;
  }

  method MaskLimbs(m: Limbs, mask: u64) returns (r: Limbs)
    requires mask == 0 || mask == MASK
    ensures Val(r) == if mask == 0 then 0 else Val(m)
  {
    AndMask(m.l0, mask);
    AndMask(m.l1, mask);
    AndMask(m.l2, mask);
    AndMask(m.l3, mask);
    r := Limbs(And(m.l0, mask), And(m.l1, mask), And(m.l2, mask), And(m.l3, mask));
  }

  // Subtracts the modulus exactly when the value reaches it, without branching on it.
  method SubtractModulusIfNeeded(a: Limbs, m: Limbs) returns (r: Limbs)
    ensures Val(r) == if Val(a) >= Val(m) then Val(a) - Val(m) else Val(a)
  {
    var d, borrow := SubLimbs(a, m);
    var masked := MaskLimbs(m, borrow);
    var e, carry := AddLimbs(d, masked);
    r := e;
    AddBack(Val(a), Val(m), Val(d), Val(masked), Val(e), carry, borrow == 0);
  }

  lemma AddBack(a: int, m: int, d: int, x: int, e: int, carry: int, noBorrow: bool)
    requires 0 <= a < B4 && 0 <= m < B4 && 0 <= d < B4 && 0 <= e < B4 && 0 <= carry
    requires d == a - m + (if noBorrow then 0 else B4)
    requires x == if noBorrow then 0 else m
    requires e + B4 * carry == d + x
    ensures e == if a >= m then a - m else a
  {}

  /**
   Montgomery reduction of an eight-limb value: four rounds, then the conditional
   subtraction. For every modulus below 2^255 with its matching INV and every value
   below 2^256 * m, the carry the source drops is zero and the result is the
   canonical residue r with r * 2^256 congruent to the input.
   */
  method Reduce(low: Limbs, high: Limbs, modulus: Limbs, inv: u64) returns (r: Limbs)
    requires NegInverse(modulus.l0, inv)
    ensures Reducible(low, high, modulus) ==>
              && Val(r) < Val(modulus)
              && (Val(r) * B4) % Val(modulus) == (Val(low) + B4 * Val(high)) % Val(modulus)
  {
    var w, carry, k := ReduceRounds(low, high, modulus, inv);
    r := SubtractModulusIfNeeded(w, modulus);
    if Reducible(low, high, modulus) {
      QuotientBounds(Val(w), carry, k, Val(modulus), Val(low) + B4 * Val(high));
    }
  }

  // A modulus of at most 255 bits, and a value below 2^256 times the modulus.
  ghost predicate Reducible(low: Limbs, high: Limbs, modulus: Limbs) {
    0 < 2 * Val(modulus) <= B4 && Val(low) + B4 * Val(high) < B4 * Val(modulus)
  }

  // The four rounds: a multiple of the modulus is added and 2^256 divided out. The carry out
  // of the last one, which the source drops, is zero and the quotient is below twice the modulus.
  method ReduceRounds(low: Limbs, high: Limbs, modulus: Limbs, inv: u64) returns (w: Limbs, carry: u64, ghost k: nat)
    requires NegInverse(modulus.l0, inv)
    ensures B4 * (Val(w) + B4 * carry) == Val(low) + B4 * Val(high) + k * Val(modulus) && k < B4
    ensures Reducible(low, high, modulus) ==> carry == 0 && Val(w) < 2 * Val(modulus)
  {
    var w1, c1, k0 := ReduceRound(low, high.l0, 0, modulus, inv);
    var w2, c2, k1 := ReduceRound(w1, high.l1, c1, modulus, inv);
    var w3, c3, k2 := ReduceRound(w2, high.l2, c2, modulus, inv);
    var w4, c4, k3 := ReduceRound(w3, high.l3, c3, modulus, inv);
    w, carry, k := w4, c4, k0 + B1 * k1 + B2 * k2 + B3 * k3;
    Telescope(Val(low), Val(w1), Val(w2), Val(w3), Val(w4), high, c1, c2, c3, c4, k0, k1, k2, k3, Val(modulus));
    NoCarry(low, high, modulus, w, carry, k);
  }

  lemma NoCarry(low: Limbs, high: Limbs, modulus: Limbs, w: Limbs, carry: u64, k: nat)
    requires B4 * (Val(w) + B4 * carry) == Val(low) + B4 * Val(high) + k * Val(modulus) && k < B4
    ensures Reducible(low, high, modulus) ==> carry == 0 && Val(w) < 2 * Val(modulus)
  {
    if Reducible(low, high, modulus) {
      QuotientBounds(Val(w), carry, k, Val(modulus), Val(low) + B4 * Val(high));
    }
  }

  lemma Telescope(v0: int, v1: int, v2: int, v3: int, v4: int, h: Limbs,
                  c1: int, c2: int, c3: int, c4: int, k0: int, k1: int, k2: int, k3: int, M: int)
    requires B1 * (v1 + B4 * c1) == v0 + B4 * h.l0 + k0 * M
    requires B1 * (v2 + B4 * c2) == v1 + B4 * (h.l1 + c1) + k1 * M
    requires B1 * (v3 + B4 * c3) == v2 + B4 * (h.l2 + c2) + k2 * M
    requires B1 * (v4 + B4 * c4) == v3 + B4 * (h.l3 + c3) + k3 * M
    ensures B4 * (v4 + B4 * c4) == v0 + B4 * Val(h) + (k0 + B1 * k1 + B2 * k2 + B3 * k3) * M
  {
    Distribute4(k0, k1, k2, k3, M);
  }

  lemma Distribute4(k0: int, k1: int, k2: int, k3: int, M: int)
    ensures (k0 + B1 * k1 + B2 * k2 + B3 * k3) * M == k0 * M + B1 * (k1 * M) + B2 * (k2 * M) + B3 * (k3 * M)
  {}

  // The quotient is below 2m, so the dropped carry is zero and one subtraction reduces it.
  lemma QuotientBounds(w: int, c: int, k: int, M: int, T: int)
    requires 0 <= w < B4 && 0 <= c && 0 <= k < B4 && 0 < 2 * M <= B4 && 0 <= T < B4 * M
    requires B4 * (w + B4 * c) == T + k * M
    ensures c == 0 && w < 2 * M
    ensures var r := if w >= M then w - M else w; (r * B4) % M == T % M
  {
    MulMono(k, B4 - 1, M);
    var sub := if w >= M then 1 else 0;
    var r := w - sub * M;
    assert r * B4 == T + (k - sub * B4) * M;
    ModShift(T, k - sub * B4, M);
  }

  // ---------------------------------------------------------------- multiplication

  // The integer a little-endian limb sequence of any length stands for.
  function SeqVal(s: seq<u64>): nat {
    if s == [] then 0 else s[0] + B1 * SeqVal(s[1..])
  }

  function Pow(k: nat): (p: nat)
    ensures p > 0
  {
    if k == 0 then 1 else B1 * Pow(k - 1)
  }

  lemma {:induction false} PowSum(i: nat, j: nat)
    ensures Pow(i + j) == Pow(i) * Pow(j)
  {
    if i > 0 {
      PowSum(i - 1, j);
      Assoc(B1, Pow(i - 1), Pow(j));
    }
  }

  lemma {:induction false} PowMono(i: nat, j: nat)
    requires i <= j
    ensures Pow(i) <= Pow(j)
  {
    if i < j { PowMono(i, j - 1); }
  }

  lemma {:induction false} SeqValBound(s: seq<u64>)
    ensures SeqVal(s) < Pow(|s|)
  {
    if s != [] {
      SeqValBound(s[1..]);
    }
  }

  lemma {:induction false} SeqValUpdate(s: seq<u64>, k: nat, x: u64)
    requires k < |s|
    ensures SeqVal(s[k := x]) == SeqVal(s) + (x - s[k]) * Pow(k)
  {
    if k == 0 {
      assert s[k := x][1..] == s[1..];
    } else {
      SeqValUpdate(s[1..], k - 1, x);
      assert s[k := x][1..] == s[1..][k - 1 := x];
      var d := x - s[k];
      assert B1 * (d * Pow(k - 1)) == d * Pow(k);
    }
  }

  lemma {:induction false} SeqValSnoc(s: seq<u64>, j: nat)
    requires j < |s|
    ensures SeqVal(s[..j + 1]) == SeqVal(s[..j]) + s[j] * Pow(j)
  {
    if j == 0 {
      assert s[..1] == [s[0]] && s[..1][1..] == [];
    } else {
      SeqValSnoc(s[1..], j - 1);
      assert s[..j + 1][1..] == s[1..][..j] && s[..j][1..] == s[1..][..j - 1];
      var d := s[j];
      assert B1 * (d * Pow(j - 1)) == d * Pow(j);
    }
  }

  // The value invariant kept by one multiply-accumulate of the inner loop.
  lemma InnerStep(out: seq<u64>, a: u64, b: seq<u64>, i: nat, j: nat, carry: u64, lo: u64, hi: u64, done: int)
    requires i + j < |out| && j < |b|
    requires SeqVal(out) + carry * Pow(i + j) == done + a * Pow(i) * SeqVal(b[..j])
    requires lo + B1 * hi == a * b[j] + out[i + j] + carry
    ensures SeqVal(out[i + j := lo]) + hi * Pow(i + j + 1) == done + a * Pow(i) * SeqVal(b[..j + 1])
  {
    var k := i + j;
    SeqValUpdate(out, k, lo);
    SeqValSnoc(b, j);
    PowSum(i, j);
    assert Pow(k + 1) == B1 * Pow(k);
    InnerAlgebra(SeqVal(out), done, a, b[j], out[k], carry, lo, hi, Pow(k), Pow(i), Pow(j), SeqVal(b[..j]));
  }

  lemma InnerAlgebra(v: int, done: int, a: int, bj: int, o: int, carry: int, lo: int, hi: int,
                     P: int, pi: int, pj: int, prev: int)
    requires P == pi * pj
    requires v + carry * P == done + a * pi * prev
    requires lo + B1 * hi == a * bj + o + carry
    ensures v + (lo - o) * P + hi * (B1 * P) == done + a * pi * (prev + bj * pj)
  {
    calc {
      v + (lo - o) * P + hi * (B1 * P);
    ==
      v + (lo + B1 * hi - o) * P;
    ==
      v + carry * P + a * bj * P;
    ==
      done + a * pi * prev + a * bj * (pi * pj);
    ==
      done + a * pi * (prev + bj * pj);
    }
  }

  lemma CarryStep(out: seq<u64>, k: nat, carry: u64, lo: u64, hi: u64)
    requires k < |out|
    requires lo + B1 * hi == out[k] + carry
    ensures SeqVal(out[k := lo]) + hi * Pow(k + 1) == SeqVal(out) + carry * Pow(k)
  {
    SeqValUpdate(out, k, lo);
    var P, o := Pow(k), out[k];
    assert (lo - o) * P + hi * (B1 * P) == (lo + B1 * hi - o) * P;
  }

  // A pending carry at limb k of a partial product of i+1 rows forces k <= i + 4.
  lemma CarryPosition(rest: nat, carry: u64, k: nat, i: nat, a: seq<u64>, b: seq<u64>)
    requires |a| == |b| == 4 && i < 4 && carry > 0
    requires rest + carry * Pow(k) == SeqVal(a[..i + 1]) * SeqVal(b)
    ensures k <= i + 4
  {
    SeqValBound(a[..i + 1]);
    SeqValBound(b);
    var x, y := SeqVal(a[..i + 1]), SeqVal(b);
    MulMono(x, Pow(i + 1), y);
    MulMono(y, Pow(4) - 1, Pow(i + 1));
    PowSum(i + 1, 4);
    MulMono(1, carry, Pow(k));
    if k > i + 4 {
      PowMono(i + 5, k);
    }
  }

  /**
   Schoolbook multiplication: the eight limbs hold exactly val(a) * val(b). The
   trailing `while carry != 0` loop never indexes past limb 7.
   */
  method MulU64x4(a: seq<u64>, b: seq<u64>) returns (out: array<u64>)
    requires |a| == |b| == 4
    ensures fresh(out) && out.Length == 8
    ensures SeqVal(out[..]) == SeqVal(a) * SeqVal(b)
  {
    out := new u64[8](_ => 0);
    assert out[..] == [0, 0, 0, 0, 0, 0, 0, 0];
    assert SeqVal([0, 0, 0, 0, 0, 0, 0, 0]) == 0;
    var i := 0;
    while i < 4
      invariant 0 <= i <= 4
      invariant SeqVal(out[..]) == SeqVal(a[..i]) * SeqVal(b)
    {
      ghost var done := SeqVal(out[..]);
      var carry: u64 := 0;
      var j := 0;
      assert b[..0] == [];
      while j < 4
        invariant 0 <= j <= 4
        invariant SeqVal(out[..]) + carry * Pow(i + j) == done + a[i] * Pow(i) * SeqVal(b[..j])
      {
        var k := i + j;
        ProductBound(a[i], b[j]);
        var tmp: u128 := a[i] * b[j] + out[k] + carry;
        ghost var before := out[..];
        InnerStep(before, a[i], b, i, j, carry, Lo(tmp), Hi(tmp), done);
        out[k] := Lo(tmp);
        assert out[..] == before[k := Lo(tmp)];
        carry := Hi(tmp);
        j := j + 1;
      }
      assert b[..4] == b;
      RowDone(a, i, SeqVal(b), done);
      var k := i + 4;
      while carry != 0
        invariant i + 4 <= k
        invariant SeqVal(out[..]) + carry * Pow(k) == SeqVal(a[..i + 1]) * SeqVal(b)
        decreases i + 5 - k
      {
        CarryPosition(SeqVal(out[..]), carry, k, i, a, b);
        var tmp: u128 := out[k] + carry;
        ghost var before := out[..];
        CarryStep(before, k, carry, Lo(tmp), Hi(tmp));
        out[k] := Lo(tmp);
        assert out[..] == before[k := Lo(tmp)];
        carry := Hi(tmp);
        k := k + 1;
      }
      i := i + 1;
    }
    assert a[..4] == a;
  }

  lemma RowDone(a: seq<u64>, i: nat, vb: int, done: int)
    requires i < |a| && done == SeqVal(a[..i]) * vb
    ensures done + a[i] * Pow(i) * vb == SeqVal(a[..i + 1]) * vb
  {
    SeqValSnoc(a, i);
    Distrib(SeqVal(a[..i]), a[i] * Pow(i), vb);
  }

  // ---------------------------------------------------------------- conversion

  datatype Domain = Field | Order
  datatype Error = Malformed

  const BASE_MODULUS := Limbs(0x992d30ed00000001, 0x224698fc094cf91b, 0x0000000000000000, 0x4000000000000000)
  const BASE_R2 := Limbs(0x8c78ecb30000000f, 0xd7d30dbd8b0de0e7, 0x7797a99bc3c95d18, 0x096d41af7b9cb714)
  const BASE_INV: u64 := 0x992d30ecffffffff
  const SCALAR_MODULUS := Limbs(0x8c46eb2100000001, 0x224698fc0994a8dd, 0x0000000000000000, 0x4000000000000000)
  const SCALAR_R2 := Limbs(0xfc9678ff0000000f, 0x67bb433d891a16e3, 0x7fae231004ccf590, 0x096d41af7ccfdaa9)
  const SCALAR_INV: u64 := 0x8c46eb20ffffffff

  function Params(d: Domain): (Limbs, Limbs, u64) {
    match d
    case Field => (BASE_MODULUS, BASE_R2, BASE_INV)
    case Order => (SCALAR_MODULUS, SCALAR_R2, SCALAR_INV)
  }

  function Modulus(d: Domain): (m: int)
    ensures 0 < m && 2 * m <= B4
  {
    match d
    case Field => 0x40000000000000000000000000000000224698fc094cf91b992d30ed00000001
    case Order => 0x40000000000000000000000000000000224698fc0994a8dd8c46eb2100000001
  }

  // The inverse of 2^256 modulo each field.
  function RadixInverse(d: Domain): int {
    match d
    case Field => 0x21f1c4ff1e2278d570cb2996efc89a65ac9fba6a4077fc57cf3f8e8753a769a9
    case Order => 0x1f7a89dd176479535790be58c050df13c68de1279dc601eb6119a3dd8e1a6f7f
  }

  // The stated constants are what their comments claim: R2 is 2^512 mod m, INV is
  // -m^-1 mod 2^64, and 2^256 is invertible.
  lemma ConstantsCorrect(d: Domain)
    ensures Val(Params(d).0) == Modulus(d)
    ensures Val(Params(d).1) == (B4 * B4) % Modulus(d)
    ensures NegInverse(Params(d).0.l0, Params(d).2)
    ensures (B4 * RadixInverse(d)) % Modulus(d) == 1
  {
    match d
    case Field =>
    case Order =>
  }

  lemma Pow256OfEight()
    ensures Pow256(8) == B1
  {
    assert Pow256(4) == 0x1_0000_0000;
  }

  function U64FromLeBytes(b: seq<u8>): (w: u64)
    requires |b| == 8
    ensures w == BytesVal(b)
  {
    BytesValBound(b);
    Pow256OfEight();
    BytesVal(b)
  }

  // Splitting a 32-byte little-endian encoding into limbs keeps its value.
  method ReprToU64x4(repr: seq<u8>) returns (limbs: seq<u64>)
    requires |repr| == 32
    ensures |limbs| == 4 && SeqVal(limbs) == BytesVal(repr)
  {
    limbs := [U64FromLeBytes(repr[0..8]), U64FromLeBytes(repr[8..16]),
              U64FromLeBytes(repr[16..24]), U64FromLeBytes(repr[24..32])];
    LimbSplit(repr, 0);
    LimbSplit(repr, 8);
    LimbSplit(repr, 16);
    LimbSplit(repr, 24);
    assert repr[0..] == repr && repr[32..] == [];
    SeqValFour(limbs);
  }

  lemma LimbSplit(repr: seq<u8>, k: nat)
    requires |repr| == 32 && k <= 24
    ensures BytesVal(repr[k..]) == BytesVal(repr[k..k + 8]) + B1 * BytesVal(repr[k + 8..])
  {
    BytesValSplit(repr[k..], 8);
    Pow256OfEight();
    assert repr[k..][..8] == repr[k..k + 8] && repr[k..][8..] == repr[k + 8..];
  }

  lemma SeqValFour(s: seq<u64>)
    requires |s| == 4
    ensures SeqVal(s) == s[0] + B1 * s[1] + B2 * s[2] + B3 * s[3]
  {
    assert s[1..][1..] == s[2..] && s[2..][1..] == s[3..] && s[3..][1..] == [];
    assert SeqVal(s[3..]) == s[3];
    assert SeqVal(s[2..]) == s[2] + B1 * s[3];
    assert SeqVal(s[1..]) == s[1] + B1 * s[2] + B2 * s[3];
  }

  lemma SeqValSplit(s: seq<u64>)
    requires |s| == 8
    ensures SeqVal(s) == SeqVal(s[..4]) + B4 * SeqVal(s[4..])
  {
    assert s[..4] + s[4..] == s;
    assert s[1..][1..] == s[2..] && s[2..][1..] == s[3..] && s[3..][1..] == s[4..];
    SeqValFour(s[..4]);
    assert SeqVal(s[3..]) == s[3] + B1 * SeqVal(s[4..]);
    assert SeqVal(s[2..]) == s[2] + B1 * s[3] + B2 * SeqVal(s[4..]);
    assert SeqVal(s[1..]) == s[1] + B1 * s[2] + B2 * s[3] + B3 * SeqVal(s[4..]);
  }

  // Multiplication by R2 followed by reduction, shared by the checked and the
  // unchecked conversion: exact for every 256-bit input.
  method ToMontgomery(repr: seq<u8>, d: Domain) returns (r: Limbs)
    requires |repr| == 32
    ensures Val(r) == (BytesVal(repr) * B4) % Modulus(d)
  {
    ConstantsCorrect(d);
    var (modulus, r2, inv) := Params(d);
    var limbs := ReprToU64x4(repr);
    var wide := MulU64x4(limbs, [r2.l0, r2.l1, r2.l2, r2.l3]);
    var low := Limbs(wide[0], wide[1], wide[2], wide[3]);
    var high := Limbs(wide[4], wide[5], wide[6], wide[7]);
    SeqValSplit(wide[..]);
    SeqValFour(wide[..][..4]);
    SeqValFour(wide[..][4..]);
    SeqValFour([r2.l0, r2.l1, r2.l2, r2.l3]);
    SeqValFour(limbs);
    assert Val(low) + B4 * Val(high) == BytesVal(repr) * Val(r2);
    ProductBelow(BytesVal(repr), Val(r2), Modulus(d));
    r := Reduce(low, high, modulus, inv);
    MontgomeryForm(Val(r), BytesVal(repr), Val(r2), Modulus(d), RadixInverse(d), B4);
  }

  lemma ProductBelow(x: int, r2: int, M: int)
    requires 0 <= x < B4 && 0 <= r2 < M
    ensures x * r2 < B4 * M
  {
    MulMono(x, B4, r2);
  }

  lemma MontgomeryForm(r: int, x: int, r2: int, M: int, w: int, B: int)
    requires M > 0 && 0 <= r < M
    requires (r * B) % M == (x * r2) % M
    requires r2 == (B * B) % M
    requires (B * w) % M == 1
    ensures r == (x * B) % M
  {
    var k1 := (r * B) / M - (x * r2) / M;
    var k2 := -((B * B) / M);
    var k3 := (B * w) / M;
    DivMod(r * B, M);
    DivMod(x * r2, M);
    DivMod(B * B, M);
    DivMod(B * w, M);
    Combine(r * B, x * r2, M, (r * B) / M, (x * r2) / M, (r * B) % M);
    Cancel(r, x, r2, M, w, B, k1, k2, k3);
    var j := x * B * k3 + x * k2 * w + k1 * w - k3 * r;
    ModShift(x * B, j, M);
    ModUnique(r, 0, r, M);
  }

  lemma Combine(a: int, b: int, m: int, qa: int, qb: int, rem: int)
    requires a == qa * m + rem && b == qb * m + rem
    ensures a == b + (qa - qb) * m
  {}

  lemma Cancel(r: int, x: int, r2: int, M: int, w: int, B: int, k1: int, k2: int, k3: int)
    requires r * B == x * r2 + k1 * M
    requires r2 == B * B + k2 * M
    requires B * w == 1 + k3 * M
    ensures r == x * B + (x * B * k3 + x * k2 * w + k1 * w - k3 * r) * M
  {
    calc {
      r * (1 + k3 * M);
    ==
      r * (B * w);
    ==
      (r * B) * w;
    ==
      (x * r2 + k1 * M) * w;
    ==
      x * (B * B + k2 * M) * w + k1 * M * w;
    ==
      x * B * (B * w) + x * k2 * M * w + k1 * M * w;
    ==
      x * B * (1 + k3 * M) + x * k2 * M * w + k1 * M * w;
    }
  }

  /**
   repr_to_montgomery_u64x4: exactly the canonical encodings are accepted, and the
   limbs returned are input * 2^256 reduced modulo the field.
   */
  method ReprToMontgomery(repr: seq<u8>, d: Domain) returns (r: Result<Limbs, Error>)
    requires |repr| == 32
    ensures r.Ok? <==> BytesVal(repr) < Modulus(d)
    ensures r.Ok? ==> Val(r.value) == (BytesVal(repr) * B4) % Modulus(d)
  {
    if BytesVal(repr) >= Modulus(d) {
      return Err(Malformed);
    }
    var limbs := ToMontgomery(repr, d);
    r := Ok(limbs);
  }

  // base_from_canonical_repr_unchecked: no canonicity test, yet the same residue
  // for every 256-bit input.
  method BaseFromReprUnchecked(repr: seq<u8>) returns (r: Limbs)
    requires |repr| == 32
    ensures Val(r) == (BytesVal(repr) * B4) % Modulus(Field)
  {
    r := ToMontgomery(repr, Field);
  }

  // Montgomery form is a faithful encoding: multiplying back by 2^-256 recovers the
  // canonical element, so distinct elements keep distinct limbs.
  lemma MontgomeryRoundTrip(x: int, d: Domain)
    requires 0 <= x < Modulus(d)
    ensures (((x * B4) % Modulus(d)) * RadixInverse(d)) % Modulus(d) == x
  {
    ConstantsCorrect(d);
    var M, w := Modulus(d), RadixInverse(d);
    var r, q, k3 := (x * B4) % M, (x * B4) / M, (B4 * w) / M;
    Uncancel(r, x, M, w, B4, q, k3);
    ModShift(x, x * k3 - q * w, M);
    ModUnique(x, 0, x, M);
  }

  lemma Uncancel(r: int, x: int, M: int, w: int, B: int, q: int, k3: int)
    requires x * B == q * M + r
    requires B * w == 1 + k3 * M
    ensures r * w == x + (x * k3 - q * w) * M
  {
    calc {
      r * w;
    ==
      (x * B - q * M) * w;
    ==
      x * (B * w) - q * M * w;
    ==
      x * (1 + k3 * M) - q * M * w;
    }
  }
}
