/**
 The simplified SWU map onto iso-Pallas (ledger_zcash_crypto/src/hashtocurve.rs),
 proved against the definition of section 6.6.2 of RFC 9380.

 The field library's inversion and square root are given by their contracts.
 */
module SimplifiedSwu {
  import opened Outcomes
  import opened PrimeFields
  import opened IsoPallas

  datatype Error = InvalidDiversifyHashPoint

  // Z, THETA = sqrt(Z / ROOT) and the 2^32nd root of unity ROOT.
  datatype Constants = Constants(z: int, theta: int, root: int)

  const PALLAS_SWU := Constants(
    0x40000000000000000000000000000000224698fc094cf91b992d30ecfffffff4,
    0x0f7bdb65814179b44647aef782d5cdc851f64fc4dc888857ca330bcc09ac318e,
    0x2bce74deac30ebda362120830561f81aea322bf2b7bb7584bdad6fabd87ea32f)

  // Field operations taken from the field library.
  datatype Library = Library(invert: int -> Option<int>, sqrt: int -> Option<int>) {
    ghost predicate Correct(f: Field) {
      && (forall a {:trigger invert(a)} ::
            if f.Eq(a, 0) then invert(a).None? else invert(a).Some? && f.Eq(a * invert(a).value, 1))
      && (forall a {:trigger sqrt(a)} :: if sqrt(a).Some? then f.Eq(Square(sqrt(a).value), a) else !IsSquare(f, a))
    }
  }

  ghost predicate IsSquare(f: Field, a: int) {
    exists s :: f.Eq(Square(s), a)
  }

  // Right-hand side of the curve equation.
  function G(c: Curve, x: int): int { x * x * x + c.A * x + c.B }

  // What the constants and the field must satisfy.
  ghost predicate Suitable(c: Curve, k: Constants) {
    && c.f.Prime()
    && !c.f.Eq(c.A, 0) && !c.f.Eq(k.z, 0)
    && c.f.Eq(k.theta * k.theta * k.root, k.z)
    && !IsSquare(c.f, k.root)
    && NonSquaresCancel(c.f)
    && ExceptionalSquare(c, k.z)
  }

  // The squares have index two among the non-zero elements.
  ghost predicate NonSquaresCancel(f: Field) {
    forall a, b {:trigger ProductIsSquare(f, a, b)} ::
      !IsSquare(f, a) && !IsSquare(f, b) ==> ProductIsSquare(f, a, b)
  }

  ghost predicate ProductIsSquare(f: Field, a: int, b: int) {
    IsSquare(f, a * b)
  }

  // g(B / (Z A)) is a square.
  ghost predicate ExceptionalSquare(c: Curve, z: int) {
    exists x :: c.f.Eq(x * (z * c.A), c.B) && IsSquare(c.f, G(c, x))
  }

  // ---------------------------------------------------------------- sqrt_ratio

  lemma SquareRespectsEq(f: Field, a: int, b: int)
    requires f.Eq(a, b)
    ensures IsSquare(f, a) <==> IsSquare(f, b)
  {
    f.Sym(a, b);
    if IsSquare(f, a) {
      var s :| f.Eq(Square(s), a);
      f.Trans(Square(s), a, b);
    }
    if IsSquare(f, b) {
      var s :| f.Eq(Square(s), b);
      f.Trans(Square(s), b, a);
    }
  }

  // The quotient num / div as the product with the inverse.
  lemma QuotientByInverse(f: Field, num: int, div: int, inv: int)
    requires f.Eq(div * inv, 1)
    ensures f.Eq(num * inv * div, num)
  {
    f.ScaleEq(div * inv, 1, num);
    assert num * (div * inv) == num * inv * div;
  }

  // sqrt_ratio: for a non-zero divisor the error branch is dead, the flag says
  // whether num / div is a square, and the root is that of num / div or of
  // ROOT * num / div.
  method SqrtRatio(f: Field, k: Constants, lib: Library, num: int, div: int) returns (r: Result<(bool, int), Error>)
    requires f.Prime() && lib.Correct(f) && !IsSquare(f, k.root) && NonSquaresCancel(f)
    ensures f.Eq(div, 0) ==> r == Ok((f.IsZero(num), 0))
    ensures !f.Eq(div, 0) ==>
              && r.Ok?
              && f.Eq(Square(r.value.1) * div, if r.value.0 then num else k.root * num)
              && forall q :: f.Eq(q * div, num) ==> (r.value.0 <==> IsSquare(f, q))
  {
    f.IsZeroIff(num);
    f.IsZeroIff(div);
    if f.IsZero(num) {
      ZeroRatio(f, num, div);
      return Ok((true, 0));
    }
    if f.IsZero(div) {
      return Ok((false, 0));
    }
    var inverse := lib.invert(div);
    if inverse.None? {
      return Ok((false, 0));
    }
    var quotient := num * inverse.value;
    QuotientByInverse(f, num, div, inverse.value);
    RatioUnique(f, num, div, quotient);
    var root := lib.sqrt(quotient);
    if root.Some? {
      f.ScaleEq(Square(root.value), quotient, div);
      f.Trans(Square(root.value) * div, quotient * div, num);
      SquareWitness(f, root.value, quotient);
      return Ok((true, root.value));
    }
    var adjusted := k.root * quotient;
    var root' := lib.sqrt(adjusted);
    assert ProductIsSquare(f, k.root, quotient);
    if root'.None? {
      return Err(InvalidDiversifyHashPoint);
    }
    AdjustedRoot(f, k.root, quotient, num, div, root'.value);
    r := Ok((false, root'.value));
  }

  lemma SquareWitness(f: Field, s: int, a: int)
    requires f.Eq(Square(s), a)
    ensures IsSquare(f, a)
  {}

  lemma ZeroRatio(f: Field, num: int, div: int)
    requires f.Prime() && f.Eq(num, 0)
    ensures f.Eq(Square(0) * div, num)
    ensures !f.Eq(div, 0) ==> forall q :: f.Eq(q * div, num) ==> IsSquare(f, q)
  {
    f.Sym(num, 0);
    if !f.Eq(div, 0) {
      forall q | f.Eq(q * div, num) ensures IsSquare(f, q) {
        f.Trans(q * div, num, 0);
        f.NoZeroDivisors(div, q) by { assert div * q == q * div; }
        f.Sym(q, 0);
        SquareWitness(f, 0, q);
      }
    }
  }

  lemma RatioUnique(f: Field, num: int, div: int, quotient: int)
    requires f.Prime() && !f.Eq(div, 0) && f.Eq(quotient * div, num)
    ensures forall q :: f.Eq(q * div, num) ==> (IsSquare(f, quotient) <==> IsSquare(f, q))
  {
    forall q | f.Eq(q * div, num) ensures IsSquare(f, quotient) <==> IsSquare(f, q) {
      f.Combine2(div * quotient, div * q, quotient * div, num, 1, q * div, num, -1);
      f.Cancel(div, quotient, q);
      SquareRespectsEq(f, quotient, q);
    }
  }

  lemma AdjustedRoot(f: Field, root: int, quotient: int, num: int, div: int, s: int)
    requires f.Eq(Square(s), root * quotient) && f.Eq(quotient * div, num)
    ensures f.Eq(Square(s) * div, root * num)
  {
    f.ScaleEq(Square(s), root * quotient, div);
    f.ScaleEq(quotient * div, num, root);
    assert root * quotient * div == root * (quotient * div);
    f.Trans(Square(s) * div, root * (quotient * div), root * num);
  }

  // ---------------------------------------------------------------- the map

  /**
   The map of section 6.6.2 of RFC 9380: with tv = Z^2 u^4 + Z u^2, x1 is
   B / (Z A) when tv = 0 and -(B / A) (1 + 1 / tv) otherwise; the abscissa is x1 when
   g(x1) is a square and Z u^2 x1 otherwise; the ordinate is the root of g of the
   abscissa with the parity of u, where it is not zero.
   */
  ghost predicate SwuPoint(c: Curve, z: int, u: int, a: Affine) {
    && a.Point?
    && (exists x1 :: FirstCandidate(c, z * (u * u), z, x1) &&
          c.f.Eq(a.x, if IsSquare(c.f, G(c, x1)) then x1 else z * (u * u) * x1))
    && c.f.Eq(a.y * a.y, G(c, a.x))
    && (c.f.Eq(a.y, 0) || (c.f.Odd(a.y) <==> c.f.Odd(u)))
  }

  // t is Z u^2 and tv = t^2 + t.
  ghost predicate FirstCandidate(c: Curve, t: int, z: int, x1: int) {
    if c.f.Eq(t * t + t, 0) then c.f.Eq(x1 * (z * c.A), c.B)
    else c.f.Eq(x1 * (c.A * (t * t + t)), -(c.B * (t * t + t + 1)))
  }

  method MapToCurveSimpleSwu(c: Curve, k: Constants, lib: Library, u: int) returns (r: Result<Jacobian, Error>)
    requires Suitable(c, k) && lib.Correct(c.f)
    ensures r.Ok? && !c.IsIdentity(r.value) && c.OnCurve(r.value)
    ensures forall a :: c.Represents(r.value, a) ==> SwuPoint(c, k.z, u, a)
  {
    var f := c.f;
    var zU2 := k.z * Square(u);
    var ta := Square(zU2) + zU2;
    var numX1 := c.B * (ta + 1);
    var div := (if f.IsZero(ta) then k.z else -ta) * c.A;
    var div2 := Square(div);
    var div3 := div2 * div;
    var numGx1 := (Square(numX1) + c.A * div2) * numX1 + c.B * div3;
    var numX2 := zU2 * numX1;

    f.IsZeroIff(ta);
    DivNonZero(c, k.z, ta, div);
    c.CubeNonZero(div);
    var ratio := SqrtRatio(f, k, lib, numGx1, div3);
    if ratio.Err? {
      return Err(InvalidDiversifyHashPoint);
    }
    var (gx1Square, y1) := ratio.value;
    var y2 := k.theta * zU2 * u * y1;
    var numX := if gx1Square then numX1 else numX2;
    var y := if gx1Square then y1 else y2;

    if f.Odd(u) != f.Odd(y) {
      y := -y;
    }
    r := Ok(Jacobian(numX * div, y * div3, div));
    f.IsZeroIff(div);
    SwuCorrect(c, k, u, zU2, numX1, div, gx1Square, y1, numX, y);
  }

  lemma SwuCorrect(c: Curve, k: Constants, u: int, t: int, n1: int, d: int, square: bool, y1: int, n: int, y': int)
    requires Suitable(c, k)
    requires t == k.z * Square(u) && n1 == c.B * (Square(t) + t + 1) && !c.f.Eq(d, 0)
    requires d == (if c.f.Eq(Square(t) + t, 0) then k.z else -(Square(t) + t)) * c.A
    requires var g := Numerator(c, n1, d);
             && c.f.Eq(Square(y1) * (Square(d) * d), if square then g else k.root * g)
             && forall q :: c.f.Eq(q * (Square(d) * d), g) ==> (square <==> IsSquare(c.f, q))
    requires n == if square then n1 else t * n1
    requires var y := if square then y1 else k.theta * t * u * y1;
             y' == if c.f.Odd(u) != c.f.Odd(y) then -y else y
    ensures c.OnCurve(Jacobian(n * d, y' * (Square(d) * d), d))
    ensures forall a :: c.Represents(Jacobian(n * d, y' * (Square(d) * d), d), a) ==> SwuPoint(c, k.z, u, a)
  {
    var y := if square then y1 else k.theta * t * u * y1;
    var x1 := c.f.Div(n1, d);
    FirstCandidateIs(c, t, k.z, n1, d, x1);
    GOfQuotient(c, x1, n1, d);
    if !square {
      NotExceptional(c, t, k.z, x1);
      SecondRoot(c, k, u, t, n1, d, Numerator(c, n1, d), y1);
    }
    ParityFixed(c.f, u, y, y');
    OnCurveFromRoot(c, n, d, y');
    ResultIsSwu(c, k.z, u, n1, n, d, y', x1);
  }

  // Numerator of g(n / d) over d^3.
  function Numerator(c: Curve, n: int, d: int): int {
    (Square(n) + c.A * Square(d)) * n + c.B * (Square(d) * d)
  }

  lemma DivNonZero(c: Curve, z: int, ta: int, div: int)
    requires c.f.Prime() && !c.f.Eq(c.A, 0) && !c.f.Eq(z, 0)
    requires div == (if c.f.Eq(ta, 0) then z else -ta) * c.A
    ensures !c.f.Eq(div, 0)
  {
    if c.f.Eq(ta, 0) {
      c.f.NonZeroMul(z, c.A);
    } else {
      if c.f.Eq(-ta, 0) { c.f.Combine1(ta, 0, -ta, 0, -1); }
      c.f.NonZeroMul(-ta, c.A);
    }
  }

  lemma FirstCandidateIs(c: Curve, t: int, z: int, n: int, div: int, x1: int)
    requires c.f.Eq(x1 * div, n) && n == c.B * (Square(t) + t + 1)
    requires div == (if c.f.Eq(Square(t) + t, 0) then z else -(Square(t) + t)) * c.A
    ensures FirstCandidate(c, t, z, x1)
  {
    if c.f.Eq(t * t + t, 0) {
      CandidateAtZero(c.f, x1 * div, c.B, t * t + t);
    } else {
      NegatedCandidate(x1, c.A, c.B, t * t + t);
      c.f.Combine1(x1 * (c.A * (t * t + t)), -(c.B * (t * t + t + 1)), x1 * div, n, -1);
    }
  }

  lemma CandidateAtZero(f: Field, e: int, b: int, ta: int)
    requires f.Eq(ta, 0) && f.Eq(e, b * (ta + 1))
    ensures f.Eq(e, b)
  {
    f.Combine2(e, b, e, b * (ta + 1), 1, ta, 0, b);
  }

  lemma NegatedCandidate(x1: int, a: int, b: int, ta: int)
    ensures x1 * (a * ta) - -(b * (ta + 1)) == -1 * (x1 * (-ta * a) - b * (ta + 1))
  {}

  // div^3 g(n / div) is the numerator.
  lemma GOfQuotient(c: Curve, x1: int, n: int, div: int)
    requires c.f.Eq(x1 * div, n)
    ensures c.f.Eq(G(c, x1) * (Square(div) * div), Numerator(c, n, div))
  {
    var m := x1 * div;
    GNumerator(c, x1, div);
    NumeratorDifference(c, m, n, div);
    c.f.Combine1(Numerator(c, m, div), Numerator(c, n, div), m, n, m * m + m * n + n * n + c.A * Square(div));
  }

  lemma GNumerator(c: Curve, x: int, d: int)
    ensures G(c, x) * (Square(d) * d) == Numerator(c, x * d, d)
  {
    var m, d3 := x * d, d * d * d;
    assert m * m * m == (x * x * x) * d3;
    assert (m * m + c.A * (d * d)) * m == m * m * m + (c.A * x) * d3;
  }

  lemma NumeratorDifference(c: Curve, m: int, n: int, d: int)
    ensures Numerator(c, m, d) - Numerator(c, n, d) == (m * m + m * n + n * n + c.A * Square(d)) * (m - n)
  {
    c.CubeDifference(m, n, c.A * Square(d));
  }

  // In the exceptional case tv = 0 the first candidate is always a square.
  lemma NotExceptional(c: Curve, t: int, z: int, x1: int)
    requires c.f.Prime() && !c.f.Eq(c.A, 0) && !c.f.Eq(z, 0) && ExceptionalSquare(c, z)
    requires FirstCandidate(c, t, z, x1) && !IsSquare(c.f, G(c, x1))
    ensures !c.f.Eq(t * t + t, 0)
  {
    if c.f.Eq(t * t + t, 0) {
      var x :| c.f.Eq(x * (z * c.A), c.B) && IsSquare(c.f, G(c, x));
      c.f.NonZeroMul(z, c.A);
      c.f.Sym(x * (z * c.A), c.B);
      c.f.Sym(x1 * (z * c.A), c.B);
      c.UniqueQuotient(c.B, x, x1, z * c.A);
      GRespectsEq(c, x, x1);
      SquareRespectsEq(c.f, G(c, x), G(c, x1));
    }
  }

  lemma GRespectsEq(c: Curve, x: int, x': int)
    requires c.f.Eq(x, x')
    ensures c.f.Eq(G(c, x), G(c, x'))
  {
    c.CubeDifference(x, x', c.A);
    c.f.Combine1(G(c, x), G(c, x'), x, x', x * x + x * x' + x' * x' + c.A);
  }

  // g(t x1) = t^3 g(x1): an identity between the numerators.
  lemma SwuIdentity(c: Curve, t: int, n: int, d: int)
    requires n == c.B * (Square(t) + t + 1) && d == -(Square(t) + t) * c.A
    ensures Numerator(c, t * n, d) == t * t * t * Numerator(c, n, d)
  {
    NumeratorOfScaled(t, n, d, c.A, c.B);
    SwuCancellation(t, c.A, c.B);
  }

  lemma NumeratorOfScaled(t: int, n: int, d: int, a: int, b: int)
    ensures ((t * n) * (t * n) + a * (d * d)) * (t * n) + b * (d * d * d)
         == t * t * t * ((n * n + a * (d * d)) * n + b * (d * d * d))
          + d * d * (a * t * (1 - t * t) * n + b * (1 - t * t * t) * d)
  {
    var t3, e := t * t * t, a * (d * d);
    ScaledCubic(t, n, e);
    assert (n * n + e) * n == n * n * n + e * n;
    RemainderTerms(t, n, d, a, b);
    Distribute(t3, n * n * n, e * n, b * (d * d * d));
  }

  lemma ScaledCubic(t: int, n: int, e: int)
    ensures ((t * n) * (t * n) + e) * (t * n) == t * t * t * (n * n * n) + t * (e * n)
  {}

  lemma RemainderTerms(t: int, n: int, d: int, a: int, b: int)
    ensures d * d * (a * t * (1 - t * t) * n + b * (1 - t * t * t) * d)
         == t * (a * (d * d) * n) - t * t * t * (a * (d * d) * n) + b * (d * d * d) - t * t * t * (b * (d * d * d))
  {
    var d2, t3 := d * d, t * t * t;
    assert a * t * (1 - t * t) * n == (t - t3) * (a * n);
    assert d2 * ((t - t3) * (a * n)) == (t - t3) * (a * d2 * n);
    assert d2 * (b * (1 - t3) * d) == (1 - t3) * (b * (d2 * d));
  }

  lemma Distribute(t3: int, x: int, y: int, z: int)
    ensures t3 * (x + y + z) == t3 * x + t3 * y + t3 * z
  {}

  lemma SwuCancellation(t: int, a: int, b: int)
    ensures a * t * (1 - t * t) * (b * (t * t + t + 1)) + b * (1 - t * t * t) * (-(t * t + t) * a) == 0
  {
    var e := (t * t + t) * (a * b);
    assert (1 - t) * (t * t + t + 1) == 1 - t * t * t;
    assert t * (1 - t * t) == (t * t + t) * (1 - t);
    assert a * t * (1 - t * t) * (b * (t * t + t + 1)) == e * ((1 - t) * (t * t + t + 1));
  }

  // The second root: y2^2 = g(x2) when y1 is the root of ROOT g(x1).
  lemma SecondRoot(c: Curve, k: Constants, u: int, t: int, n: int, d: int, g: int, y1: int)
    requires t == k.z * Square(u) && n == c.B * (Square(t) + t + 1) && d == -(Square(t) + t) * c.A
    requires c.f.Eq(k.theta * k.theta * k.root, k.z) && g == Numerator(c, n, d)
    requires c.f.Eq(Square(y1) * (Square(d) * d), k.root * g)
    ensures c.f.Eq(Square(k.theta * t * u * y1) * (Square(d) * d), Numerator(c, t * n, d))
  {
    SwuIdentity(c, t, n, d);
    var d3, w := Square(d) * d, t * u;
    SecondRootCertificate(k.theta, k.root, k.z, t, u, y1, d3, g);
    c.f.Combine2(Square(k.theta * t * u * y1) * d3, t * t * t * g,
                 Square(y1) * d3, k.root * g, (k.theta * w) * (k.theta * w),
                 k.theta * k.theta * k.root, k.z, w * w * g);
  }

  lemma SecondRootCertificate(theta: int, root: int, z: int, t: int, u: int, y1: int, d3: int, g: int)
    requires t == z * (u * u)
    ensures (theta * t * u * y1) * (theta * t * u * y1) * d3 - t * t * t * g
         == (theta * (t * u)) * (theta * (t * u)) * (y1 * y1 * d3 - root * g)
          + (t * u) * (t * u) * g * (theta * theta * root - z)
  {
    var w := t * u;
    assert z * (w * w) == t * t * t by { TwistFactor(z, t, u); }
    assert (theta * t * u * y1) * (theta * t * u * y1) * d3 == (theta * w) * (theta * w) * (y1 * y1 * d3) by {
      SquareFactor(theta * w, y1, d3);
      assert theta * t * u * y1 == (theta * w) * y1;
    }
    RootCancellation(theta, root, z, w, y1 * y1 * d3, g);
  }

  lemma TwistFactor(z: int, t: int, u: int)
    requires t == z * (u * u)
    ensures z * ((t * u) * (t * u)) == t * t * t
  {
    assert z * ((t * u) * (t * u)) == (t * t) * (z * (u * u));
  }

  lemma SquareFactor(a: int, y: int, d: int)
    ensures (a * y) * (a * y) * d == a * a * (y * y * d)
  {}

  lemma RootCancellation(theta: int, root: int, z: int, w: int, e: int, g: int)
    ensures (theta * w) * (theta * w) * (e - root * g) + w * w * g * (theta * theta * root - z)
         == (theta * w) * (theta * w) * e - z * (w * w) * g
  {
    var a, b := theta * theta, w * w;
    assert (theta * w) * (theta * w) == a * b;
    assert a * b * (root * g) == b * g * (a * root);
  }

  lemma ParityFixed(f: Field, u: int, y: int, y': int)
    requires y' == if f.Odd(u) != f.Odd(y) then -y else y
    ensures Square(y') == Square(y)
    ensures f.Eq(y', 0) || (f.Odd(y') <==> f.Odd(u))
  {
    if f.Odd(u) != f.Odd(y) {
      if f.Eq(y, 0) {
        f.Combine1(-y, 0, y, 0, -1);
      } else {
        f.OddOfNegation(y);
      }
    }
  }

  lemma OnCurveFromRoot(c: Curve, n: int, d: int, y: int)
    requires c.f.Eq(Square(y) * (Square(d) * d), Numerator(c, n, d))
    ensures c.OnCurve(Jacobian(n * d, y * (Square(d) * d), d))
  {
    var d3, x := Square(d) * d, n * d;
    CurveNumerator(n, d, c.A, c.B);
    SquareFactor(y, d3, 1);
    assert (y * d3) * (y * d3) == d3 * (y * y * d3);
    c.f.Combine1((y * d3) * (y * d3), x * x * x + c.A * x * Pow4(d) + c.B * Pow6(d),
                 Square(y) * d3, Numerator(c, n, d), d3);
  }

  lemma CurveNumerator(n: int, d: int, a: int, b: int)
    ensures (n * d) * (n * d) * (n * d) + a * (n * d) * Pow4(d) + b * Pow6(d)
         == (d * d * d) * ((n * n + a * (d * d)) * n + b * (d * d * d))
  {
    var d3 := d * d * d;
    assert (n * d) * (n * d) * (n * d) == d3 * (n * n * n);
    assert a * (n * d) * ((d * d) * (d * d)) == d3 * (a * (d * d) * n);
  }

  // Every affine reading of the result is the point RFC 9380 defines.
  lemma ResultIsSwu(c: Curve, z: int, u: int, n1: int, n: int, d: int, y: int, x1: int)
    requires c.f.Prime() && !c.f.Eq(d, 0) && c.f.Eq(x1 * d, n1)
    requires FirstCandidate(c, z * (u * u), z, x1)
    requires n == if IsSquare(c.f, G(c, x1)) then n1 else z * (u * u) * n1
    requires c.f.Eq(y, 0) || (c.f.Odd(y) <==> c.f.Odd(u))
    requires c.OnCurve(Jacobian(n * d, y * (Square(d) * d), d))
    ensures forall a :: c.Represents(Jacobian(n * d, y * (Square(d) * d), d), a) ==> SwuPoint(c, z, u, a)
  {
    var f, t, j := c.f, z * (u * u), Jacobian(n * d, y * (Square(d) * d), d);
    var x := if IsSquare(f, G(c, x1)) then x1 else t * x1;
    assert f.Eq(x * d, n) by { ScaledCandidate(f, x1, d, n1, t); }
    AffineReading(c, n, d, y, x);
    forall a | c.Represents(j, a) ensures SwuPoint(c, z, u, a) {
      c.RepresentsUnique(j, a, Point(x, y));
      c.CurveEquations(j, a);
      ReadingIsSwu(c, z, u, a, x1, x, y);
    }
  }

  lemma ScaledCandidate(f: Field, x1: int, d: int, n1: int, t: int)
    requires f.Eq(x1 * d, n1)
    ensures f.Eq(t * x1 * d, t * n1)
  {
    f.ScaleEq(x1 * d, n1, t);
    assert t * (x1 * d) == t * x1 * d;
  }

  lemma ReadingIsSwu(c: Curve, z: int, u: int, a: Affine, x1: int, x: int, y: int)
    requires a.Point? && c.OnAffine(a) && c.f.Eq(a.x, x) && c.f.Eq(a.y, y)
    requires FirstCandidate(c, z * (u * u), z, x1) && x == if IsSquare(c.f, G(c, x1)) then x1 else z * (u * u) * x1
    requires c.f.Eq(y, 0) || (c.f.Odd(y) <==> c.f.Odd(u))
    ensures SwuPoint(c, z, u, a)
  {
    c.f.OddRespectsEq(a.y, y);
    if c.f.Eq(y, 0) { c.f.Trans(a.y, y, 0); }
  }

  lemma AffineReading(c: Curve, n: int, d: int, y: int, x: int)
    requires !c.f.Eq(d, 0) && c.f.Eq(x * d, n)
    ensures c.Represents(Jacobian(n * d, y * (Square(d) * d), d), Point(x, y))
  {
    c.f.Sym(x * d, n);
    c.f.ScaleEq(n, x * d, d);
    assert x * d * d == x * Pow2(d);
    c.f.Same(y * (Square(d) * d), y * Pow3(d));
  }

  // ---------------------------------------------------------------- the Pallas constants

  // B / (Z A) and a root of its image under g.
  const EXCEPTIONAL_X: int := 0x2c150731d26bf03de9585bf1a0c67160f6ca6e5ce0e2b674af333253bca63800
  const EXCEPTIONAL_Y: int := 0x0333fa3f8cb3bbd6e18f2fba2717db760fa5b179f0e2993f73395bb94a9eabe4

  lemma ThetaSquared()
    ensures PALLAS_BASE.Eq(PALLAS_SWU.theta * PALLAS_SWU.theta * PALLAS_SWU.root, PALLAS_SWU.z)
  {
    PALLAS_BASE.EqIntro(PALLAS_SWU.theta * PALLAS_SWU.theta * PALLAS_SWU.root, PALLAS_SWU.z,
      0xa41a27c6cea6c013786dd3cbb81a7598c1f2c646c8511e1d32e5f9e08ca4f218b129e2bc45b32516f7cb6e2a9a639ef159cf5881b329e82eea6767253b2608);
  }

  lemma ExceptionalAbscissa()
    ensures PALLAS_BASE.Eq(EXCEPTIONAL_X * (PALLAS_SWU.z * ISO_A), ISO_B)
  {
    PALLAS_BASE.EqIntro(EXCEPTIONAL_X * (PALLAS_SWU.z * ISO_A), ISO_B,
      0x42b25cd475d3906cb2f943c81862af3dd2910c5c6adf890d8bdf5632f9238702824306665dca30bcb78bfca4555c108957c457174bc622243fce831bd031b0f);
  }

  lemma ExceptionalOrdinate()
    ensures PALLAS_BASE.Eq(Square(EXCEPTIONAL_Y), G(ISO_PALLAS, EXCEPTIONAL_X))
  {
    PALLAS_BASE.EqIntro(Square(EXCEPTIONAL_Y), G(ISO_PALLAS, EXCEPTIONAL_X),
      -0x53a77dd7a4746af6a978a65178cf7e17e9db6285bfad71d924a29f0a87563a1db5cfc6826ac38712012ce62b58cfba16cd55f476ab34ca401d372342a1009e1);
  }

  lemma CoefficientsNonZero()
    ensures !PALLAS_BASE.Eq(ISO_A, 0) && !PALLAS_BASE.Eq(PALLAS_SWU.z, 0)
  {
    PALLAS_BASE.IsZeroIff(ISO_A);
    PALLAS_BASE.IsZeroIff(PALLAS_SWU.z);
  }

  // The stated constants meet every condition of the map but the three facts about
  // the field itself.
  lemma PallasSuitable()
    requires PALLAS_BASE.Prime() && !IsSquare(PALLAS_BASE, PALLAS_SWU.root) && NonSquaresCancel(PALLAS_BASE)
    ensures Suitable(ISO_PALLAS, PALLAS_SWU)
  {
    ThetaSquared();
    CoefficientsNonZero();
    ExceptionalAbscissa();
    ExceptionalOrdinate();
    SquareWitness(PALLAS_BASE, EXCEPTIONAL_Y, G(ISO_PALLAS, EXCEPTIONAL_X));
    assert ExceptionalSquare(ISO_PALLAS, PALLAS_SWU.z);
  }
}
