/**
 Jacobian arithmetic on the iso-Pallas curve y^2 = x^3 + A x + B
 (ledger_zcash_crypto/src/hashtocurve.rs), proved against the affine chord and
 tangent law.
 */
module IsoPallas {
  import opened PrimeFields

  datatype Jacobian = Jacobian(x: int, y: int, z: int)

  const IDENTITY := Jacobian(0, 0, 0)

  datatype Affine = Infinity | Point(x: int, y: int)

  function Square(a: int): int { a * a }
  function Dbl(a: int): int { a + a }
  function Pow2(z: int): int { z * z }
  function Pow3(z: int): int { z * z * z }
  function Pow4(z: int): int { Pow2(z) * Pow2(z) }
  function Pow6(z: int): int { Pow3(z) * Pow3(z) }

  // A curve y^2 = x^3 + A x + B over the field f.
  datatype Curve = Curve(f: Field, A: int, B: int) {

    predicate IsIdentity(p: Jacobian) { f.IsZero(p.z) }

    function Double(p: Jacobian): Jacobian {
      if IsIdentity(p) then IDENTITY
      else
        var xx := Square(p.x);
        var yy := Square(p.y);
        var a := Square(yy);
        var zz := Square(p.z);
        var s := Dbl(Square(p.x + yy) - xx - a);
        var m := Dbl(xx) + xx + A * Square(zz);
        DoubleFrom(m, s, Dbl(Dbl(Dbl(a))), Square(p.y + p.z) - yy - zz)
    }

    // The coordinates of the double from m, s, 8 y^4 and z3.
    function DoubleFrom(m: int, s: int, a8: int, z3: int): Jacobian {
      var x3 := Square(m) - Dbl(s);
      var y3 := m * (s - x3) - a8;
      Jacobian(x3, y3, z3)
    }

    function Add(p: Jacobian, q: Jacobian): Jacobian {
      if IsIdentity(p) then q
      else if IsIdentity(q) then p
      else
        var z1z1 := Square(p.z);
        var z2z2 := Square(q.z);
        var u1 := p.x * z2z2;
        var u2 := q.x * z1z1;
        var s1 := p.y * z2z2 * q.z;
        var s2 := q.y * z1z1 * p.z;
        if f.IsZero(u1 - u2) then
          if f.IsZero(s1 - s2) then Double(p) else IDENTITY
        else
          AddDistinct(u1, u2, s1, s2, Square(p.z + q.z) - z1z1 - z2z2)
    }

    // The general branch of `add_iso_pallas`, after the operands are on a common denominator.
    function AddDistinct(u1: int, u2: int, s1: int, s2: int, zz: int): Jacobian {
      var h := u2 - u1;
      var i := Square(Dbl(h));
      var j := h * i;
      var r := Dbl(s2 - s1);
      var v := u1 * i;
      var x3 := Square(r) - j - v - v;
      var s1j := Dbl(s1 * j);
      var y3 := r * (v - x3) - s1j;
      Jacobian(x3, y3, zz * h)
    }

    // ---------------------------------------------------------------- specification

    ghost predicate OnAffine(a: Affine) {
      a.Point? ==> f.Eq(a.y * a.y, a.x * a.x * a.x + A * a.x + B)
    }

    ghost predicate OnCurve(p: Jacobian) {
      f.Eq(p.z, 0) || f.Eq(p.y * p.y, p.x * p.x * p.x + A * p.x * Pow4(p.z) + B * Pow6(p.z))
    }

    // A Jacobian triple stands for the affine point (x / z^2, y / z^3).
    ghost predicate Represents(p: Jacobian, a: Affine) {
      match a
      case Infinity => f.Eq(p.z, 0)
      case Point(x, y) => !f.Eq(p.z, 0) && f.Eq(p.x, x * Pow2(p.z)) && f.Eq(p.y, y * Pow3(p.z))
    }

    // The third intersection of the line of slope `l` through (x1, y1), reflected.
    function Third(l: int, x1: int, y1: int, x2: int): Affine {
      var x3 := l * l - x1 - x2;
      Point(x3, l * (x1 - x3) - y1)
    }

    ghost function ChordSlope(p: Affine, q: Affine): (l: int)
      requires f.Prime() && p.Point? && q.Point? && !f.Eq(p.x, q.x)
      ensures f.Eq(l * (q.x - p.x), q.y - p.y)
    {
      NonZeroDiff(q.x, p.x);
      f.Div(q.y - p.y, q.x - p.x)
    }

    ghost function TangentSlope(p: Affine): (l: int)
      requires f.Prime() && p.Point? && !f.Eq(2 * p.y, 0)
      ensures f.Eq(l * (2 * p.y), 3 * p.x * p.x + A)
    {
      f.Div(3 * p.x * p.x + A, 2 * p.y)
    }

    // The group law of the curve.
    ghost function AffineAdd(p: Affine, q: Affine): Affine
      requires f.Prime() && OnAffine(p) && OnAffine(q)
    {
      if p.Infinity? then q
      else if q.Infinity? then p
      else if !f.Eq(p.x, q.x) then Third(ChordSlope(p, q), p.x, p.y, q.x)
      else if f.Eq(p.y, -q.y) then Infinity
      else
        SameAbscissa(p, q);
        Third(TangentSlope(p), p.x, p.y, p.x)
    }

    lemma NonZeroDiff(a: int, b: int)
      requires !f.Eq(a, b) || !f.Eq(b, a)
      ensures !f.Eq(a - b, 0) && !f.Eq(b - a, 0)
    {
      if f.Eq(a - b, 0) {
        f.AddEq(a - b, 0, b, b) by { f.Same(b, b); }
        f.Sym(a, b);
      }
      if f.Eq(b - a, 0) {
        f.AddEq(b - a, 0, a, a) by { f.Same(a, a); }
        f.Sym(b, a);
      }
    }

    // Two curve points with the same abscissa are equal or opposite.
    lemma SameAbscissa(p: Affine, q: Affine)
      requires f.Prime() && OnAffine(p) && OnAffine(q) && p.Point? && q.Point?
      requires f.Eq(p.x, q.x) && !f.Eq(p.y, -q.y)
      ensures f.Eq(p.y, q.y) && !f.Eq(2 * p.y, 0)
    {
      var x1, y1, x2, y2 := p.x, p.y, q.x, q.y;
      var g1, g2 := x1 * x1 * x1 + A * x1 + B, x2 * x2 * x2 + A * x2 + B;
      CurveDifference(x1, y1, x2, y2, A, B);
      f.Combine3((y1 + y2) * (y1 - y2), 0, y1 * y1, g1, 1, y2 * y2, g2, -1, x1, x2, x1 * x1 + x1 * x2 + x2 * x2 + A);
      NonZeroDiff(y1, -y2);
      f.NoZeroDivisors(y1 + y2, y1 - y2);
      f.Combine1(y1, y2, y1 - y2, 0, 1);
      if f.Eq(2 * y1, 0) {
        f.Combine2(y1, -y2, 2 * y1, 0, 1, y1, y2, -1);
      }
    }

    // The same affine point, up to the representatives of its coordinates.
    ghost predicate SamePoint(p: Affine, q: Affine) {
      if p.Point? && q.Point? then f.Eq(p.x, q.x) && f.Eq(p.y, q.y) else p.Infinity? && q.Infinity?
    }

    /**
     The cases incomplete addition leaves out, written in coordinates: an operand is the
     point at infinity, or the abscissas agree.
     */
    lemma ExceptionalExactly(p: Affine, q: Affine)
      requires f.Prime() && OnAffine(p) && OnAffine(q)
      ensures (p.Infinity? || q.Infinity? || SamePoint(p, q) || AffineAdd(p, q).Infinity?) <==>
              (p.Infinity? || q.Infinity? || f.Eq(p.x, q.x))
    {
      if p.Point? && q.Point? && f.Eq(p.x, q.x) && !f.Eq(p.y, -q.y) {
        SameAbscissa(p, q);
      }
    }

    lemma CurveDifference(x1: int, y1: int, x2: int, y2: int, a: int, b: int)
      ensures (y1 + y2) * (y1 - y2) - 0
           == 1 * (y1 * y1 - (x1 * x1 * x1 + a * x1 + b)) + -1 * (y2 * y2 - (x2 * x2 * x2 + a * x2 + b))
            + (x1 * x1 + x1 * x2 + x2 * x2 + a) * (x1 - x2)
    {}

    // ---------------------------------------------------------------- addition

    // Both operands brought to the common denominator W = z1 * z2.
    lemma CommonDenominator(x: int, y: int, X: int, Y: int, a: int, b: int)
      requires f.Eq(X, x * Pow2(a)) && f.Eq(Y, y * Pow3(a))
      ensures f.Eq(X * Square(b), x * Pow2(a * b))
      ensures f.Eq(Y * Square(b) * b, y * Pow3(a * b))
    {
      DenominatorIdentities(x, y, X, Y, a, b);
      f.Combine1(X * Square(b), x * Pow2(a * b), X, x * Pow2(a), Square(b));
      f.Combine1(Y * Square(b) * b, y * Pow3(a * b), Y, y * Pow3(a), Pow3(b));
    }

    lemma DenominatorIdentities(x: int, y: int, X: int, Y: int, a: int, b: int)
      ensures X * Square(b) - x * Pow2(a * b) == Square(b) * (X - x * Pow2(a))
      ensures Y * Square(b) * b - y * Pow3(a * b) == Pow3(b) * (Y - y * Pow3(a))
    {
      SquareOfProduct(a, b);
      CubeOfProduct(y, a, b);
    }

    lemma CubeOfProduct(y: int, a: int, b: int)
      ensures y * (a * a * a) * (b * b * b) == y * ((a * b) * (a * b) * (a * b))
    {}

    // h, r and z3 in terms of the chord: with d = x2 - x1 and t = 2 d W^3,
    // h ~ d W^2, z3 ~ t and r ~ slope * t.
    lemma ChordScaled(x1: int, y1: int, x2: int, y2: int, l: int, W: int, u1: int, u2: int, s1: int, s2: int)
      requires f.Eq(u1, x1 * Pow2(W)) && f.Eq(u2, x2 * Pow2(W))
      requires f.Eq(s1, y1 * Pow3(W)) && f.Eq(s2, y2 * Pow3(W))
      requires f.Eq(l * (x2 - x1), y2 - y1)
      ensures f.Eq(u2 - u1, (x2 - x1) * Pow2(W))
      ensures f.Eq(2 * W * (u2 - u1), 2 * (x2 - x1) * Pow3(W))
      ensures f.Eq(2 * (s2 - s1), l * (2 * (x2 - x1) * Pow3(W)))
    {
      ScaledDifference(x1, x2, u1, u2, Pow2(W));
      ScaledDifference(y1, y2, s1, s2, Pow3(W));
      ScaledSlope(x2 - x1, y2 - y1, l, W, u2 - u1, s2 - s1);
    }

    lemma ScaledDifference(a: int, b: int, u: int, v: int, w: int)
      requires f.Eq(u, a * w) && f.Eq(v, b * w)
      ensures f.Eq(v - u, (b - a) * w)
    {
      f.SubEq(v, b * w, u, a * w);
      Factor(b, a, w);
    }

    lemma ScaledSlope(d: int, e: int, l: int, W: int, h: int, r: int)
      requires f.Eq(h, d * Pow2(W)) && f.Eq(r, e * Pow3(W)) && f.Eq(l * d, e)
      ensures f.Eq(2 * W * h, 2 * d * Pow3(W))
      ensures f.Eq(2 * r, l * (2 * d * Pow3(W)))
    {
      SlopeIdentities(d, e, l, W, h, r);
      f.Combine1(2 * W * h, 2 * d * Pow3(W), h, d * Pow2(W), 2 * W);
      f.Combine2(2 * r, l * (2 * d * Pow3(W)), r, e * Pow3(W), 2, l * d, e, -(2 * Pow3(W)));
    }

    lemma SlopeIdentities(d: int, e: int, l: int, W: int, h: int, r: int)
      ensures 2 * W * h - 2 * d * Pow3(W) == 2 * W * (h - d * Pow2(W))
      ensures 2 * r - l * (2 * d * Pow3(W)) == 2 * (r - e * Pow3(W)) + -(2 * Pow3(W)) * (l * d - e)
    {}

    // i, j and v: with t as above, v ~ x1 t^2 and j ~ d t^2.
    lemma ChordSquares(x1: int, d: int, W: int, u1: int, h: int)
      requires f.Eq(u1, x1 * Pow2(W)) && f.Eq(h, d * Pow2(W))
      ensures var t := 2 * d * Pow3(W); var i := Square(Dbl(h));
              f.Eq(u1 * i, x1 * Pow2(t)) && f.Eq(h * i, d * Pow2(t))
    {
      var t, e := 2 * d * Pow3(W), d * Pow2(W);
      var i, i' := Square(Dbl(h)), Square(Dbl(e));
      f.ScaleEq(h, e, 2);
      f.MulEq(Dbl(h), Dbl(e), Dbl(h), Dbl(e));
      f.MulEq(u1, x1 * Pow2(W), i, i');
      f.MulEq(h, e, i, i');
      SixthPower(x1, d, W);
    }

    lemma SixthPower(x1: int, d: int, W: int)
      ensures (x1 * Pow2(W)) * Square(Dbl(d * Pow2(W))) == x1 * Pow2(2 * d * Pow3(W))
      ensures (d * Pow2(W)) * Square(Dbl(d * Pow2(W))) == d * Pow2(2 * d * Pow3(W))
    {
      var w := W * W;
      assert Pow2(2 * d * Pow3(W)) == 4 * (d * d) * (w * w * w);
      assert Square(Dbl(d * w)) == 4 * (d * d) * (w * w);
    }

    // The coordinates produced from r ~ l t, j ~ d t^2 and v ~ x1 t^2.
    lemma ChordCoordinates(x1: int, y1: int, x2: int, l: int, t: int, W: int, r: int, j: int, v: int, s1: int)
      requires f.Eq(r, l * t) && f.Eq(v, x1 * Pow2(t)) && f.Eq(j, (x2 - x1) * Pow2(t))
      requires f.Eq(s1, y1 * Pow3(W)) && t == 2 * (x2 - x1) * Pow3(W)
      ensures var x3 := Square(r) - j - v - v; var c := Third(l, x1, y1, x2);
              f.Eq(x3, c.x * Pow2(t)) && f.Eq(r * (v - x3) - Dbl(s1 * j), c.y * Pow3(t))
    {
      var x3, c := Square(r) - j - v - v, Third(l, x1, y1, x2);
      ChordAbscissa(x1, x2, l, t, r, j, v);
      f.MulEq(s1, y1 * Pow3(W), j, (x2 - x1) * Pow2(t));
      f.ScaleEq(s1 * j, y1 * Pow3(W) * ((x2 - x1) * Pow2(t)), 2);
      ChordTail(y1, t, Pow3(W), x2 - x1);
      Ordinate(x1, y1, l, t, r, v, x3, c.x, Dbl(s1 * j));
    }

    lemma ChordAbscissa(x1: int, x2: int, l: int, t: int, r: int, j: int, v: int)
      requires f.Eq(r, l * t) && f.Eq(v, x1 * Pow2(t)) && f.Eq(j, (x2 - x1) * Pow2(t))
      ensures f.Eq(Square(r) - j - v - v, (l * l - x1 - x2) * Pow2(t))
    {
      ChordAbscissaIdentity(x1, x2, l, t, r, j, v);
      f.Combine3(Square(r) - j - v - v, (l * l - x1 - x2) * Pow2(t),
                 r, l * t, r + l * t, j, (x2 - x1) * Pow2(t), -1, v, x1 * Pow2(t), -2);
    }

    lemma ChordAbscissaIdentity(x1: int, x2: int, l: int, t: int, r: int, j: int, v: int)
      ensures Square(r) - j - v - v - (l * l - x1 - x2) * Pow2(t)
           == (r + l * t) * (r - l * t) + -1 * (j - (x2 - x1) * Pow2(t)) + -2 * (v - x1 * Pow2(t))
    {}

    lemma ChordTail(y1: int, t: int, W3: int, d: int)
      requires t == 2 * d * W3
      ensures 2 * (y1 * W3 * (d * Pow2(t))) == y1 * Pow3(t)
    {
      assert y1 * (t * t * t) == y1 * (2 * d * W3) * (t * t);
    }

    // The ordinate from the abscissa, shared by the chord and the tangent.
    lemma Ordinate(x1: int, y1: int, l: int, t: int, r: int, v: int, X3: int, x3: int, e: int)
      requires f.Eq(r, l * t) && f.Eq(v, x1 * Pow2(t)) && f.Eq(X3, x3 * Pow2(t)) && f.Eq(e, y1 * Pow3(t))
      ensures f.Eq(r * (v - X3) - e, (l * (x1 - x3) - y1) * Pow3(t))
    {
      ScaledDifference(x3, x1, X3, v, Pow2(t));
      f.MulEq(r, l * t, v - X3, (x1 - x3) * Pow2(t));
      f.SubEq(r * (v - X3), l * t * ((x1 - x3) * Pow2(t)), e, y1 * Pow3(t));
      OrdinateIdentity(l, t, x1 - x3, y1);
    }

    lemma OrdinateIdentity(l: int, t: int, d: int, y1: int)
      ensures l * t * (d * Pow2(t)) - y1 * Pow3(t) == (l * d - y1) * Pow3(t)
    {
      assert l * t * (d * (t * t)) == (l * d) * (t * t * t);
    }

    lemma Rescale(c: Affine, X: int, Y: int, t: int, z: int)
      requires c.Point? && f.Eq(z, t) && !f.Eq(t, 0)
      requires f.Eq(X, c.x * Pow2(t)) && f.Eq(Y, c.y * Pow3(t))
      ensures Represents(Jacobian(X, Y, z), c)
    {
      f.Sym(z, t);
      f.MulEq(t, z, t, z);
      f.MulEq(t * t, z * z, t, z);
      f.ScaleEq(Pow2(t), Pow2(z), c.x);
      f.ScaleEq(Pow3(t), Pow3(z), c.y);
      f.Trans(X, c.x * Pow2(t), c.x * Pow2(z));
      f.Trans(Y, c.y * Pow3(t), c.y * Pow3(z));
      if f.Eq(z, 0) { f.Trans(t, z, 0); }
    }

    lemma CubeNonZero(W: int)
      requires f.Prime() && !f.Eq(W, 0)
      ensures !f.Eq(Pow2(W), 0) && !f.Eq(Pow3(W), 0)
    {
      f.NonZeroMul(W, W);
      f.NonZeroMul(W * W, W);
    }

    lemma ChordDenominatorNonZero(d: int, W: int)
      requires f.Prime() && !f.Eq(d, 0) && !f.Eq(W, 0)
      ensures !f.Eq(2 * d * Pow3(W), 0)
    {
      f.TwoNonZero();
      CubeNonZero(W);
      f.NonZeroMul(2, d);
      f.NonZeroMul(2 * d, Pow3(W));
    }

    // Comparing u1 with u2 and s1 with s2 compares the affine coordinates.
    lemma ScaledComparison(a: int, b: int, u: int, v: int, w: int)
      requires f.Prime() && !f.Eq(w, 0) && f.Eq(u, a * w) && f.Eq(v, b * w)
      ensures f.IsZero(u - v) <==> f.Eq(a, b)
    {
      f.IsZeroIff(u - v);
      if f.Eq(u - v, 0) {
        f.Combine3(w * a, w * b, u - v, 0, 1, u, a * w, -1, v, b * w, 1);
        f.Cancel(w, a, b);
      }
      if f.Eq(a, b) {
        f.ScaleEq(a, b, w);
        f.Combine3(u - v, 0, u, a * w, 1, v, b * w, -1, a * w, b * w, 1);
      }
    }

    lemma DistinctCorrect(a: Affine, b: Affine, l: int, W: int, u1: int, u2: int, s1: int, s2: int, zz: int)
      requires a.Point? && b.Point? && !f.Eq(2 * (b.x - a.x) * Pow3(W), 0) && zz == 2 * W
      requires f.Eq(l * (b.x - a.x), b.y - a.y)
      requires f.Eq(u1, a.x * Pow2(W)) && f.Eq(u2, b.x * Pow2(W))
      requires f.Eq(s1, a.y * Pow3(W)) && f.Eq(s2, b.y * Pow3(W))
      ensures Represents(AddDistinct(u1, u2, s1, s2, zz), Third(l, a.x, a.y, b.x))
    {
      var d, h := b.x - a.x, u2 - u1;
      var t, i := 2 * d * Pow3(W), Square(Dbl(h));
      ChordScaled(a.x, a.y, b.x, b.y, l, W, u1, u2, s1, s2);
      ChordSquares(a.x, d, W, u1, h);
      ChordCoordinates(a.x, a.y, b.x, l, t, W, Dbl(s2 - s1), h * i, u1 * i, s1);
      var sum := AddDistinct(u1, u2, s1, s2, zz);
      Rescale(Third(l, a.x, a.y, b.x), sum.x, sum.y, t, sum.z);
    }

    // Both operands on the common denominator, and what the two tests decide.
    lemma Tests(p: Jacobian, q: Jacobian, a: Affine, b: Affine)
      requires f.Prime() && Represents(p, a) && Represents(q, b) && a.Point? && b.Point?
      ensures !IsIdentity(p) && !IsIdentity(q) && !f.Eq(p.z * q.z, 0)
      ensures var u1, u2 := p.x * Square(q.z), q.x * Square(p.z);
              && f.Eq(u1, a.x * Pow2(p.z * q.z)) && f.Eq(u2, b.x * Pow2(p.z * q.z))
              && (f.IsZero(u1 - u2) <==> f.Eq(a.x, b.x))
      ensures var s1, s2 := p.y * Square(q.z) * q.z, q.y * Square(p.z) * p.z;
              && f.Eq(s1, a.y * Pow3(p.z * q.z)) && f.Eq(s2, b.y * Pow3(p.z * q.z))
              && (f.IsZero(s1 - s2) <==> f.Eq(a.y, b.y))
    {
      var W := p.z * q.z;
      f.IsZeroIff(p.z);
      f.IsZeroIff(q.z);
      f.NonZeroMul(p.z, q.z);
      CommonDenominator(a.x, a.y, p.x, p.y, p.z, q.z);
      CommonDenominator(b.x, b.y, q.x, q.y, q.z, p.z);
      assert q.z * p.z == W;
      CubeNonZero(W);
      ScaledComparison(a.x, b.x, p.x * Square(q.z), q.x * Square(p.z), Pow2(W));
      ScaledComparison(a.y, b.y, p.y * Square(q.z) * q.z, q.y * Square(p.z) * p.z, Pow3(W));
    }

    lemma AddChord(p: Jacobian, q: Jacobian, a: Affine, b: Affine)
      requires f.Prime() && Represents(p, a) && Represents(q, b) && a.Point? && b.Point?
      requires !f.Eq(a.x, b.x)
      ensures Represents(Add(p, q), Third(ChordSlope(a, b), a.x, a.y, b.x))
    {
      Tests(p, q, a, b);
      ZFactor(p.z, q.z);
      NonZeroDiff(a.x, b.x);
      ChordDenominatorNonZero(b.x - a.x, p.z * q.z);
      DistinctCorrect(a, b, ChordSlope(a, b), p.z * q.z, p.x * Square(q.z), q.x * Square(p.z),
                      p.y * Square(q.z) * q.z, q.y * Square(p.z) * p.z,
                      Square(p.z + q.z) - Square(p.z) - Square(q.z));
    }

    lemma ZFactor(a: int, b: int)
      ensures Square(a + b) - Square(a) - Square(b) == 2 * (a * b)
    {}

    // ---------------------------------------------------------------- doubling

    // With t = 2 y z^4 for the affine x, y: z3 ~ t, m ~ slope * t, s ~ x t^2, 8 y^4 ~ y t^3.
    lemma DoubleZ(y: int, Y: int, z: int)
      requires f.Eq(Y, y * Pow3(z))
      ensures f.Eq(Square(Y + z) - Square(Y) - Square(z), 2 * y * Pow4(z))
    {
      ZFactor(Y, z);
      f.ScaleEq(Y, y * Pow3(z), 2 * z);
      FourthPower(y, z);
    }

    lemma FourthPower(y: int, z: int)
      ensures 2 * z * (y * Pow3(z)) == 2 * y * Pow4(z)
    {
      assert z * (y * (z * z * z)) == y * ((z * z) * (z * z));
    }

    lemma DoubleSTerm(x: int, y: int, X: int, Y: int, z: int)
      requires f.Eq(X, x * Pow2(z)) && f.Eq(Y, y * Pow3(z))
      ensures f.Eq(Dbl(Square(X + Square(Y)) - Square(X) - Square(Square(Y))), x * Pow2(2 * y * Pow4(z)))
    {
      var x', y' := x * Pow2(z), y * Pow3(z);
      f.MulEq(Y, y', Y, y');
      f.MulEq(X, x', Square(Y), y' * y');
      f.ScaleEq(X * Square(Y), x' * (y' * y'), 4);
      DoubleS(X, Square(Y));
      DoublePowers(x, y, z);
    }

    lemma DoubleA8(y: int, Y: int, z: int)
      requires f.Eq(Y, y * Pow3(z))
      ensures f.Eq(Dbl(Dbl(Dbl(Square(Square(Y))))), y * Pow3(2 * y * Pow4(z)))
    {
      var y' := y * Pow3(z);
      f.MulEq(Y, y', Y, y');
      f.MulEq(Square(Y), y' * y', Square(Y), y' * y');
      f.ScaleEq(Square(Square(Y)), (y' * y') * (y' * y'), 8);
      DoublePowers(0, y, z);
    }

    lemma DoubleS(X: int, yy: int)
      ensures Dbl(Square(X + yy) - Square(X) - Square(yy)) == 4 * (X * yy)
    {}

    lemma DoubleSlope(x: int, y: int, l: int, X: int, z: int, t: int)
      requires f.Eq(X, x * Pow2(z)) && f.Eq(l * (2 * y), 3 * x * x + A) && t == 2 * y * Pow4(z)
      ensures f.Eq(Dbl(Square(X)) + Square(X) + A * Square(Square(z)), l * t)
    {
      SlopeCertificate(x, y, l, X, z * z, A);
      f.Combine2(Dbl(Square(X)) + Square(X) + A * Square(Square(z)), l * t,
                 X, x * Pow2(z), 3 * (X + x * Pow2(z)), l * (2 * y), 3 * x * x + A, -Pow4(z));
    }

    lemma SlopeCertificate(x: int, y: int, l: int, X: int, w: int, a: int)
      ensures Dbl(Square(X)) + Square(X) + a * Square(w) - l * (2 * y * (w * w))
           == 3 * (X + x * w) * (X - x * w) + -(w * w) * (l * (2 * y) - (3 * x * x + a))
    {
      SlopeFactor(x, w, a);
      assert 3 * (X + x * w) * (X - x * w) == 3 * (X * X) - 3 * ((x * w) * (x * w));
    }

    lemma SlopeFactor(x: int, w: int, a: int)
      ensures 3 * ((x * w) * (x * w)) + a * (w * w) == (3 * x * x + a) * (w * w)
    {}

    lemma DoublePowers(x: int, y: int, z: int)
      ensures var t := 2 * y * Pow4(z); var x', y' := x * Pow2(z), y * Pow3(z);
              && 4 * (x' * (y' * y')) == x * Pow2(t)
              && 8 * ((y' * y') * (y' * y')) == y * Pow3(t)
    {
      var w := z * z;
      var t, y', c := 2 * y * (w * w), y * Pow3(z), y * y;
      assert y' * y' == c * (w * w * w) by { CubeSquare(y, z); }
      assert t * t == 4 * c * (w * w * w * w);
      EighthPowers(x, y, c, w, t);
    }

    lemma CubeSquare(y: int, z: int)
      ensures (y * (z * z * z)) * (y * (z * z * z)) == (y * y) * ((z * z) * (z * z) * (z * z))
    {}

    lemma EighthPowers(x: int, y: int, c: int, w: int, t: int)
      requires c == y * y && t == 2 * y * (w * w) && t * t == 4 * c * (w * w * w * w)
      ensures 4 * ((x * w) * (c * (w * w * w))) == x * (t * t)
      ensures 8 * ((c * (w * w * w)) * (c * (w * w * w))) == y * (t * t * t)
    {
      var w2 := w * w;
      assert y * t == 2 * c * w2;
      EighthPower(c, w2, w);
      assert y * (t * t * t) == (t * t) * (y * t);
    }

    lemma EighthPower(c: int, w2: int, w: int)
      requires w2 == w * w
      ensures (4 * c * (w * w * w * w)) * (2 * c * w2) == 8 * ((c * (w * w * w)) * (c * (w * w * w)))
    {
      var c2, w6 := c * c, w2 * w2 * w2;
      assert (c * (w * w * w)) * (c * (w * w * w)) == c2 * w6;
      assert (4 * c * (w2 * w2)) * (2 * c * w2) == 8 * (c2 * w6);
    }

    lemma DoubleFromCorrect(a: Affine, l: int, t: int, m: int, s: int, a8: int, z3: int)
      requires a.Point? && !f.Eq(t, 0) && f.Eq(z3, t)
      requires f.Eq(m, l * t) && f.Eq(s, a.x * Pow2(t)) && f.Eq(a8, a.y * Pow3(t))
      ensures Represents(DoubleFrom(m, s, a8, z3), Third(l, a.x, a.y, a.x))
    {
      DoubleCoordinates(a.x, a.y, l, t, m, s, a8);
      var d := DoubleFrom(m, s, a8, z3);
      Rescale(Third(l, a.x, a.y, a.x), d.x, d.y, t, z3);
    }

    lemma DoubleDenominatorNonZero(y: int, z: int)
      requires f.Prime() && !f.Eq(2 * y, 0) && !f.Eq(z, 0)
      ensures !f.Eq(2 * y * Pow4(z), 0)
    {
      f.NonZeroMul(z, z);
      f.NonZeroMul(Pow2(z), Pow2(z));
      f.NonZeroMul(2 * y, Pow4(z));
    }

    lemma DoubleTangent(p: Jacobian, a: Affine)
      requires f.Prime() && Represents(p, a) && a.Point? && !f.Eq(2 * a.y, 0)
      ensures Represents(Double(p), Third(TangentSlope(a), a.x, a.y, a.x))
    {
      var x, y, l, z := a.x, a.y, TangentSlope(a), p.z;
      f.IsZeroIff(z);
      DoubleZ(y, p.y, z);
      DoubleSTerm(x, y, p.x, p.y, z);
      DoubleA8(y, p.y, z);
      DoubleSlope(x, y, l, p.x, z, 2 * y * Pow4(z));
      DoubleDenominatorNonZero(y, z);
      DoubleFromCorrect(a, l, 2 * y * Pow4(z),
                        Dbl(Square(p.x)) + Square(p.x) + A * Square(Square(z)),
                        Dbl(Square(p.x + Square(p.y)) - Square(p.x) - Square(Square(p.y))),
                        Dbl(Dbl(Dbl(Square(Square(p.y))))), Square(p.y + z) - Square(p.y) - Square(z));
    }

    lemma DoubleCoordinates(x: int, y: int, l: int, t: int, m: int, s: int, a8: int)
      requires f.Eq(m, l * t) && f.Eq(s, x * Pow2(t)) && f.Eq(a8, y * Pow3(t))
      ensures var x3 := Square(m) - Dbl(s); var c := Third(l, x, y, x);
              f.Eq(x3, c.x * Pow2(t)) && f.Eq(m * (s - x3) - a8, c.y * Pow3(t))
    {
      f.Same(0, (x - x) * Pow2(t));
      ChordAbscissa(x, x, l, t, m, 0, s);
      Ordinate(x, y, l, t, m, s, Square(m) - Dbl(s), l * l - x - x, a8);
    }

    lemma Factor(a: int, b: int, c: int)
      ensures a * c - b * c == (a - b) * c
    {}

    // ---------------------------------------------------------------- curve membership

    // The line of slope l through (x1, y1) meets the cubic in x1, x2 and
    // x3 = l^2 - x1 - x2; matching coefficients leaves a linear remainder a X + b.
    lemma LineMeetsCurve(l: int, x1: int, y1: int, x2: int)
      requires var c := y1 - l * x1; var x3 := l * l - x1 - x2;
               && f.Eq(A - 2 * l * c, x1 * x2 + x3 * (x1 + x2))
               && f.Eq(B - c * c, -(x1 * x2 * x3))
      ensures OnAffine(Third(l, x1, y1, x2))
    {
      var c, x3 := y1 - l * x1, l * l - x1 - x2;
      var s := Third(l, x1, y1, x2);
      CubicAtThird(l, c, x1, x2, x3, A, B);
      assert s.y == -(l * x3 + c);
      f.Combine2(s.y * s.y, x3 * x3 * x3 + A * x3 + B,
               A - 2 * l * c, x1 * x2 + x3 * (x1 + x2), -x3, B - c * c, -(x1 * x2 * x3), -1);
    }

    lemma CubicAtThird(l: int, c: int, x1: int, x2: int, x3: int, a: int, b: int)
      requires l * l == x1 + x2 + x3
      ensures (-(l * x3 + c)) * (-(l * x3 + c)) - (x3 * x3 * x3 + a * x3 + b)
           == -x3 * ((a - 2 * l * c) - (x1 * x2 + x3 * (x1 + x2))) + -1 * ((b - c * c) - (-(x1 * x2 * x3)))
    {
      calc {
        (-(l * x3 + c)) * (-(l * x3 + c));
      ==
        (l * l) * (x3 * x3) + 2 * l * c * x3 + c * c;
      ==
        (x1 + x2 + x3) * (x3 * x3) + 2 * l * c * x3 + c * c;
      }
    }

    // A linear remainder vanishing at two distinct points is zero.
    lemma LinearRemainder(a: int, b: int, x1: int, x2: int)
      requires f.Prime() && f.Eq(a * x1 + b, 0) && f.Eq(a * x2 + b, 0) && !f.Eq(x1, x2)
      ensures f.Eq(a, 0) && f.Eq(b, 0)
    {
      f.Combine2((x2 - x1) * a, 0, a * x2 + b, 0, 1, a * x1 + b, 0, -1);
      NonZeroDiff(x2, x1);
      f.NoZeroDivisors(x2 - x1, a);
      f.Combine2(b, 0, a * x1 + b, 0, 1, a, 0, -x1);
    }

    lemma ChordOnCurve(l: int, x1: int, y1: int, x2: int, y2: int)
      requires f.Prime() && !f.Eq(x1, x2)
      requires OnAffine(Point(x1, y1)) && OnAffine(Point(x2, y2)) && f.Eq(l * (x2 - x1), y2 - y1)
      ensures OnAffine(Third(l, x1, y1, x2))
    {
      var c, x3 := y1 - l * x1, l * l - x1 - x2;
      var a, b := A - 2 * l * c - (x1 * x2 + x3 * (x1 + x2)), B - c * c + x1 * x2 * x3;
      RemainderAtRoot(l, c, x1, x2, x3, A, B);
      f.Combine1(a * x1 + b, 0, y1 * y1, x1 * x1 * x1 + A * x1 + B, -1);
      RemainderAtRoot(l, c, x2, x1, x3, A, B);
      var w := l * x2 + c;
      f.Combine1(w, y2, l * (x2 - x1), y2 - y1, 1);
      f.MulEq(w, y2, w, y2);
      f.Combine2(a * x2 + b, 0, y2 * y2, x2 * x2 * x2 + A * x2 + B, -1, w * w, y2 * y2, -1);
      LinearRemainder(a, b, x1, x2);
      f.Combine1(A - 2 * l * c, x1 * x2 + x3 * (x1 + x2), a, 0, 1);
      f.Combine1(B - c * c, -(x1 * x2 * x3), b, 0, 1);
      LineMeetsCurve(l, x1, y1, x2);
    }

    lemma RemainderAtRoot(l: int, c: int, x: int, x': int, x3: int, a: int, b: int)
      requires l * l == x + x' + x3
      ensures (a - 2 * l * c - (x * x' + x3 * (x + x'))) * x + (b - c * c + x * x' * x3)
           == x * x * x + a * x + b - (l * x + c) * (l * x + c)
    {
      calc {
        (l * x + c) * (l * x + c);
      ==
        (l * l) * (x * x) + 2 * l * c * x + c * c;
      ==
        (x + x' + x3) * (x * x) + 2 * l * c * x + c * c;
      }
    }

    lemma TangentOnCurve(l: int, x: int, y: int)
      requires OnAffine(Point(x, y)) && f.Eq(l * (2 * y), 3 * x * x + A)
      ensures OnAffine(Third(l, x, y, x))
    {
      var c, x3 := y - l * x, l * l - x - x;
      var a, b := A - 2 * l * c - (x * x + x3 * (x + x)), B - c * c + x * x * x3;
      TangentDerivative(l, x, y, c, x3, A);
      f.Combine1(a, 0, l * (2 * y), 3 * x * x + A, -1);
      RemainderAtRoot(l, c, x, x, x3, A, B);
      f.Combine2(b, 0, y * y, x * x * x + A * x + B, -1, a, 0, -x);
      f.Combine1(A - 2 * l * c, x * x + x3 * (x + x), a, 0, 1);
      f.Combine1(B - c * c, -(x * x * x3), b, 0, 1);
      LineMeetsCurve(l, x, y, x);
    }

    lemma TangentDerivative(l: int, x: int, y: int, c: int, x3: int, a: int)
      requires c == y - l * x && x3 == l * l - x - x
      ensures a - 2 * l * c - (x * x + x3 * (x + x)) == -1 * (l * (2 * y) - (3 * x * x + a))
    {}

    // The affine law stays on the curve.
    lemma AffineAddClosed(p: Affine, q: Affine)
      requires f.Prime() && OnAffine(p) && OnAffine(q)
      ensures OnAffine(AffineAdd(p, q))
    {
      if p.Point? && q.Point? {
        if !f.Eq(p.x, q.x) {
          ChordOnCurve(ChordSlope(p, q), p.x, p.y, q.x, q.y);
        } else if !f.Eq(p.y, -q.y) {
          SameAbscissa(p, q);
          TangentOnCurve(TangentSlope(p), p.x, p.y);
        }
      }
    }

    ghost function ToAffine(p: Jacobian): (a: Affine)
      requires f.Prime()
      ensures Represents(p, a)
    {
      if f.Eq(p.z, 0) then Infinity
      else
        CubeNonZero(p.z);
        var x, y := f.Div(p.x, Pow2(p.z)), f.Div(p.y, Pow3(p.z));
        f.Sym(x * Pow2(p.z), p.x);
        f.Sym(y * Pow3(p.z), p.y);
        Point(x, y)
    }

    // A triple stands for one affine point only.
    lemma RepresentsUnique(p: Jacobian, a: Affine, b: Affine)
      requires f.Prime() && Represents(p, a) && Represents(p, b)
      ensures a.Infinity? <==> b.Infinity?
      ensures a.Point? ==> f.Eq(a.x, b.x) && f.Eq(a.y, b.y)
    {
      if a.Point? {
        CubeNonZero(p.z);
        UniqueQuotient(p.x, a.x, b.x, Pow2(p.z));
        UniqueQuotient(p.y, a.y, b.y, Pow3(p.z));
      }
    }

    lemma UniqueQuotient(U: int, u: int, v: int, w: int)
      requires f.Prime() && !f.Eq(w, 0) && f.Eq(U, u * w) && f.Eq(U, v * w)
      ensures f.Eq(u, v)
    {
      f.Combine2(w * u, w * v, U, u * w, -1, U, v * w, 1);
      f.Cancel(w, u, v);
    }

    // The Jacobian and the affine equation agree on represented points.
    lemma CurveEquations(p: Jacobian, a: Affine)
      requires f.Prime() && Represents(p, a)
      ensures OnCurve(p) <==> OnAffine(a)
    {
      if a.Point? {
        var w6, g := Pow6(p.z), a.x * a.x * a.x + A * a.x + B;
        CurveScale(a.x, p.x, p.z);
        OrdinateSquare(a.y, p.y, p.z);
        CubeNonZero(p.z);
        f.NonZeroMul(Pow3(p.z), Pow3(p.z));
        ScaledEquality(p.y * p.y, p.x * p.x * p.x + A * p.x * Pow4(p.z) + B * w6, a.y * a.y, g, w6);
      }
    }

    lemma OrdinateSquare(y: int, Y: int, z: int)
      requires f.Eq(Y, y * Pow3(z))
      ensures f.Eq(Y * Y, Pow6(z) * (y * y))
    {
      f.MulEq(Y, y * Pow3(z), Y, y * Pow3(z));
      SquareOfProduct(y, Pow3(z));
    }

    lemma SquareOfProduct(y: int, w: int)
      ensures (y * w) * (y * w) == (w * w) * (y * y)
    {}

    lemma ScaledEquality(U: int, V: int, u: int, v: int, w: int)
      requires f.Prime() && !f.Eq(w, 0) && f.Eq(U, w * u) && f.Eq(V, w * v)
      ensures f.Eq(U, V) <==> f.Eq(u, v)
    {
      if f.Eq(U, V) {
        f.Combine3(w * u, w * v, U, V, 1, U, w * u, -1, V, w * v, 1);
        f.Cancel(w, u, v);
      }
      if f.Eq(u, v) {
        f.ScaleEq(u, v, w);
        f.Combine3(U, V, w * u, w * v, 1, U, w * u, 1, V, w * v, -1);
      }
    }

    lemma CurveScale(x: int, X: int, z: int)
      requires f.Eq(X, x * Pow2(z))
      ensures f.Eq(X * X * X + A * X * Pow4(z) + B * Pow6(z), Pow6(z) * (x * x * x + A * x + B))
    {
      var x' := x * Pow2(z);
      CurveScaleIdentity(x, z * z, z * z * z, A, B);
      CubeDifference(X, x', A * Pow4(z));
      f.Combine1(X * X * X + A * X * Pow4(z) + B * Pow6(z), Pow6(z) * (x * x * x + A * x + B),
                 X, x', X * X + X * x' + x' * x' + A * Pow4(z));
    }

    lemma CubeDifference(X: int, x: int, c: int)
      ensures (X * X * X + c * X) - (x * x * x + c * x) == (X * X + X * x + x * x + c) * (X - x)
    {}

    lemma CurveScaleIdentity(x: int, z2: int, z3: int, a: int, b: int)
      requires z2 * z2 * z2 == z3 * z3
      ensures (x * z2) * (x * z2) * (x * z2) + a * (z2 * z2) * (x * z2) + b * (z3 * z3)
           == (z3 * z3) * (x * x * x + a * x + b)
    {
      var w := z2 * z2 * z2;
      assert (x * z2) * (x * z2) * (x * z2) == w * (x * x * x);
      assert a * (z2 * z2) * (x * z2) == w * (a * x);
    }

    lemma DoubleRepresents(p: Jacobian, a: Affine)
      requires f.Prime() && Represents(p, a) && OnAffine(a)
      ensures Represents(Double(p), AffineAdd(a, a))
    {
      f.IsZeroIff(p.z);
      if a.Point? {
        f.Same(a.x, a.x);
        if f.Eq(a.y, -a.y) {
          DoubleOrderTwo(a.y, p.y, p.z);
        } else {
          SameAbscissa(a, a);
          DoubleTangent(p, a);
        }
      } else {
        f.Same(IDENTITY.z, 0);
      }
    }

    // Doubling a point with y = 0 gives z3 = 0.
    lemma DoubleOrderTwo(y: int, Y: int, z: int)
      requires f.Eq(y, -y) && f.Eq(Y, y * Pow3(z))
      ensures f.Eq(Square(Y + z) - Square(Y) - Square(z), 0)
    {
      DoubleZ(y, Y, z);
      f.Combine1(2 * y * Pow4(z), 0, y, -y, Pow4(z));
      f.Trans(Square(Y + z) - Square(Y) - Square(z), 2 * y * Pow4(z), 0);
    }

    // Every branch of `add_iso_pallas` computes the group law.
    lemma AddRepresents(p: Jacobian, q: Jacobian, a: Affine, b: Affine)
      requires f.Prime() && Represents(p, a) && Represents(q, b) && OnAffine(a) && OnAffine(b)
      ensures Represents(Add(p, q), AffineAdd(a, b))
    {
      f.IsZeroIff(p.z);
      f.IsZeroIff(q.z);
      if a.Point? && b.Point? {
        if !f.Eq(a.x, b.x) {
          AddChord(p, q, a, b);
        } else {
          Tests(p, q, a, b);
          if f.Eq(a.y, -b.y) {
            if f.Eq(a.y, b.y) {
              f.Combine2(a.y, -a.y, a.y, -b.y, 1, a.y, b.y, 1);
              DoubleRepresents(p, a);
              f.Same(a.x, a.x);
            } else {
              f.Same(IDENTITY.z, 0);
            }
          } else {
            SameAbscissa(a, b);
            DoubleTangent(p, a);
          }
        }
      }
    }

    /**
     For all on-curve Jacobian inputs, identity operands, equal points under
     different z, opposite points and points of order two included: the sum stays on
     the curve and stands for the affine group-law sum.
     */
    lemma AddLaw(p: Jacobian, q: Jacobian)
      requires f.Prime() && OnCurve(p) && OnCurve(q)
      ensures OnAffine(ToAffine(p)) && OnAffine(ToAffine(q))
      ensures Represents(Add(p, q), AffineAdd(ToAffine(p), ToAffine(q)))
      ensures OnCurve(Add(p, q))
    {
      var a, b := ToAffine(p), ToAffine(q);
      CurveEquations(p, a);
      CurveEquations(q, b);
      AddRepresents(p, q, a, b);
      AffineAddClosed(a, b);
      CurveEquations(Add(p, q), AffineAdd(a, b));
    }

    lemma DoubleLaw(p: Jacobian)
      requires f.Prime() && OnCurve(p)
      ensures OnAffine(ToAffine(p))
      ensures Represents(Double(p), AffineAdd(ToAffine(p), ToAffine(p)))
      ensures OnCurve(Double(p))
    {
      var a := ToAffine(p);
      CurveEquations(p, a);
      DoubleRepresents(p, a);
      AffineAddClosed(a, a);
      CurveEquations(Double(p), AffineAdd(a, a));
    }
  }

  // Parameters of iso-Pallas.
  const ISO_A: int := 0x18354a2eb0ea8c9c49be2d7258370742b74134581a27a59f92bb4b0b657a014b
  const ISO_B: int := 1265
  const ISO_PALLAS := Curve(PALLAS_BASE, ISO_A, ISO_B)

  // `add_iso_pallas` on the real parameters.
  lemma AddIsoPallas(p: Jacobian, q: Jacobian)
    requires PALLAS_BASE.Prime() && ISO_PALLAS.OnCurve(p) && ISO_PALLAS.OnCurve(q)
    ensures ISO_PALLAS.OnAffine(ISO_PALLAS.ToAffine(p)) && ISO_PALLAS.OnAffine(ISO_PALLAS.ToAffine(q))
    ensures ISO_PALLAS.Represents(ISO_PALLAS.Add(p, q),
                                  ISO_PALLAS.AffineAdd(ISO_PALLAS.ToAffine(p), ISO_PALLAS.ToAffine(q)))
    ensures ISO_PALLAS.OnCurve(ISO_PALLAS.Add(p, q))
  {
    ISO_PALLAS.AddLaw(p, q);
  }

  // `double_iso_pallas` on the real parameters.
  lemma DoubleIsoPallas(p: Jacobian)
    requires PALLAS_BASE.Prime() && ISO_PALLAS.OnCurve(p)
    ensures ISO_PALLAS.OnAffine(ISO_PALLAS.ToAffine(p))
    ensures ISO_PALLAS.Represents(ISO_PALLAS.Double(p),
                                  ISO_PALLAS.AffineAdd(ISO_PALLAS.ToAffine(p), ISO_PALLAS.ToAffine(p)))
    ensures ISO_PALLAS.OnCurve(ISO_PALLAS.Double(p))
  {
    ISO_PALLAS.DoubleLaw(p);
  }
}
