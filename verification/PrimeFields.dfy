/**
 A prime field as the integers modulo p. An element is an integer standing for its
 residue class: operations are the integer operations and every test goes through
 the class, so no representative is privileged except where the source looks at the
 canonical one (`is_odd`). The Pallas base field is the instance PALLAS_BASE.
 */
module PrimeFields {
  import opened Residues

  const PALLAS_BASE := Field(0x40000000000000000000000000000000224698fc094cf91b992d30ed00000001)

  type Modulus = n: int | n > 2 && n % 2 == 1 witness 3

  datatype Field = Field(p: Modulus) {

    function Times(k: int): int { k * p }

    // Congruence modulo p: equality of field elements.
    ghost predicate Eq(a: int, b: int) {
      exists k :: a - b == Times(k)
    }

    // `is_zero`, and `==` through the difference.
    predicate IsZero(a: int) { a % p == 0 }

    lemma IsZeroIff(a: int)
      ensures IsZero(a) <==> Eq(a, 0)
    {
      if IsZero(a) {
        EqIntro(a, 0, a / p);
      }
      if Eq(a, 0) {
        var k :| a - 0 == Times(k);
        MultipleIsZero(k, a);
      }
    }

    lemma MultipleIsZero(k: int, a: int)
      requires a == k * p
      ensures a % p == 0
    {
      ModUnique(a, k, 0, p);
    }

    // Parity of the canonical representative.
    predicate Odd(a: int) { (a % p) % 2 == 1 }

    lemma OddRespectsEq(a: int, b: int)
      requires Eq(a, b)
      ensures Odd(a) <==> Odd(b)
    {
      var k :| a - b == Times(k);
      ModShift(b, k, p);
    }

    // The modulus is odd, so negating a non-zero element flips its parity.
    lemma OddOfNegation(a: int)
      requires !Eq(a, 0)
      ensures Odd(-a) <==> !Odd(a)
    {
      IsZeroIff(a);
      DivMod(a, p);
      NegatedQuotient(a / p, a % p);
      ModUnique(-a, -(a / p) - 1, p - a % p, p);
    }

    lemma NegatedQuotient(q: int, r: int)
      ensures -(q * p + r) == (-q - 1) * p + (p - r)
    {}

    // The one number-theoretic fact about p used here: it is prime, stated as the
    // invertibility of every non-zero element.
    ghost predicate Prime() {
      forall a {:trigger Invertible(a)} :: !Eq(a, 0) ==> Invertible(a)
    }

    ghost predicate Invertible(a: int) {
      exists b :: Eq(a * b, 1)
    }

    lemma EqIntro(a: int, b: int, k: int)
      requires a - b == k * p
      ensures Eq(a, b)
    {
      assert a - b == Times(k);
    }

    lemma Same(a: int, b: int)
      requires a == b
      ensures Eq(a, b)
    {
      EqIntro(a, b, 0);
    }

    lemma Sym(a: int, b: int)
      requires Eq(a, b)
      ensures Eq(b, a)
    {
      var k :| a - b == Times(k);
      EqIntro(b, a, -k);
    }

    lemma Trans(a: int, b: int, c: int)
      requires Eq(a, b) && Eq(b, c)
      ensures Eq(a, c)
    {
      var j :| a - b == Times(j);
      var k :| b - c == Times(k);
      EqIntro(a, c, j + k);
    }

    lemma AddEq(a: int, a': int, b: int, b': int)
      requires Eq(a, a') && Eq(b, b')
      ensures Eq(a + b, a' + b')
    {
      var j :| a - a' == Times(j);
      var k :| b - b' == Times(k);
      EqIntro(a + b, a' + b', j + k);
    }

    lemma SubEq(a: int, a': int, b: int, b': int)
      requires Eq(a, a') && Eq(b, b')
      ensures Eq(a - b, a' - b')
    {
      var j :| a - a' == Times(j);
      var k :| b - b' == Times(k);
      EqIntro(a - b, a' - b', j - k);
    }

    lemma ScaleEq(a: int, a': int, c: int)
      requires Eq(a, a')
      ensures Eq(a * c, a' * c) && Eq(c * a, c * a')
    {
      var j :| a - a' == Times(j);
      ScaleWitness(a, a', c, j);
      EqIntro(a * c, a' * c, j * c);
      EqIntro(c * a, c * a', j * c);
    }

    lemma ScaleWitness(a: int, a': int, c: int, j: int)
      requires a - a' == j * p
      ensures a * c - a' * c == (j * c) * p
    {
      assert a * c - a' * c == (a - a') * c;
    }

    lemma MulEq(a: int, a': int, b: int, b': int)
      requires Eq(a, a') && Eq(b, b')
      ensures Eq(a * b, a' * b')
    {
      ScaleEq(a, a', b);
      ScaleEq(b, b', a');
      Trans(a * b, a' * b, a' * b');
    }

    // Two elements are equal when their difference is an integer combination of
    // differences of equal elements.
    lemma Combine1(x: int, y: int, a: int, b: int, c: int)
      requires Eq(a, b) && x - y == c * (a - b)
      ensures Eq(x, y)
    {
      var k :| a - b == Times(k);
      ScaleWitness(a, b, c, k);
      EqIntro(x, y, k * c);
    }

    lemma Combine2(x: int, y: int, a: int, b: int, c: int, a': int, b': int, c': int)
      requires Eq(a, b) && Eq(a', b') && x - y == c * (a - b) + c' * (a' - b')
      ensures Eq(x, y)
    {
      Combine1(c * (a - b), 0, a, b, c);
      Combine1(c' * (a' - b'), 0, a', b', c');
      AddEq(c * (a - b), 0, c' * (a' - b'), 0);
      AddEq(x - y, 0, y, y) by { Same(y, y); }
    }

    lemma Combine3(x: int, y: int, a: int, b: int, c: int, a': int, b': int, c': int, a'': int, b'': int, c'': int)
      requires Eq(a, b) && Eq(a', b') && Eq(a'', b'')
      requires x - y == c * (a - b) + c' * (a' - b') + c'' * (a'' - b'')
      ensures Eq(x, y)
    {
      var z := x - c'' * (a'' - b'');
      Combine2(z, y, a, b, c, a', b', c');
      Combine1(x, z, a'', b'', c'');
      Trans(x, z, y);
    }

    // A field has no zero divisors.
    lemma NoZeroDivisors(a: int, b: int)
      requires Prime() && Eq(a * b, 0) && !Eq(a, 0)
      ensures Eq(b, 0)
    {
      assert Invertible(a);
      var i :| Eq(a * i, 1);
      InverseCertificate(a, b, i);
      Combine2(b, 0, a * b, 0, i, a * i, 1, -b);
    }

    lemma InverseCertificate(a: int, b: int, i: int)
      ensures b - 0 == i * (a * b - 0) + -b * (a * i - 1)
    {}

    lemma Cancel(a: int, b: int, c: int)
      requires Prime() && Eq(a * b, a * c) && !Eq(a, 0)
      ensures Eq(b, c)
    {
      SubEq(a * b, a * c, a * c, a * c) by { Same(a * c, a * c); }
      assert a * b - a * c == a * (b - c);
      NoZeroDivisors(a, b - c);
      AddEq(b - c, 0, c, c) by { Same(c, c); }
    }

    // Non-zero elements are closed under multiplication.
    lemma NonZeroMul(a: int, b: int)
      requires Prime() && !Eq(a, 0) && !Eq(b, 0)
      ensures !Eq(a * b, 0)
    {
      if Eq(a * b, 0) { NoZeroDivisors(a, b); }
    }

    // 2 is invertible: p is odd.
    lemma TwoNonZero()
      ensures !Eq(2, 0)
    {
      IsZeroIff(2);
      ModUnique(2, 0, 2, p);
    }

    // Quotient of field elements, used by the affine specifications only.
    ghost function Div(a: int, b: int): (q: int)
      requires Prime() && !Eq(b, 0)
      ensures Eq(q * b, a)
    {
      assert Invertible(b);
      var i :| Eq(b * i, 1);
      assert Eq((a * i) * b, a) by {
        ScaleEq(b * i, 1, a);
        assert (b * i) * a == (a * i) * b;
      }
      a * i
    }
  }
}
