/**
 A commutative group, written additively, with integer scalar multiplication: the
 algebra behind the Pallas points. Elements are values of an arbitrary type; only the
 laws are used. Scalar multiplication is given by its defining equations
 [0] e = 0 and [k + 1] e = [k] e + e.
 */
module PallasGroup {
  import opened Residues

  datatype Group<!E(!new)> = Group(zero: E, add: (E, E) -> E, neg: E -> E, mul: (int, E) -> E) {

    // The laws, each behind a name that keeps the solver from applying it on its own.
    ghost predicate Assoc(a: E, b: E, c: E) { add(add(a, b), c) == add(a, add(b, c)) }
    ghost predicate Comm(a: E, b: E) { add(a, b) == add(b, a) }
    ghost predicate Unit(a: E) { add(a, zero) == a }
    ghost predicate Inverse(a: E) { add(a, neg(a)) == zero }
    ghost predicate Step(k: int, e: E) { mul(0, e) == zero && mul(k + 1, e) == add(mul(k, e), e) }

    ghost predicate Abelian() {
      && (forall a, b, c {:trigger Assoc(a, b, c)} :: Assoc(a, b, c))
      && (forall a, b {:trigger Comm(a, b)} :: Comm(a, b))
      && (forall a {:trigger Unit(a)} :: Unit(a))
      && (forall a {:trigger Inverse(a)} :: Inverse(a))
      && (forall k, e {:trigger Step(k, e)} :: Step(k, e))
    }

    // (a + b) + (c + d) == (a + c) + (b + d)
    lemma Interchange(a: E, b: E, c: E, d: E)
      requires Abelian()
      ensures add(add(a, b), add(c, d)) == add(add(a, c), add(b, d))
    {
      assert Assoc(a, b, add(c, d)) && Assoc(b, c, d) && Comm(b, c) && Assoc(c, b, d) && Assoc(a, c, add(b, d));
    }

    lemma CancelRight(a: E, b: E, c: E)
      requires Abelian() && add(a, c) == add(b, c)
      ensures a == b
    {
      assert Assoc(a, c, neg(c)) && Assoc(b, c, neg(c)) && Inverse(c) && Unit(a) && Unit(b);
    }

    // Opposite elements are those whose sum is zero.
    lemma OppositeSum(a: E, b: E)
      requires Abelian()
      ensures a == neg(b) <==> add(a, b) == zero
    {
      assert Inverse(b) && Comm(b, neg(b));
      if add(a, b) == zero { CancelRight(a, neg(b), b); }
    }

    lemma MulOne(e: E)
      requires Abelian()
      ensures mul(1, e) == e
    {
      assert Step(0, e) && Comm(zero, e) && Unit(e);
    }

    lemma {:induction false} MulAdd(j: int, k: int, e: E)
      requires Abelian()
      ensures mul(j + k, e) == add(mul(j, e), mul(k, e))
      decreases if k < 0 then -k else k
    {
      if k == 0 {
        assert Step(0, e) && Unit(mul(j, e));
      } else if k > 0 {
        MulAdd(j, k - 1, e);
        assert Step(j + k - 1, e) && Step(k - 1, e) && Assoc(mul(j, e), mul(k - 1, e), e);
      } else {
        MulAdd(j, k + 1, e);
        assert Step(j + k, e) && Step(k, e) && Assoc(mul(j, e), mul(k, e), e);
        CancelRight(mul(j + k, e), add(mul(j, e), mul(k, e)), e);
      }
    }

    lemma MulNeg(k: int, e: E)
      requires Abelian()
      ensures mul(-k, e) == neg(mul(k, e))
    {
      MulAdd(-k, k, e);
      var m := mul(k, e);
      assert Step(0, e) && Inverse(m) && Comm(m, neg(m));
      CancelRight(mul(-k, e), neg(m), m);
    }

    lemma {:induction false} MulZero(k: nat)
      requires Abelian()
      ensures mul(k, zero) == zero
    {
      assert Step(k - 1, zero) && Unit(zero);
      if k > 0 { MulZero(k - 1); }
    }

    lemma {:induction false} MulMul(j: nat, k: int, e: E)
      requires Abelian()
      ensures mul(j * k, e) == mul(j, mul(k, e))
    {
      assert Step(j - 1, mul(k, e)) && Step(0, e);
      if j > 0 {
        MulMul(j - 1, k, e);
        StepProduct(j, k);
        MulAdd((j - 1) * k, k, e);
      }
    }

    lemma StepProduct(j: int, k: int)
      ensures j * k == (j - 1) * k + k
    {}

    // Every element is annihilated by q.
    ghost predicate Annihilates(q: int) {
      forall e {:trigger Vanishes(q, e)} :: Vanishes(q, e)
    }

    ghost predicate Vanishes(q: int, e: E) { mul(q, e) == zero }

    // Scalars may be reduced modulo the order.
    lemma MulMod(q: int, k: nat, e: E)
      requires Abelian() && q > 0 && Annihilates(q)
      ensures mul(k % q, e) == mul(k, e)
    {
      DivMod(k, q);
      MulAdd((k / q) * q, k % q, e);
      MulMul(k / q, q, e);
      assert Vanishes(q, e);
      MulZero(k / q);
      var r := mul(k % q, e);
      assert Comm(zero, r) && Unit(r);
    }

    lemma MulCongruent(q: int, j: nat, k: nat, e: E)
      requires Abelian() && q > 0 && Annihilates(q) && j % q == k % q
      ensures mul(j, e) == mul(k, e)
    {
      MulMod(q, j, e);
      MulMod(q, k, e);
    }
  }
}
