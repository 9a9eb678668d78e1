/**
 Facts about integer multiples and remainders shared by the arithmetic modules.
 */
module Residues {

  lemma MulMono(x: int, y: int, z: int)
    requires x <= y && 0 <= z
    ensures x * z <= y * z
  {}

  lemma DivMod(a: int, m: int)
    requires m > 0
    ensures a == (a / m) * m + a % m
  {}

  lemma ModUnique(t: int, q: int, rem: int, m: int)
    requires m > 0 && 0 <= rem < m && t == q * m + rem
    ensures t % m == rem && t / m == q
  {
    var d := t / m - q;
    assert d * m == rem - t % m;
    if d > 0 { MulMono(1, d, m); } else if d < 0 { MulMono(d, -1, m); }
  }

  lemma ModShift(t: int, j: int, m: int)
    requires m > 0
    ensures (t + j * m) % m == t % m
  {
    var q, rem := t / m, t % m;
    assert t + j * m == (q + j) * m + rem;
    ModUnique(t + j * m, q + j, rem, m);
  }
}
