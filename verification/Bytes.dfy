/**
 Little-endian bytes and bits and the integers they stand for.
 */
module Bytes {
  import opened Residues
  import opened Words

  type Bytes32 = b: seq<u8> | |b| == 32 witness Zeros(32)

  function Zeros(n: nat): (b: seq<u8>)
    ensures |b| == n && AllZero(b)
  {
    if n == 0 then [] else [0] + Zeros(n - 1)
  }

  predicate AllZero(b: seq<u8>) { forall i :: 0 <= i < |b| ==> b[i] == 0 }

  // Concatenations split at the same place have equal parts.
  lemma SplitAt<T>(a: seq<T>, b: seq<T>, c: seq<T>, d: seq<T>)
    requires a + b == c + d && |a| == |c|
    ensures a == c && b == d
  {
    assert a == (a + b)[..|a|] && c == (c + d)[..|a|];
    assert b == (a + b)[|a|..] && d == (c + d)[|a|..];
  }

  // ---------------------------------------------------------------- bytes

  function BytesVal(b: seq<u8>): nat {
    if b == [] then 0 else b[0] + 256 * BytesVal(b[1..])
  }

  function Pow256(k: nat): (p: nat)
    ensures p > 0
  {
    if k == 0 then 1 else 256 * Pow256(k - 1)
  }

  lemma {:induction false} BytesValBound(b: seq<u8>)
    ensures BytesVal(b) < Pow256(|b|)
  {
    if b != [] { BytesValBound(b[1..]); }
  }

  lemma Scale(c: int, lo: int, p: int, v: int)
    ensures c * (lo + p * v) == c * lo + (c * p) * v
  {}

  lemma {:induction false} BytesValSplit(b: seq<u8>, k: nat)
    requires k <= |b|
    ensures BytesVal(b) == BytesVal(b[..k]) + Pow256(k) * BytesVal(b[k..])
  {
    if k > 0 {
      BytesValSplit(b[1..], k - 1);
      assert b[..k][1..] == b[1..][..k - 1] && b[1..][k - 1..] == b[k..];
      Scale(256, BytesVal(b[1..][..k - 1]), Pow256(k - 1), BytesVal(b[k..]));
    } else {
      assert b[0..] == b;
    }
  }

  // A byte string back to front.
  function Reverse(b: seq<u8>): (r: seq<u8>)
    ensures |r| == |b|
  {
    if b == [] then [] else Reverse(b[1..]) + [b[0]]
  }

  lemma {:induction false} ReverseAt(b: seq<u8>, i: nat)
    requires i < |b|
    ensures Reverse(b)[i] == b[|b| - 1 - i]
  {
    if i < |b| - 1 { ReverseAt(b[1..], i); }
  }

  lemma ReverseTwice(b: seq<u8>)
    ensures Reverse(Reverse(b)) == b
  {
    forall i | 0 <= i < |b| ensures Reverse(Reverse(b))[i] == b[i] {
      ReverseAt(Reverse(b), i);
      ReverseAt(b, |b| - 1 - i);
    }
  }

  // The integer a big-endian byte string stands for.
  function BeVal(b: seq<u8>): nat {
    if b == [] then 0 else 256 * BeVal(b[..|b| - 1]) + b[|b| - 1]
  }

  lemma {:induction false} BeIsReversed(b: seq<u8>)
    ensures BeVal(b) == BytesVal(Reverse(b))
  {
    if b != [] {
      var n := |b| - 1;
      BeIsReversed(b[..n]);
      forall i | 0 <= i < n ensures Reverse(b)[1..][i] == Reverse(b[..n])[i] {
        ReverseAt(b, i + 1);
        ReverseAt(b[..n], i);
      }
      ReverseAt(b, 0);
      assert Reverse(b)[1..] == Reverse(b[..n]);
    }
  }

  // reverse_copy.
  method ReverseCopy(src: seq<u8>) returns (r: seq<u8>)
    ensures r == Reverse(src)
  {
    var dst := new u8[|src|](_ => 0);
    var i := 0;
    while i < |src|
      invariant i <= |src|
      invariant forall k :: 0 <= k < i ==> dst[k] == src[|src| - 1 - k]
    {
      dst[i] := src[|src| - 1 - i];
      i := i + 1;
    }
    forall k | 0 <= k < |src| ensures dst[k] == Reverse(src)[k] {
      ReverseAt(src, k);
    }
    r := dst[..];
  }

  // The k-byte little-endian encoding of n.
  function ToBytes(n: nat, k: nat): (b: seq<u8>)
    ensures |b| == k
  {
    if k == 0 then [] else [n % 256] + ToBytes(n / 256, k - 1)
  }

  lemma {:induction false} ToBytesVal(n: nat, k: nat)
    requires n < Pow256(k)
    ensures BytesVal(ToBytes(n, k)) == n
  {
    if k > 0 {
      assert n / 256 < Pow256(k - 1);
      ToBytesVal(n / 256, k - 1);
      assert ToBytes(n, k)[1..] == ToBytes(n / 256, k - 1);
    }
  }

  lemma {:induction false} BytesValInjective(a: seq<u8>, b: seq<u8>)
    requires |a| == |b| && BytesVal(a) == BytesVal(b)
    ensures a == b
  {
    if a != [] {
      assert a[0] == b[0] && BytesVal(a[1..]) == BytesVal(b[1..]);
      BytesValInjective(a[1..], b[1..]);
      assert a == [a[0]] + a[1..] && b == [b[0]] + b[1..];
    }
  }

  lemma Pow256Of32()
    ensures Pow256(32) == 0x1_0000000000000000_0000000000000000_0000000000000000_0000000000000000
  {
    assert Pow256(4) == 0x1_0000_0000;
    assert Pow256(8) == 0x1_0000_0000_0000_0000;
    assert Pow256(12) == 0x1_0000_0000_0000_0000_0000_0000;
    assert Pow256(16) == 0x1_0000_0000_0000_0000_0000_0000_0000_0000;
    assert Pow256(20) == 0x1_0000_0000_0000_0000_0000_0000_0000_0000_0000_0000;
    assert Pow256(24) == 0x1_0000_0000_0000_0000_0000_0000_0000_0000_0000_0000_0000_0000;
    assert Pow256(28) == 0x1_0000_0000_0000_0000_0000_0000_0000_0000_0000_0000_0000_0000_0000_0000;
  }

  // ---------------------------------------------------------------- bits

  function Pow2(k: nat): (p: nat)
    ensures p > 0
  {
    if k == 0 then 1 else 2 * Pow2(k - 1)
  }

  // The integer a little-endian bit string stands for.
  function BitsVal(bits: seq<bool>): nat {
    if bits == [] then 0 else (if bits[0] then 1 else 0) + 2 * BitsVal(bits[1..])
  }

  lemma {:induction false} BitsValBound(bits: seq<bool>)
    ensures BitsVal(bits) < Pow2(|bits|)
  {
    if bits != [] { BitsValBound(bits[1..]); }
  }

  lemma {:induction false} BitsValConcat(a: seq<bool>, b: seq<bool>)
    ensures BitsVal(a + b) == BitsVal(a) + Pow2(|a|) * BitsVal(b)
  {
    if a == [] {
      assert a + b == b;
    } else {
      BitsValConcat(a[1..], b);
      assert (a + b)[1..] == a[1..] + b;
      Scale(2, BitsVal(a[1..]), Pow2(|a| - 1), BitsVal(b));
    }
  }

  lemma {:induction false} BitsValInjective(a: seq<bool>, b: seq<bool>)
    requires |a| == |b| && BitsVal(a) == BitsVal(b)
    ensures a == b
  {
    if a != [] {
      BitsValInjective(a[1..], b[1..]);
      assert a == [a[0]] + a[1..] && b == [b[0]] + b[1..];
    }
  }

  // The bit of an integer worth p, a power of two.
  function BitWorth(v: nat, p: nat): nat
    requires p > 0
  {
    (v / p) % 2
  }

  // Bit k of the integer is the k-th bit of the string.
  lemma {:induction false} BitOfVal(bits: seq<bool>, k: nat)
    requires k < |bits|
    ensures BitWorth(BitsVal(bits), Pow2(k)) == if bits[k] then 1 else 0
  {
    var low := if bits[0] then 1 else 0;
    if k > 0 {
      BitOfVal(bits[1..], k - 1);
      NextBit(low, BitsVal(bits[1..]), Pow2(k - 1));
    } else {
      FirstBit(low, BitsVal(bits[1..]));
    }
  }

  lemma FirstBit(low: nat, v: nat)
    requires low < 2
    ensures BitWorth(low + 2 * v, 1) == low
  {}

  lemma NextBit(low: nat, v: nat, p: nat)
    requires low < 2 && p > 0
    ensures BitWorth(low + 2 * v, 2 * p) == BitWorth(v, p)
  {
    HalveThenDivide(low, v, p);
  }

  lemma HalveThenDivide(low: nat, v: nat, p: nat)
    requires low < 2 && p > 0
    ensures (low + 2 * v) / (2 * p) == v / p
  {
    var q, r := v / p, v % p;
    DivMod(v, p);
    Doubled(q, p);
    ModUnique(low + 2 * v, q, low + 2 * r, 2 * p);
  }

  lemma Doubled(q: int, p: int)
    ensures q * (2 * p) == 2 * (q * p)
  {}

  // `(bytes[i / 8] >> (i % 8)) & 1`.
  predicate BitAt(b: seq<u8>, i: nat)
    requires i < 8 * |b|
  {
    (b[i / 8] / Pow2(i % 8)) % 2 == 1
  }

  // The first n bits of a byte string.
  function LeBits(b: seq<u8>, n: nat): (r: seq<bool>)
    requires n <= 8 * |b|
    ensures |r| == n
  {
    seq(n, i requires 0 <= i < n => BitAt(b, i))
  }

  // The low n bits of x, produced by halving.
  function BitsOf(x: nat, n: nat): (r: seq<bool>)
    ensures |r| == n
  {
    if n == 0 then [] else [x % 2 == 1] + BitsOf(x / 2, n - 1)
  }

  lemma {:induction false} BitsOfVal(x: nat, n: nat)
    requires x < Pow2(n)
    ensures BitsVal(BitsOf(x, n)) == x
  {
    if n > 0 {
      BitsOfVal(x / 2, n - 1);
      assert BitsOf(x, n)[1..] == BitsOf(x / 2, n - 1);
    }
  }

  lemma {:induction false} BitsOfShift(x: nat, n: nat, i: nat)
    requires i < n
    ensures BitsOf(x, n)[i] == ((x / Pow2(i)) % 2 == 1)
  {
    if i > 0 {
      BitsOfShift(x / 2, n - 1, i - 1);
      DivHalf(x, Pow2(i - 1));
    }
  }

  lemma DivHalf(x: nat, p: nat)
    requires p > 0
    ensures (x / 2) / p == x / (2 * p)
  {
    var h, e := x / 2, x % 2;
    var s, t := h / p, h % p;
    DivMod(h, p);
    HalfIdentity(x, h, e, s, t, p);
    ModUnique(x, s, 2 * t + e, 2 * p);
  }

  lemma HalfIdentity(x: int, h: int, e: int, s: int, t: int, p: int)
    requires x == 2 * h + e && h == s * p + t
    ensures x == s * (2 * p) + (2 * t + e)
  {}

  lemma ByteBits(x: u8)
    ensures BitsVal(LeBits([x], 8)) == x
  {
    Pow2Of8();
    BitsOfVal(x, 8);
    forall i | 0 <= i < 8 ensures LeBits([x], 8)[i] == BitsOf(x, 8)[i] {
      BitsOfShift(x, 8, i);
    }
    assert LeBits([x], 8) == BitsOf(x, 8);
  }

  lemma Pow2Of8()
    ensures Pow2(8) == 256
  {
    assert Pow2(4) == 16;
  }

  // Writing bytes out as bits keeps their value.
  lemma {:induction false} LeBitsVal(b: seq<u8>)
    ensures BitsVal(LeBits(b, 8 * |b|)) == BytesVal(b)
  {
    if b != [] {
      var head, tail := LeBits([b[0]], 8), LeBits(b[1..], 8 * |b[1..]|);
      LeBitsVal(b[1..]);
      ByteBits(b[0]);
      Pow2Of8();
      BitsValConcat(head, tail);
      assert LeBits(b, 8 * |b|) == head + tail by {
        forall i | 8 <= i < 8 * |b| ensures BitAt(b, i) == tail[i - 8] {
          assert (i - 8) / 8 == i / 8 - 1 && (i - 8) % 8 == i % 8;
        }
      }
    }
  }

  lemma LeBitsPrefix(b: seq<u8>, n: nat, m: nat)
    requires n <= m <= 8 * |b|
    ensures LeBits(b, m)[..n] == LeBits(b, n)
  {}

  // Truncating the bits of a value below 2^n to n bits loses nothing.
  lemma LeBitsTruncated(b: seq<u8>, n: nat)
    requires n <= 8 * |b| && BytesVal(b) < Pow2(n)
    ensures BitsVal(LeBits(b, n)) == BytesVal(b)
  {
    var all := LeBits(b, 8 * |b|);
    LeBitsVal(b);
    LeBitsPrefix(b, n, 8 * |b|);
    HighBitsZero(all, n);
  }

  lemma HighBitsZero(all: seq<bool>, n: nat)
    requires n <= |all| && BitsVal(all) < Pow2(n)
    ensures BitsVal(all[..n]) == BitsVal(all)
  {
    assert all == all[..n] + all[n..];
    BitsValConcat(all[..n], all[n..]);
    NoHighPart(BitsVal(all), BitsVal(all[..n]), Pow2(n), BitsVal(all[n..]));
  }

  lemma NoHighPart(v: nat, lo: nat, p: nat, hi: nat)
    requires v == lo + p * hi && v < p
    ensures v == lo
  {
    if hi > 0 { MulMono(1, hi, p); }
  }
}
