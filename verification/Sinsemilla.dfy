/**
 SinsemillaHashToPoint and its commitment (ledger_zcash_crypto/src/sinsemilla.rs),
 section 5.4.1.9 of the Zcash protocol specification, over an abstract group and an
 arbitrary table S.
 */
module Sinsemilla {
  import opened Outcomes
  import opened Bytes
  import opened PallasGroup

  const K: nat := 10

  // ---------------------------------------------------------------- message pieces

  // lebs2ip_k: the fold over the enumerated bits.
  function Lebs2ipFrom(bits: seq<bool>, i: nat, acc: nat): nat
    requires i <= |bits|
    decreases |bits| - i
  {
    if i == |bits| then acc else Lebs2ipFrom(bits, i + 1, acc + if bits[i] then Pow2(i) else 0)
  }

  function Lebs2ip(bits: seq<bool>): nat { Lebs2ipFrom(bits, 0, 0) }

  lemma {:induction false} FoldIsValue(bits: seq<bool>, i: nat, acc: nat)
    requires i <= |bits| && acc == BitsVal(bits[..i])
    ensures Lebs2ipFrom(bits, i, acc) == BitsVal(bits)
    decreases |bits| - i
  {
    if i == |bits| {
      assert bits[..i] == bits;
    } else {
      var b := [bits[i]];
      assert bits[..i + 1] == bits[..i] + b;
      BitsValConcat(bits[..i], b);
      assert BitsVal(b) == (if bits[i] then 1 else 0) by { assert b[1..] == []; }
      FoldIsValue(bits, i + 1, acc + if bits[i] then Pow2(i) else 0);
    }
  }

  // chunk_to_index: a piece of at most K bits, zero-padded to K.
  function ChunkToIndex(chunk: seq<bool>): nat
    requires |chunk| <= K
  {
    Lebs2ip(chunk + seq(K - |chunk|, _ => false))
  }

  lemma {:induction false} ZeroBits(n: nat)
    ensures BitsVal(seq(n, _ => false)) == 0
  {
    if n > 0 {
      ZeroBits(n - 1);
      assert seq(n, _ => false)[1..] == seq(n - 1, _ => false);
    }
  }

  lemma PaddingKeepsValue(chunk: seq<bool>, n: nat)
    ensures BitsVal(chunk + seq(n, _ => false)) == BitsVal(chunk)
  {
    BitsValConcat(chunk, seq(n, _ => false));
    ZeroBits(n);
  }

  lemma Pow2OfK()
    ensures Pow2(K) == 1024
  {
    Pow2Of8();
  }

  // The index is the little-endian value of the unpadded piece and fits the table.
  lemma ChunkIndexValue(chunk: seq<bool>)
    requires |chunk| <= K
    ensures ChunkToIndex(chunk) == BitsVal(chunk) < 1024
  {
    var padded := chunk + seq(K - |chunk|, _ => false);
    FoldIsValue(padded, 0, 0) by { assert padded[..0] == []; }
    PaddingKeepsValue(chunk, K - |chunk|);
    BitsValBound(padded);
    Pow2OfK();
  }

  function ChunkCount(len: nat): nat { (len + (K - 1)) / K }

  function Min(a: nat, b: nat): nat { if a < b then a else b }

  function Chunk(message: seq<bool>, i: nat): (c: seq<bool>)
    requires i < ChunkCount(|message|)
    ensures |c| <= K
  {
    message[i * K .. Min(i * K + K, |message|)]
  }

  // The table indices of a message, as little-endian values of its pieces.
  ghost function Pieces(message: seq<bool>): (m: seq<nat>)
    ensures |m| == ChunkCount(|message|)
  {
    seq(ChunkCount(|message|), i requires 0 <= i < ChunkCount(|message|) => BitsVal(Chunk(message, i)))
  }

  /**
   The pieces are the message ten bits at a time, the last one padded with zeros: bit k of
   piece i is bit 10 i + k of the message.
   */
  lemma PieceBits(message: seq<bool>, i: nat, k: nat)
    requires i < |Pieces(message)| && k < 10
    ensures |Pieces(message)| == (|message| + 9) / 10
    ensures BitWorth(Pieces(message)[i], Pow2(k))
         == if 10 * i + k < |message| && message[10 * i + k] then 1 else 0
  {
    var chunk := Chunk(message, i);
    if k < |chunk| {
      BitOfVal(chunk, k);
    } else {
      var padding := seq(10 - |chunk|, _ => false);
      PaddingKeepsValue(chunk, 10 - |chunk|);
      BitOfVal(chunk + padding, k);
    }
  }

  // Messages of one length have the same pieces only when they are equal.
  lemma PiecesInjective(a: seq<bool>, b: seq<bool>)
    requires |a| == |b| && Pieces(a) == Pieces(b)
    ensures a == b
  {
    forall k | 0 <= k < |a| ensures a[k] == b[k] {
      var i := k / K;
      assert Pieces(a)[i] == Pieces(b)[i];
      BitsValInjective(Chunk(a, i), Chunk(b, i));
      assert a[k] == Chunk(a, i)[k - i * K] && b[k] == Chunk(b, i)[k - i * K];
    }
  }

  // ---------------------------------------------------------------- hash to point

  // The cases the formulas of incomplete addition do not cover: an operand or the sum is
  // the identity, or the operands are equal.
  ghost predicate Exceptional<E(!new)>(g: Group<E>, a: E, b: E) {
    a == g.zero || b == g.zero || a == b || g.add(a, b) == g.zero
  }

  // pallas_incomplete_add.
  function IncompleteAdd<E(==, !new)>(g: Group<E>, a: E, b: E): (r: Option<E>)
    requires g.Abelian()
    ensures r.None? <==> Exceptional(g, a, b)
    ensures r.Some? ==> r.value == g.add(a, b)
  {
    g.OppositeSum(a, b);
    if a == g.zero || b == g.zero then None
    else if a == b || a == g.neg(b) then None
    else Some(g.add(a, b))
  }

  // sum of 2^(n-1-i) S(m_i)
  ghost function WeightedSum<E(!new)>(g: Group<E>, s: nat -> E, m: seq<nat>): E {
    if m == [] then g.zero
    else g.add(g.mul(Pow2(|m| - 1), s(m[0])), WeightedSum(g, s, m[1..]))
  }

  // 2^n Q + sum of 2^(n-1-i) S(m_i)
  ghost function HashPoint<E(!new)>(g: Group<E>, q: E, s: nat -> E, m: seq<nat>): E {
    g.add(g.mul(Pow2(|m|), q), WeightedSum(g, s, m))
  }

  // One of the two incomplete additions of step i is exceptional: (A + S) and
  // (A + S) + A, where A is the hash of the first i pieces.
  ghost predicate StepExceptional<E(!new)>(g: Group<E>, q: E, s: nat -> E, m: seq<nat>, i: nat)
    requires i < |m|
  {
    var a := HashPoint(g, q, s, m[..i]);
    Exceptional(g, a, s(m[i])) || Exceptional(g, g.add(a, s(m[i])), a)
  }

  ghost predicate MeetsException<E(!new)>(g: Group<E>, q: E, s: nat -> E, m: seq<nat>) {
    exists i :: 0 <= i < |m| && StepExceptional(g, q, s, m, i)
  }

  lemma {:induction false} WeightedSumSnoc<E(!new)>(g: Group<E>, s: nat -> E, m: seq<nat>, x: nat)
    requires g.Abelian()
    ensures WeightedSum(g, s, m + [x])
         == g.add(g.add(WeightedSum(g, s, m), WeightedSum(g, s, m)), s(x))
  {
    if m == [] {
      assert (m + [x])[1..] == [];
      g.MulOne(s(x));
      assert g.Unit(g.zero) && g.Comm(g.zero, s(x));
    } else {
      var t, w := m[1..], Pow2(|m| - 1);
      var a, b := g.mul(w, s(m[0])), WeightedSum(g, s, t);
      assert (m + [x])[1..] == t + [x];
      WeightedSumSnoc(g, s, t, x);
      g.MulAdd(w, w, s(m[0]));
      assert Pow2(|m|) == w + w;
      g.Interchange(a, a, b, b);
      assert g.Assoc(g.add(a, a), g.add(b, b), s(x));
    }
  }

  // One round of the accumulator: (A + S) + A is the hash of one more piece.
  lemma HashPointSnoc<E(!new)>(g: Group<E>, q: E, s: nat -> E, m: seq<nat>, x: nat)
    requires g.Abelian()
    ensures var a := HashPoint(g, q, s, m);
            g.add(g.add(a, s(x)), a) == HashPoint(g, q, s, m + [x])
  {
    var w, u, v := Pow2(|m|), g.mul(Pow2(|m|), q), WeightedSum(g, s, m);
    var a := g.add(u, v);
    WeightedSumSnoc(g, s, m, x);
    g.MulAdd(w, w, q);
    assert Pow2(|m| + 1) == w + w;
    g.Interchange(u, v, u, v);
    assert g.Assoc(a, s(x), a) && g.Comm(s(x), a) && g.Assoc(a, a, s(x));
    assert g.Assoc(g.add(u, u), g.add(v, v), s(x));
  }

  /**
   hash_to_point. A slice holds at most isize::MAX elements, so the saturating
   addition of the chunk count never saturates. The loop returns early on a failed
   addition; the last addition's failure is the result itself.
   */
  method HashToPoint<E(==, !new)>(g: Group<E>, q: E, s: nat -> E, message: seq<bool>) returns (r: Option<E>)
    requires g.Abelian() && |message| <= 0x7FFF_FFFF
    ensures r.None? <==> MeetsException(g, q, s, Pieces(message))
    ensures r.Some? ==> r.value == HashPoint(g, q, s, Pieces(message))
  {
    ghost var m := Pieces(message);
    var acc := Some(q);
    var chunks := Min(|message| + (K - 1), 0xFFFF_FFFF) / K;
    assert m[..0] == [];
    EmptyHash(g, q, s);
    for chunkIndex := 0 to chunks
      invariant acc.Some? ==> acc.value == HashPoint(g, q, s, m[..chunkIndex])
      invariant acc.None? <==> exists i :: 0 <= i < chunkIndex && StepExceptional(g, q, s, m, i)
    {
      if acc.None? {
        return None;
      }
      var chunk := Chunk(message, chunkIndex);
      ChunkIndexValue(chunk);
      assert m[chunkIndex] == ChunkToIndex(chunk);
      assert m[..chunkIndex + 1] == m[..chunkIndex] + [m[chunkIndex]];
      HashPointSnoc(g, q, s, m[..chunkIndex], m[chunkIndex]);
      var step := IncompleteAdd(g, acc.value, s(ChunkToIndex(chunk)));
      if step.None? {
        assert StepExceptional(g, q, s, m, chunkIndex);
        return None;
      }
      acc := IncompleteAdd(g, step.value, acc.value);
      assert acc.None? <==> StepExceptional(g, q, s, m, chunkIndex);
    }
    assert m[..chunks] == m;
    r := acc;
  }

  lemma EmptyHash<E(!new)>(g: Group<E>, q: E, s: nat -> E)
    requires g.Abelian()
    ensures HashPoint(g, q, s, []) == q
  {
    g.MulOne(q);
    assert g.Unit(q);
  }

  // ---------------------------------------------------------------- commitment

  datatype Domain = NoteCommit | CommitIvk | Unknown
  datatype Error = UnsupportedSinsemillaDomain

  datatype Generators<E> = Generators(q: E, r: E)

  // sinsemilla_commit: the hash of the domain's Q plus [rcm] R of the same domain.
  method SinsemillaCommit<E(==, !new)>(g: Group<E>, s: nat -> E, note: Generators<E>, ivk: Generators<E>,
                                       domain: Domain, message: seq<bool>, rcm: nat)
    returns (r: Result<Option<E>, Error>)
    requires g.Abelian() && |message| <= 0x7FFF_FFFF
    ensures r.Err? <==> domain == Unknown
    ensures r.Ok? ==>
      var gen := if domain == NoteCommit then note else ivk;
      var m := Pieces(message);
      && (r.value.None? <==> MeetsException(g, gen.q, s, m))
      && (r.value.Some? ==> r.value.value == g.add(HashPoint(g, gen.q, s, m), g.mul(rcm, gen.r)))
  {
    var gen;
    match domain {
      case NoteCommit => gen := note;
      case CommitIvk => gen := ivk;
      case Unknown => return Err(UnsupportedSinsemillaDomain);
    }
    var hash := HashToPoint(g, gen.q, s, message);
    if hash.None? {
      return Ok(None);
    }
    r := Ok(Some(g.add(hash.value, g.mul(rcm, gen.r))));
  }
}
