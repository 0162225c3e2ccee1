/** trees.c gen_codes and deflate_p.h bi_reverse: canonical code values from code lengths. */
module GenCodes {
  import opened Arith
  import opened Bits
  import opened Counting
  import opened Canonical

  /** A tree element. As in the C union, fc holds a frequency and later a code, and dl holds the index of the father and
      later a code length. */
  datatype CtData = CtData(fc: nat, dl: nat)

  /** The code lengths of the first n elements. */
  function Lengths(tree: seq<CtData>, n: nat): (lens: seq<nat>)
    requires n <= |tree|
    ensures |lens| == n
    ensures forall i :: 0 <= i < n ==> lens[i] == tree[i].dl
  {
    seq(n, i requires 0 <= i < n => tree[i].dl)
  }

  /** zng_bitreverse16: bit i of the result is bit 15-i of v. */
  function BitReverse16(v: nat): (r: nat)
    ensures r < Pow2(16)
  {
    FromMsbBound(ToBits(v, 16));
    FromMsb(ToBits(v, 16))
  }

  function BiReverse(code: nat, len: nat): (r: nat)
    requires 1 <= len <= 15
  {
    ShiftRight(BitReverse16(code), 16 - len)
  }

  lemma {:induction false} MsbOfLsb(v: nat, n: nat)
    ensures FromMsb(ToBits(v, n)) == FromBits(ToMsb(v, n))
  {
    hide Pow2, FromMsb, FromBits;
    if n != 0 {
      MsbOfLsb(v / 2, n - 1);
      var b := [v % 2 == 1];
      OneBit(b);
      FromMsbConcat(b, ToBits(v / 2, n - 1));
      FromBitsConcat(ToMsb(v / 2, n - 1), b);
    } else {
      NoBits();
    }
  }

  lemma NoBits()
    ensures FromMsb([]) == FromBits([]) == 0
  {
  }

  lemma OneBit(b: Bits)
    requires |b| == 1
    ensures FromMsb(b) == FromBits(b) == Bit(b[0])
  {
  }

  lemma {:induction false} ToBitsPadded(v: nat, n: nat, m: nat)
    requires v < Pow2(n) && n <= m
    ensures ToBits(v, m) == ToBits(v, n) + Zeros(m - n)
  {
    if n != 0 {
      ToBitsPadded(v / 2, n - 1, m - 1);
    } else if m != 0 {
      ToBitsPadded(0, 0, m - 1);
      assert [false] + Zeros(m - 1) == Zeros(m);
    }
  }

  lemma {:induction false} DropZeros(b: Bits, n: nat)
    ensures ShiftRight(FromMsb(b + Zeros(n)), n) == FromMsb(b)
  {
    if n == 0 {
      assert b + Zeros(0) == b;
    } else {
      assert (b + Zeros(n))[..|b| + n - 1] == b + Zeros(n - 1);
      DropZeros(b, n - 1);
    }
  }

  /** bi_reverse gives the code with its first transmitted bit lowest. */
  lemma BiReverseIsMsb(code: nat, len: nat)
    requires 1 <= len <= 15 && code < Pow2(len)
    ensures BiReverse(code, len) == FromBits(ToMsb(code, len))
  {
    ToBitsPadded(code, len, 16);
    DropZeros(ToBits(code, len), 16 - len);
    MsbOfLsb(code, len);
  }

  ghost predicate HasCode(e: CtData, lens: seq<nat>, n: nat)
    requires n < |lens|
  {
    e.dl == lens[n] && (Coded(lens, n) ==> e.fc == FromBits(Codeword(lens, n)))
  }

  /** What gen_codes must leave in the tree: every coded symbol has the canonical code of its lengths, stored with the
      first transmitted bit lowest. */
  ghost predicate HasCodes(tree: seq<CtData>, lens: seq<nat>)
  {
    |lens| <= |tree| && forall n :: 0 <= n < |lens| ==> HasCode(tree[n], lens, n)
  }

  lemma SumBound(f: nat, c: nat, p: nat, z: nat)
    requires f * z + c * z <= p * z && z > 0
    ensures f + c <= p
  {
    Distrib(f, c, z);
    if f + c > p { MulLt(p, f + c, z); }
  }

  lemma FirstBound(lens: seq<nat>, l: nat)
    requires Kraft(lens) && 1 <= l <= MAX_BITS
    ensures First(lens, l) <= Pow2(l) <= Pow2(MAX_BITS)
    ensures First(lens, l) + Count(lens, l) <= Pow2(l)
  {
    FirstBelow(lens, l);
    BelowMono(lens, l + 1, MAX_BITS + 1);
    Pow2Mono(l, MAX_BITS);
    hide Count, First, Pow2;
    SumBound(First(lens, l), Count(lens, l), Pow2(l), Size(l));
  }

  lemma NextCodeStep(lens: seq<nat>, l: nat)
    requires Kraft(lens) && 1 <= l <= MAX_BITS
    ensures (First(lens, l - 1) + if l == 1 then 0 else Count(lens, l - 1)) * 2 % 0x1_0000 == First(lens, l)
  {
    FirstBound(lens, l);
    Pow2Table();
  }

  /** The first loop: the smallest code of each length. The running code is a uint16_t; a set of lengths that meets the
      Kraft bound never overflows it. */
  method NextCodes(blCount: seq<nat>, ghost lens: seq<nat>) returns (nextCode: seq<nat>)
    requires Kraft(lens) && |blCount| == MAX_BITS + 1 && blCount[0] == 0
    requires forall l :: 1 <= l <= MAX_BITS ==> blCount[l] == Count(lens, l)
    ensures |nextCode| == MAX_BITS + 1
    ensures forall l :: 1 <= l <= MAX_BITS ==> nextCode[l] == First(lens, l)
  {
    nextCode := [0];
    var code := 0;
    var bits := 1;
    while bits <= MAX_BITS
      invariant 1 <= bits <= MAX_BITS + 1 && |nextCode| == bits
      invariant code == First(lens, bits - 1)
      invariant forall l :: 1 <= l < bits ==> nextCode[l] == First(lens, l)
    {
      NextCodeStep(lens, bits);
      code := (code + blCount[bits - 1]) * 2 % 0x1_0000;
      nextCode := nextCode + [code];
      bits := bits + 1;
    }
  }

  /** next_code after the codes of the first n symbols have been handed out. */
  ghost predicate Advanced(nextCode: seq<nat>, lens: seq<nat>, n: nat)
    requires n <= |lens|
  {
    |nextCode| == MAX_BITS + 1 &&
    forall l :: 1 <= l <= MAX_BITS ==> nextCode[l] == First(lens, l) + Count(lens[..n], l)
  }

  lemma Advance(nextCode: seq<nat>, lens: seq<nat>, n: nat)
    requires n < |lens| && Bounded(lens) && Advanced(nextCode, lens, n)
    ensures Coded(lens, n) ==> nextCode[lens[n]] == CodeVal(lens, n)
    ensures Coded(lens, n) ==> Advanced(nextCode[lens[n] := nextCode[lens[n]] + 1], lens, n + 1)
    ensures !Coded(lens, n) ==> Advanced(nextCode, lens, n + 1)
  {
    forall l | 1 <= l <= MAX_BITS
      ensures Count(lens[..n + 1], l) == Count(lens[..n], l) + (if lens[n] == l then 1 else 0)
    {
      CountStep(lens, n, l);
    }
  }

  lemma CodeFits(lens: seq<nat>, n: nat)
    requires Kraft(lens) && Coded(lens, n)
    ensures 1 <= lens[n] <= MAX_BITS
    ensures (CodeVal(lens, n) + 1) % 0x1_0000 == CodeVal(lens, n) + 1
    ensures BiReverse(CodeVal(lens, n), lens[n]) == FromBits(Codeword(lens, n))
  {
    CodeValBound(lens, n);
    BiReverseIsMsb(CodeVal(lens, n), lens[n]);
    Pow2Mono(lens[n], MAX_BITS);
    Pow2Table();
  }

  method GenCodes(tree: array<CtData>, maxCode: int, blCount: seq<nat>)
    requires -1 <= maxCode < tree.Length
    requires Kraft(Lengths(tree[..], maxCode + 1))
    requires |blCount| == MAX_BITS + 1 && blCount[0] == 0
    requires forall l :: 1 <= l <= MAX_BITS ==> blCount[l] == Count(Lengths(tree[..], maxCode + 1), l)
    modifies tree
    ensures HasCodes(tree[..], old(Lengths(tree[..], maxCode + 1)))
    ensures forall n :: 0 <= n < tree.Length && (n > maxCode || tree[n].dl == 0) ==> tree[n] == old(tree[n])
  {
    hide Codeword, BiReverse, First, Count, FromBits;
    ghost var lens := Lengths(tree[..], maxCode + 1);
    var nextCode := NextCodes(blCount, lens);
    var n := 0;
    while n <= maxCode
      invariant 0 <= n <= maxCode + 1
      invariant Advanced(nextCode, lens, n)
      invariant forall i :: 0 <= i < n ==> HasCode(tree[i], lens, i)
      invariant forall i :: 0 <= i < tree.Length && (i >= n || tree[i].dl == 0) ==> tree[i] == old(tree[i])
    {
      var len := tree[n].dl;
      assert len == lens[n];
      Advance(nextCode, lens, n);
      if len != 0 {
        CodeFits(lens, n);
        tree[n] := tree[n].(fc := BiReverse(nextCode[len], len));
        assert HasCode(tree[n], lens, n);
        nextCode := nextCode[len := (nextCode[len] + 1) % 0x1_0000];
      }
      n := n + 1;
    }
  }
}
