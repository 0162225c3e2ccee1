/** crc32_braid_comb_p.h x2nmodp uses x2n_table[k & 31] for every k: x^(2^32) is x again modulo the CRC polynomial. */
module CrcPeriod {
  import opened Bits
  import opened CrcPoly
  import opened Crc32

  // ---- registers as 32-bit words ----

  const POW: seq<bv32> := [
    0x00000001, 0x00000002, 0x00000004, 0x00000008, 0x00000010, 0x00000020, 0x00000040, 0x00000080,
    0x00000100, 0x00000200, 0x00000400, 0x00000800, 0x00001000, 0x00002000, 0x00004000, 0x00008000,
    0x00010000, 0x00020000, 0x00040000, 0x00080000, 0x00100000, 0x00200000, 0x00400000, 0x00800000,
    0x01000000, 0x02000000, 0x04000000, 0x08000000, 0x10000000, 0x20000000, 0x40000000, 0x80000000]

  /** The i-th bit. */
  function Mask(i: nat): (m: bv32)
    requires i < 32
  {
    POW[i]
  }

  predicate OneBit(m: bv32) { m != 0 && m & (m - 1) == 0 }

  lemma PowBits(i: nat)
    requires i < 32
    ensures OneBit(Mask(i)) && (i < 31 ==> Mask(i + 1) == Mask(i) << 1 && Mask(i) != 0x80000000)
  {
    if i < 8 { PowBits0(i); } else if i < 16 { PowBits1(i); } else if i < 24 { PowBits2(i); } else { PowBits3(i); }
  }

  lemma PowBits0(i: nat)
    requires 0 <= i < 8
    ensures OneBit(Mask(i)) && (i < 31 ==> Mask(i + 1) == Mask(i) << 1 && Mask(i) != 0x80000000)
  {
  }

  lemma PowBits1(i: nat)
    requires 8 <= i < 16
    ensures OneBit(Mask(i)) && (i < 31 ==> Mask(i + 1) == Mask(i) << 1 && Mask(i) != 0x80000000)
  {
  }

  lemma PowBits2(i: nat)
    requires 16 <= i < 24
    ensures OneBit(Mask(i)) && (i < 31 ==> Mask(i + 1) == Mask(i) << 1 && Mask(i) != 0x80000000)
  {
  }

  lemma PowBits3(i: nat)
    requires 24 <= i < 32
    ensures OneBit(Mask(i)) && (i < 31 ==> Mask(i + 1) == Mask(i) << 1 && Mask(i) != 0x80000000)
  {
  }

  /** The bits of a word. */
  function B(v: bv32): (r: Reg) { seq(32, i requires 0 <= i < 32 => v & Mask(i) != 0) }

  lemma BitXor(a: bv32, b: bv32, m: bv32)
    requires OneBit(m)
    ensures ((a ^ b) & m != 0) == ((a & m != 0) != (b & m != 0))
  {
  }

  lemma BitShift(v: bv32, m: bv32)
    requires OneBit(m)
    ensures m != 0x80000000 ==> ((v >> 1) & m != 0) == (v & (m << 1) != 0)
    ensures (v >> 1) & 0x80000000 == 0
  {
  }

  function XorWord(a: bv32, b: bv32): (r: bv32) { a ^ b }

  lemma XorB(a: bv32, b: bv32)
    ensures B(XorWord(a, b)) == Xor(B(a), B(b))
  {
    hide Mask, OneBit;
    forall i | 0 <= i < 32
      ensures B(XorWord(a, b))[i] == (B(a)[i] != B(b)[i])
    {
      PowBits(i);
      BitXor(a, b, Mask(i));
    }
  }

  lemma TopMask()
    ensures Mask(31) == 0x80000000 && Mask(0) == 1
  {
  }

  function HalfWord(v: bv32): (r: bv32) { v >> 1 }

  lemma HalfBit(v: bv32, i: nat)
    requires i < 32
    ensures (HalfWord(v) & Mask(i) != 0) == if i < 31 then v & Mask(i + 1) != 0 else false
  {
    hide Mask, OneBit;
    TopMask();
    PowBits(i);
    BitShift(v, Mask(i));
  }

  lemma BitAt(v: bv32, i: nat)
    requires i < 32
    ensures B(v)[i] == (v & Mask(i) != 0)
  {
    hide Mask;
  }

  lemma HalfB(v: bv32)
    ensures B(HalfWord(v)) == Half(B(v))
  {
    hide Mask, HalfWord, B;
    forall i | 0 <= i < 32
      ensures B(HalfWord(v))[i] == Half(B(v))[i]
    {
      HalfBit(v, i);
      BitAt(HalfWord(v), i);
      if i < 31 { BitAt(v, i + 1); }
    }
  }

  lemma PolyB0(i: nat)
    requires 0 <= i < 8
    ensures (0xedb88320 as bv32 & Mask(i) != 0) == POLY[i]
  {
  }

  lemma PolyB1(i: nat)
    requires 8 <= i < 16
    ensures (0xedb88320 as bv32 & Mask(i) != 0) == POLY[i]
  {
  }

  lemma PolyB2(i: nat)
    requires 16 <= i < 24
    ensures (0xedb88320 as bv32 & Mask(i) != 0) == POLY[i]
  {
  }

  lemma PolyB3(i: nat)
    requires 24 <= i < 32
    ensures (0xedb88320 as bv32 & Mask(i) != 0) == POLY[i]
  {
  }

  lemma PolyB()
    ensures B(0xedb88320) == POLY
  {
    hide Mask, POLY;
    forall i | 0 <= i < 32
      ensures B(0xedb88320)[i] == POLY[i]
    {
      if i < 8 { PolyB0(i); } else if i < 16 { PolyB1(i); } else if i < 24 { PolyB2(i); } else { PolyB3(i); }
    }
  }

  /** Multiply by x. */
  function XWord(v: bv32): (r: bv32) { if v & 1 != 0 then (v >> 1) ^ 0xedb88320 else v >> 1 }

  lemma XWordIs(v: bv32)
    ensures XWord(v) == if v & 1 != 0 then XorWord(HalfWord(v), 0xedb88320) else HalfWord(v)
  {
  }

  lemma XB(v: bv32)
    ensures B(XWord(v)) == X(B(v))
  {
    hide B, Mask, POLY, Half, Xor, XorWord, HalfWord, XWord;
    XWordIs(v);
    TopMask();
    BitAt(v, 0);
    HalfB(v);
    PolyB();
    XorB(HalfWord(v), 0xedb88320);
  }

  // ---- squares ----

  /** The sum of the squares of the powers of a. */
  function SquareSum(a: Reg, n: nat, w: Reg): (r: Reg)
    requires n <= 32
    decreases n
  {
    if n == 0 then ZERO else Xor(If(a[n - 1], w), SquareSum(a, n - 1, X(X(w))))
  }

  /** Over GF(2) the mixed terms of a square cancel. */
  lemma {:induction false} SquareIs(a: Reg, n: nat, v: Reg)
    requires n <= 32
    ensures Mul(a, n, Mul(a, n, v)) == SquareSum(a, n, v)
    decreases n
  {
    hide X, Xor, If, ZERO;
    if n == 0 {
      assert Mul(a, 0, Mul(a, 0, v)) == ZERO;
    } else {
      var b, y := a[n - 1], Mul(a, n - 1, X(v));
      SquareIs(a, n - 1, X(X(v)));
      MulX(a, n - 1, X(v));
      XorX(If(b, v), y);
      XorIf(b, v, v);
      MulXor(a, n - 1, If(b, X(v)), X(y));
      MulIf(a, n - 1, b, X(v));
      SquareStep(b, v, y, SquareSum(a, n - 1, X(X(v))));
    }
  }

  lemma SquareStep(b: bool, v: Reg, y: Reg, z: Reg)
    ensures Xor(If(b, Xor(If(b, v), y)), Xor(If(b, y), z)) == Xor(If(b, v), z)
  {
  }

  lemma ProductSquare(a: Reg)
    ensures Product(a, a) == SquareSum(a, 32, ONE)
  {
    hide Mul, SquareSum;
    ProductOne(a);
    SquareIs(a, 32, ONE);
  }

  /** s added to t if the bit m of v is set. */
  function PlusIf(v: bv32, m: bv32, s: bv32, t: bv32): (r: bv32) { if v & m != 0 then XorWord(s, t) else t }

  /** One power more. */
  lemma SquareOn(v: bv32, n: nat, m: bv32, s: bv32, s': bv32, tail: bv32)
    requires n < 32 && Mask(n) == m && XWord(XWord(s)) == s' && SquareSum(B(v), n, B(s')) == B(tail)
    ensures SquareSum(B(v), n + 1, B(s)) == B(PlusIf(v, m, s, tail))
  {
    hide Mask, X, Xor, XWord, PlusIf;
    XB(s);
    XB(XWord(s));
    PlusIfB(v, n, s, tail);
  }

  lemma PlusIfB(v: bv32, n: nat, s: bv32, t: bv32)
    requires n < 32
    ensures B(PlusIf(v, Mask(n), s, t)) == Xor(If(B(v)[n], B(s)), B(t))
  {
    hide Mask, Xor, XorWord;
    XorB(s, t);
    XorZero(B(t));
  }

  // ---- the square of v, from the squares of the powers of x ----

  function Square0(v: bv32, tail: bv32): (r: bv32)
  {
    PlusIf(v, 0x00000080, 0xe1351b80,
    PlusIf(v, 0x00000040, 0x384d46e0,
    PlusIf(v, 0x00000020, 0x0e1351b8,
    PlusIf(v, 0x00000010, 0x0384d46e,
    PlusIf(v, 0x00000008, 0xed59b63b,
    PlusIf(v, 0x00000004, 0xa032af3e,
    PlusIf(v, 0x00000002, 0xc5b428ef,
    PlusIf(v, 0x00000001, 0xaa09c88b, tail))))))))
  }

  lemma SquarePart0(v: bv32, tail: bv32)
    requires SquareSum(B(v), 0, B(0xb1e6b092)) == B(tail)
    ensures SquareSum(B(v), 8, B(0xe1351b80)) == B(Square0(v, tail))
  {
    hide B, SquareSum, PlusIf, Mask;
    Masks0Low();
    Masks0High();
    SquareOn(v, 0, 0x00000001, 0xaa09c88b, 0xb1e6b092, tail);
    var t0 := PlusIf(v, 0x00000001, 0xaa09c88b, tail);
    SquareOn(v, 1, 0x00000002, 0xc5b428ef, 0xaa09c88b, t0);
    var t1 := PlusIf(v, 0x00000002, 0xc5b428ef, t0);
    SquareOn(v, 2, 0x00000004, 0xa032af3e, 0xc5b428ef, t1);
    var t2 := PlusIf(v, 0x00000004, 0xa032af3e, t1);
    SquareOn(v, 3, 0x00000008, 0xed59b63b, 0xa032af3e, t2);
    var t3 := PlusIf(v, 0x00000008, 0xed59b63b, t2);
    SquareOn(v, 4, 0x00000010, 0x0384d46e, 0xed59b63b, t3);
    var t4 := PlusIf(v, 0x00000010, 0x0384d46e, t3);
    SquareOn(v, 5, 0x00000020, 0x0e1351b8, 0x0384d46e, t4);
    var t5 := PlusIf(v, 0x00000020, 0x0e1351b8, t4);
    SquareOn(v, 6, 0x00000040, 0x384d46e0, 0x0e1351b8, t5);
    var t6 := PlusIf(v, 0x00000040, 0x384d46e0, t5);
    SquareOn(v, 7, 0x00000080, 0xe1351b80, 0x384d46e0, t6);
  }

  lemma Masks0Low()
    ensures Mask(0) == 0x00000001
    ensures Mask(1) == 0x00000002
    ensures Mask(2) == 0x00000004
    ensures Mask(3) == 0x00000008
  {
  }

  lemma Masks0High()
    ensures Mask(4) == 0x00000010
    ensures Mask(5) == 0x00000020
    ensures Mask(6) == 0x00000040
    ensures Mask(7) == 0x00000080
  {
  }

  function Square1(v: bv32, tail: bv32): (r: bv32)
  {
    PlusIf(v, 0x00008000, 0xedb88320,
    PlusIf(v, 0x00004000, 0x3b6e20c8,
    PlusIf(v, 0x00002000, 0x0edb8832,
    PlusIf(v, 0x00001000, 0xee0e612c,
    PlusIf(v, 0x00000800, 0x3b83984b,
    PlusIf(v, 0x00000400, 0x958424a2,
    PlusIf(v, 0x00000200, 0xc8d98a08,
    PlusIf(v, 0x00000100, 0x32366282, tail))))))))
  }

  lemma SquarePart1(v: bv32, tail: bv32)
    requires SquareSum(B(v), 8, B(0xe1351b80)) == B(tail)
    ensures SquareSum(B(v), 16, B(0xedb88320)) == B(Square1(v, tail))
  {
    hide B, SquareSum, PlusIf, Mask;
    Masks1Low();
    Masks1High();
    SquareOn(v, 8, 0x00000100, 0x32366282, 0xe1351b80, tail);
    var t0 := PlusIf(v, 0x00000100, 0x32366282, tail);
    SquareOn(v, 9, 0x00000200, 0xc8d98a08, 0x32366282, t0);
    var t1 := PlusIf(v, 0x00000200, 0xc8d98a08, t0);
    SquareOn(v, 10, 0x00000400, 0x958424a2, 0xc8d98a08, t1);
    var t2 := PlusIf(v, 0x00000400, 0x958424a2, t1);
    SquareOn(v, 11, 0x00000800, 0x3b83984b, 0x958424a2, t2);
    var t3 := PlusIf(v, 0x00000800, 0x3b83984b, t2);
    SquareOn(v, 12, 0x00001000, 0xee0e612c, 0x3b83984b, t3);
    var t4 := PlusIf(v, 0x00001000, 0xee0e612c, t3);
    SquareOn(v, 13, 0x00002000, 0x0edb8832, 0xee0e612c, t4);
    var t5 := PlusIf(v, 0x00002000, 0x0edb8832, t4);
    SquareOn(v, 14, 0x00004000, 0x3b6e20c8, 0x0edb8832, t5);
    var t6 := PlusIf(v, 0x00004000, 0x3b6e20c8, t5);
    SquareOn(v, 15, 0x00008000, 0xedb88320, 0x3b6e20c8, t6);
  }

  lemma Masks1Low()
    ensures Mask(8) == 0x00000100
    ensures Mask(9) == 0x00000200
    ensures Mask(10) == 0x00000400
    ensures Mask(11) == 0x00000800
  {
  }

  lemma Masks1High()
    ensures Mask(12) == 0x00001000
    ensures Mask(13) == 0x00002000
    ensures Mask(14) == 0x00004000
    ensures Mask(15) == 0x00008000
  {
  }

  function Square2(v: bv32, tail: bv32): (r: bv32)
  {
    PlusIf(v, 0x00800000, 0x00008000,
    PlusIf(v, 0x00400000, 0x00002000,
    PlusIf(v, 0x00200000, 0x00000800,
    PlusIf(v, 0x00100000, 0x00000200,
    PlusIf(v, 0x00080000, 0x00000080,
    PlusIf(v, 0x00040000, 0x00000020,
    PlusIf(v, 0x00020000, 0x00000008,
    PlusIf(v, 0x00010000, 0x00000002, tail))))))))
  }

  lemma SquarePart2(v: bv32, tail: bv32)
    requires SquareSum(B(v), 16, B(0xedb88320)) == B(tail)
    ensures SquareSum(B(v), 24, B(0x00008000)) == B(Square2(v, tail))
  {
    hide B, SquareSum, PlusIf, Mask;
    Masks2Low();
    Masks2High();
    SquareOn(v, 16, 0x00010000, 0x00000002, 0xedb88320, tail);
    var t0 := PlusIf(v, 0x00010000, 0x00000002, tail);
    SquareOn(v, 17, 0x00020000, 0x00000008, 0x00000002, t0);
    var t1 := PlusIf(v, 0x00020000, 0x00000008, t0);
    SquareOn(v, 18, 0x00040000, 0x00000020, 0x00000008, t1);
    var t2 := PlusIf(v, 0x00040000, 0x00000020, t1);
    SquareOn(v, 19, 0x00080000, 0x00000080, 0x00000020, t2);
    var t3 := PlusIf(v, 0x00080000, 0x00000080, t2);
    SquareOn(v, 20, 0x00100000, 0x00000200, 0x00000080, t3);
    var t4 := PlusIf(v, 0x00100000, 0x00000200, t3);
    SquareOn(v, 21, 0x00200000, 0x00000800, 0x00000200, t4);
    var t5 := PlusIf(v, 0x00200000, 0x00000800, t4);
    SquareOn(v, 22, 0x00400000, 0x00002000, 0x00000800, t5);
    var t6 := PlusIf(v, 0x00400000, 0x00002000, t5);
    SquareOn(v, 23, 0x00800000, 0x00008000, 0x00002000, t6);
  }

  lemma Masks2Low()
    ensures Mask(16) == 0x00010000
    ensures Mask(17) == 0x00020000
    ensures Mask(18) == 0x00040000
    ensures Mask(19) == 0x00080000
  {
  }

  lemma Masks2High()
    ensures Mask(20) == 0x00100000
    ensures Mask(21) == 0x00200000
    ensures Mask(22) == 0x00400000
    ensures Mask(23) == 0x00800000
  {
  }

  function Square3(v: bv32, tail: bv32): (r: bv32)
  {
    PlusIf(v, 0x80000000, 0x80000000,
    PlusIf(v, 0x40000000, 0x20000000,
    PlusIf(v, 0x20000000, 0x08000000,
    PlusIf(v, 0x10000000, 0x02000000,
    PlusIf(v, 0x08000000, 0x00800000,
    PlusIf(v, 0x04000000, 0x00200000,
    PlusIf(v, 0x02000000, 0x00080000,
    PlusIf(v, 0x01000000, 0x00020000, tail))))))))
  }

  lemma SquarePart3(v: bv32, tail: bv32)
    requires SquareSum(B(v), 24, B(0x00008000)) == B(tail)
    ensures SquareSum(B(v), 32, B(0x80000000)) == B(Square3(v, tail))
  {
    hide B, SquareSum, PlusIf, Mask;
    Masks3Low();
    Masks3High();
    SquareOn(v, 24, 0x01000000, 0x00020000, 0x00008000, tail);
    var t0 := PlusIf(v, 0x01000000, 0x00020000, tail);
    SquareOn(v, 25, 0x02000000, 0x00080000, 0x00020000, t0);
    var t1 := PlusIf(v, 0x02000000, 0x00080000, t0);
    SquareOn(v, 26, 0x04000000, 0x00200000, 0x00080000, t1);
    var t2 := PlusIf(v, 0x04000000, 0x00200000, t1);
    SquareOn(v, 27, 0x08000000, 0x00800000, 0x00200000, t2);
    var t3 := PlusIf(v, 0x08000000, 0x00800000, t2);
    SquareOn(v, 28, 0x10000000, 0x02000000, 0x00800000, t3);
    var t4 := PlusIf(v, 0x10000000, 0x02000000, t3);
    SquareOn(v, 29, 0x20000000, 0x08000000, 0x02000000, t4);
    var t5 := PlusIf(v, 0x20000000, 0x08000000, t4);
    SquareOn(v, 30, 0x40000000, 0x20000000, 0x08000000, t5);
    var t6 := PlusIf(v, 0x40000000, 0x20000000, t5);
    SquareOn(v, 31, 0x80000000, 0x80000000, 0x20000000, t6);
  }

  lemma Masks3Low()
    ensures Mask(24) == 0x01000000
    ensures Mask(25) == 0x02000000
    ensures Mask(26) == 0x04000000
    ensures Mask(27) == 0x08000000
  {
  }

  lemma Masks3High()
    ensures Mask(28) == 0x10000000
    ensures Mask(29) == 0x20000000
    ensures Mask(30) == 0x40000000
    ensures Mask(31) == 0x80000000
  {
  }

  function Square(v: bv32): (r: bv32) { Square3(v, Square2(v, Square1(v, Square0(v, 0)))) }

  lemma SquareB(v: bv32)
    ensures Product(B(v), B(v)) == B(Square(v))
  {
    hide B, SquareSum, Square0, Square1, Square2, Square3, Product;
    NothingB(v);
    SquarePart0(v, 0);
    SquarePart1(v, Square0(v, 0));
    SquarePart2(v, Square1(v, Square0(v, 0)));
    SquarePart3(v, Square2(v, Square1(v, Square0(v, 0))));
    OneB();
    ProductSquare(B(v));
  }

  lemma NothingB(v: bv32)
    ensures SquareSum(B(v), 0, B(0xb1e6b092)) == B(0)
  {
    hide Mask;
    assert B(0) == ZERO;
  }

  lemma OneB()
    ensures B(0x80000000) == ONE && B(0x40000000) == Unit(30)
  {
    hide Mask;
    forall i | 0 <= i < 32
      ensures B(0x80000000)[i] == (i == 31) && B(0x40000000)[i] == (i == 30)
    {
      TopTwo(i);
    }
  }

  lemma TopTwo(i: nat)
    requires i < 32
    ensures (0x80000000 as bv32 & Mask(i) != 0) == (i == 31) && (0x40000000 as bv32 & Mask(i) != 0) == (i == 30)
  {
  }

  // ---- x2n_table ----

  lemma NextSquare(k: nat, t: bv32, t': bv32)
    requires XTimes(Pow2(k), ONE) == B(t) && Square(t) == t'
    ensures XTimes(Pow2(k + 1), ONE) == B(t')
  {
    hide XTimes, B, Product, Square;
    SquareB(t);
    PowerProduct(Pow2(k), Pow2(k));
  }

  lemma Squares0()
    requires XTimes(Pow2(0), ONE) == B(0x40000000)
    ensures XTimes(Pow2(4), ONE) == B(0x00008000)
  {
    hide XTimes, B, Pow2;
    NextSquare(0, 0x40000000, 0x20000000);
    NextSquare(1, 0x20000000, 0x08000000);
    NextSquare(2, 0x08000000, 0x00800000);
    NextSquare(3, 0x00800000, 0x00008000);
  }

  lemma Squares1()
    requires XTimes(Pow2(4), ONE) == B(0x00008000)
    ensures XTimes(Pow2(8), ONE) == B(0xed627dae)
  {
    hide XTimes, B, Pow2;
    NextSquare(4, 0x00008000, 0xedb88320);
    NextSquare(5, 0xedb88320, 0xb1e6b092);
    NextSquare(6, 0xb1e6b092, 0xa06a2517);
    NextSquare(7, 0xa06a2517, 0xed627dae);
  }

  lemma Squares2()
    requires XTimes(Pow2(8), ONE) == B(0xed627dae)
    ensures XTimes(Pow2(12), ONE) == B(0x8e7ea170)
  {
    hide XTimes, B, Pow2;
    NextSquare(8, 0xed627dae, 0x88d14467);
    NextSquare(9, 0x88d14467, 0xd7bbfe6a);
    NextSquare(10, 0xd7bbfe6a, 0xec447f11);
    NextSquare(11, 0xec447f11, 0x8e7ea170);
  }

  lemma Squares3()
    requires XTimes(Pow2(12), ONE) == B(0x8e7ea170)
    ensures XTimes(Pow2(16), ONE) == B(0x83852d0f)
  {
    hide XTimes, B, Pow2;
    NextSquare(12, 0x8e7ea170, 0x6427800e);
    NextSquare(13, 0x6427800e, 0x4d47bae0);
    NextSquare(14, 0x4d47bae0, 0x09fe548f);
    NextSquare(15, 0x09fe548f, 0x83852d0f);
  }

  lemma Squares4()
    requires XTimes(Pow2(16), ONE) == B(0x83852d0f)
    ensures XTimes(Pow2(20), ONE) == B(0x9fec022a)
  {
    hide XTimes, B, Pow2;
    NextSquare(16, 0x83852d0f, 0x30362f1a);
    NextSquare(17, 0x30362f1a, 0x7b5a9cc3);
    NextSquare(18, 0x7b5a9cc3, 0x31fec169);
    NextSquare(19, 0x31fec169, 0x9fec022a);
  }

  lemma Squares5()
    requires XTimes(Pow2(20), ONE) == B(0x9fec022a)
    ensures XTimes(Pow2(24), ONE) == B(0xbad90e37)
  {
    hide XTimes, B, Pow2;
    NextSquare(20, 0x9fec022a, 0x6c8dedc4);
    NextSquare(21, 0x6c8dedc4, 0x15d6874d);
    NextSquare(22, 0x15d6874d, 0x5fde7a4e);
    NextSquare(23, 0x5fde7a4e, 0xbad90e37);
  }

  lemma Squares6()
    requires XTimes(Pow2(24), ONE) == B(0xbad90e37)
    ensures XTimes(Pow2(28), ONE) == B(0x429a969e)
  {
    hide XTimes, B, Pow2;
    NextSquare(24, 0xbad90e37, 0x2e4e5eef);
    NextSquare(25, 0x2e4e5eef, 0x4eaba214);
    NextSquare(26, 0x4eaba214, 0xa8a472c0);
    NextSquare(27, 0xa8a472c0, 0x429a969e);
  }

  lemma Squares7()
    requires XTimes(Pow2(28), ONE) == B(0x429a969e)
    ensures XTimes(Pow2(32), ONE) == B(0x40000000)
  {
    hide XTimes, B, Pow2;
    NextSquare(28, 0x429a969e, 0x148d302a);
    NextSquare(29, 0x148d302a, 0xc40ba6d0);
    NextSquare(30, 0xc40ba6d0, 0xc4e22c3c);
    NextSquare(31, 0xc4e22c3c, 0x40000000);
  }

  /** x^(2^32) is x. */
  lemma Period()
    ensures XTimes(Pow2(32), ONE) == XTimes(Pow2(0), ONE)
  {
    hide XTimes, B, Pow2;
    FirstPower();
    OneB();
    Squares0();
    Squares1();
    Squares2();
    Squares3();
    Squares4();
    Squares5();
    Squares6();
    Squares7();
  }

  lemma {:induction false} PeriodAt(k: nat)
    ensures XTimes(Pow2(k + 32), ONE) == XTimes(Pow2(k), ONE)
  {
    hide XTimes, Product;
    if k == 0 {
      Period();
    } else {
      PeriodAt(k - 1);
      PowerProduct(Pow2(k - 1), Pow2(k - 1));
      PowerProduct(Pow2(k + 31), Pow2(k + 31));
    }
  }

  /** Whatever k is, x2n_table[k & 31] is x^(2^k). */
  lemma {:induction false} TableWraps(k: nat)
    ensures XTimes(Pow2(k % 32), ONE) == XTimes(Pow2(k), ONE)
  {
    hide XTimes, Pow2;
    if k >= 32 {
      TableWraps(k - 32);
      PeriodAt(k - 32);
    }
  }

  /** x2nmodp computes x^(n * 2^k) for all n and k. */
  lemma {:induction false} ExponentPower(n: nat, k: nat)
    ensures XTimes(Exponent(n, k), ONE) == XTimes(n * Pow2(k), ONE)
    decreases n
  {
    hide XTimes, Product, Pow2;
    if n > 0 {
      var h, e := n / 2, Exponent(n / 2, k + 1);
      ExponentPower(h, k + 1);
      HalfPower(n, k);
      if n % 2 == 1 {
        TableWraps(k);
        PowerProduct(Pow2(k % 32), e);
        PowerProduct(Pow2(k), h * Pow2(k + 1));
      }
    }
  }

  /** crc32_combine_ of two checksums is the checksum of the two strings, whatever their lengths. */
  lemma CombineConcat(a: seq<Byte>, b: seq<Byte>)
    ensures Xor(XTimes(Exponent(|b|, 3), Checksum(a)), Checksum(b)) == Checksum(a + b)
  {
    hide XTimes, Xor, Checksum, Exponent, Product;
    ExponentPower(|b|, 3);
    Pow2Table();
    ProductTimes(Exponent(|b|, 3), Checksum(a));
    ProductTimes(|b| * Pow2(3), Checksum(a));
    ChecksumConcat(a, b);
  }

  /** One step of the register. */
  lemma Shifted(n: nat, v: bv32, v': bv32)
    requires XWord(v) == v'
    ensures XTimes(n + 1, B(v)) == XTimes(n, B(v'))
  {
    hide X, B, XWord;
    XB(v);
  }

  /** A word and its complement. */
  lemma TurnedOver(v: bv32)
    ensures Not(B(v)) == B(XorWord(v, 0xffffffff))
  {
    hide B, Xor, XorWord, Not;
    XorB(v, 0xffffffff);
    AllSet();
    NotXor(B(v));
  }

  lemma AllSet()
    ensures B(0xffffffff) == Not(ZERO)
  {
    hide Mask, OneBit, B;
    forall i | 0 <= i < 32
      ensures B(0xffffffff)[i]
    {
      PowBits(i);
      BitAt(0xffffffff, i);
      MaskSet(Mask(i));
    }
    assert B(0xffffffff) == Not(ZERO);
  }

  lemma MaskSet(m: bv32)
    requires OneBit(m)
    ensures 0xffffffff & m != 0
  {
  }

  /** The checksum of a single zero byte, as section 8 of RFC 1952 defines it. */
  lemma ZeroByte()
    ensures Checksum([0]) == B(0xd202ef8d)
  {
    hide XTimes, XWord, B, Not, Checksum, XorWord;
    AllSet();
    NotWords();
    Steps();
    Shifted(7, 0xffffffff, 0x92477cdf);
    Shifted(6, 0x92477cdf, 0xa49b3d4f);
    Shifted(5, 0xa49b3d4f, 0xbff51d87);
    Shifted(4, 0xbff51d87, 0xb2420de3);
    Shifted(3, 0xb2420de3, 0xb49985d1);
    Shifted(2, 0xb49985d1, 0xb7f441c8);
    Shifted(1, 0xb7f441c8, 0x5bfa20e4);
    Shifted(0, 0x5bfa20e4, 0x2dfd1072);
    OneByte(Not(ZERO));
    ChecksumIs([0]);
    XTimesNone(B(0x2dfd1072));
    TurnedOver(0x2dfd1072);
  }

  lemma NotWords()
    ensures XorWord(0x2dfd1072, 0xffffffff) == 0xd202ef8d
  {
  }

  lemma Steps()
    ensures XWord(0xffffffff) == 0x92477cdf
    ensures XWord(0x92477cdf) == 0xa49b3d4f
    ensures XWord(0xa49b3d4f) == 0xbff51d87
    ensures XWord(0xbff51d87) == 0xb2420de3
    ensures XWord(0xb2420de3) == 0xb49985d1
    ensures XWord(0xb49985d1) == 0xb7f441c8
    ensures XWord(0xb7f441c8) == 0x5bfa20e4
    ensures XWord(0x5bfa20e4) == 0x2dfd1072
  {
  }

  lemma XTimesNone(c: Reg)
    ensures XTimes(0, c) == c
  {
  }

  lemma OneByte(c: Reg)
    ensures Crc(c, [0]) == XTimes(8, c)
  {
    hide XTimes, Xor, Zeros;
    XorZero(c);
    NoByte();
    assert [0][..0] == [];
  }

  lemma NoByte()
    ensures ByteReg(0) == Zeros(32)
  {
    hide ToBits;
    ZeroBits(8);
  }

  lemma {:induction false} ZeroBits(n: nat)
    ensures ToBits(0, n) == Zeros(n)
  {
    if n > 0 { ZeroBits(n - 1); }
  }

  lemma ChecksumIs(data: seq<Byte>)
    ensures Checksum(data) == Not(Crc(Not(ZERO), data))
  {
    hide Crc, Not;
  }
}
