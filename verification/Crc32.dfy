/** arch/generic/crc32_braid_c.c, crc32_p.h, crc32_braid_comb_p.h and the tables of utils/makecrct.c: CRC-32 over five
    braids of eight-byte words, and the combination of two checksums. */
module Crc32 {
  import opened Arith
  import opened Bits
  import opened Slices
  import opened CrcPoly

  // ---- multmodp and x2nmodp ----

  /** a & (m - 1) == 0, for m the bit n. */
  predicate NoneBelow(a: Reg, n: nat)
    requires n <= 32
  {
    forall i :: 0 <= i < n ==> !a[i]
  }

  lemma {:induction false} MulNone(a: Reg, n: nat, v: Reg)
    requires n <= 32 && NoneBelow(a, n)
    ensures Mul(a, n, v) == ZERO
    decreases n
  {
    hide X;
    if n > 0 {
      MulNone(a, n - 1, X(v));
      XorZero(ZERO);
    }
  }

  lemma SomeBelow(a: Reg)
    requires a != ZERO
    ensures !NoneBelow(a, 32)
  {
    if NoneBelow(a, 32) { NoneIsZero(a); }
  }

  lemma NoneIsZero(a: Reg)
    requires NoneBelow(a, 32)
    ensures a == ZERO
  {
  }

  /** multmodp: a(x) * b(x) modulo p(x). It requires that a is not zero. */
  method MultModP(a: Reg, b0: Reg) returns (p: Reg)
    requires a != ZERO
    ensures p == Product(a, b0)
  {
    hide X, Xor, ZERO;
    var b, n := b0, 32;
    p := ZERO;
    SomeBelow(a);
    XorZeroLeft(Mul(a, 32, b));
    while true
      invariant 1 <= n <= 32 && !NoneBelow(a, n) && Xor(p, Mul(a, n, b)) == Product(a, b0)
      decreases n
    {
      ghost var rest := Mul(a, n - 1, X(b));
      if a[n - 1] {
        XorAssoc(p, b, rest);
        p := Xor(p, b);
        if NoneBelow(a, n - 1) {
          MulNone(a, n - 1, X(b));
          XorZeroRight(p);
          break;
        }
      } else {
        XorZeroLeft(rest);
      }
      n, b := n - 1, X(b);
    }
  }

  lemma XorZeroLeft(v: Reg)
    ensures Xor(ZERO, v) == v
  {
    XorZero(v);
  }

  lemma XorZeroRight(v: Reg)
    ensures Xor(v, ZERO) == v
  {
    XorZero(v);
  }

  lemma XNotZero(v: Reg)
    requires v != ZERO
    ensures X(v) != ZERO
  {
    if v[0] {
      assert X(v)[31] == POLY[31];
    } else if Half(v) == ZERO {
      forall i | 0 <= i < 32
        ensures !v[i]
      {
        if i > 0 { assert Half(v)[i - 1] == v[i]; }
      }
      NoneIsZero(v);
    }
  }

  lemma {:induction false} TimesNotZero(n: nat, v: Reg)
    requires v != ZERO
    ensures XTimes(n, v) != ZERO
    decreases n
  {
    hide X, ZERO;
    if n > 0 {
      XNotZero(v);
      TimesNotZero(n - 1, X(v));
    }
  }

  lemma PowerNotZero(n: nat)
    ensures XTimes(n, ONE) != ZERO
  {
    assert ONE[31] && !ZERO[31];
    TimesNotZero(n, ONE);
  }

  /** x^m * x^n. */
  lemma PowerProduct(m: nat, n: nat)
    ensures Product(XTimes(m, ONE), XTimes(n, ONE)) == XTimes(m + n, ONE)
  {
    hide XTimes, Product;
    ProductTimes(m, XTimes(n, ONE));
    TimesTimes(m, n, ONE);
  }

  /** x2n_table: x^(2^k). */
  ghost predicate IsX2n(t: seq<Reg>) { |t| == 32 && forall k :: 0 <= k < 32 ==> t[k] == XTimes(Pow2(k), ONE) }

  /** The part of make_crc_table that fills x2n_table. */
  method MakeX2n() returns (t: seq<Reg>)
    ensures IsX2n(t)
  {
    hide XTimes, Product, Pow2, ZERO;
    var p := Unit(30);
    FirstPower();
    t := [p];
    for n := 1 to 32
      invariant |t| == n && p == t[n - 1] && forall k :: 0 <= k < n ==> t[k] == XTimes(Pow2(k), ONE)
    {
      PowerNotZero(Pow2(n - 1));
      PowerProduct(Pow2(n - 1), Pow2(n - 1));
      Pow2Twice(n);
      p := MultModP(p, p);
      t := t + [p];
    }
  }

  lemma Pow2Twice(n: nat)
    requires n > 0
    ensures Pow2(n) == Pow2(n - 1) + Pow2(n - 1)
  {
  }

  lemma FirstPower()
    ensures Unit(30) == XTimes(Pow2(0), ONE)
  {
    UnitX(31);
    assert XTimes(1, ONE) == XTimes(0, X(ONE));
  }

  /** The exponent that x2nmodp adds up: its table has 32 entries, which it uses in turn. */
  function Exponent(n: nat, k: nat): (e: nat)
    decreases n
  {
    if n == 0 then 0 else (if n % 2 == 1 then Pow2(k % 32) else 0) + Exponent(n / 2, k + 1)
  }

  /** x2nmodp. */
  method X2nModP(n0: nat, k0: nat, table: seq<Reg>) returns (p: Reg)
    requires IsX2n(table)
    ensures p == XTimes(Exponent(n0, k0), ONE)
  {
    hide XTimes, Product, Pow2;
    var n, k := n0, k0;
    p := Unit(31);
    ghost var e: nat := 0;
    NoPower();
    while n != 0
      invariant p == XTimes(e, ONE) && e + Exponent(n, k) == Exponent(n0, k0)
    {
      if n % 2 == 1 {
        PowerNotZero(Pow2(k % 32));
        PowerProduct(Pow2(k % 32), e);
        p := MultModP(table[k % 32], p);
        e := Pow2(k % 32) + e;
      }
      n, k := n / 2, k + 1;
    }
  }

  lemma NoPower()
    ensures Unit(31) == XTimes(0, ONE)
  {
  }

  lemma HalfPower(n: nat, k: nat)
    ensures n * Pow2(k) == n / 2 * Pow2(k + 1) + n % 2 * Pow2(k)
  {
    var h, p := n / 2, Pow2(k);
    MulAssoc(h, 2, p);
    Distrib(2 * h, n % 2, p);
  }

  lemma HalfBelow(n: nat, j: nat)
    requires 0 < n < Pow2(j)
    ensures j > 0 && n / 2 < Pow2(j - 1)
  {
  }

  /** As long as the table does not have to be used twice, the exponent is n * 2^k. */
  lemma {:induction false} ExponentIs(n: nat, k: nat)
    requires k <= 32 && n < Pow2(32 - k)
    ensures Exponent(n, k) == n * Pow2(k)
    decreases n
  {
    hide Pow2;
    if n > 0 {
      HalfBelow(n, 32 - k);
      ExponentIs(n / 2, k + 1);
      HalfPower(n, k);
      ModSmall(k, 32);
    }
  }

  // ---- one byte at a time ----

  function ByteReg(b: Byte): (r: Reg) { ToBits(b, 8) + Zeros(24) }

  /** One byte through the shift register: eight times x, each with the feedback of p(x). */
  function CrcByte(c: Reg, b: Byte): (r: Reg) { XTimes(8, Xor(c, ByteReg(b))) }

  /** The register after data, without conditioning. */
  function Crc(c: Reg, data: seq<Byte>): (r: Reg)
  {
    if |data| == 0 then c else CrcByte(Crc(c, data[..|data| - 1]), data[|data| - 1])
  }

  /** crc_table. */
  ghost predicate IsCrcTable(t: seq<Reg>)
    { |t| == 256 && forall i :: 0 <= i < 256 ==> t[i] == XTimes(8, ToBits(i, 32)) }

  /** The part of make_crc_table that fills crc_table. */
  method MakeCrcTable() returns (t: seq<Reg>)
    ensures IsCrcTable(t)
  {
    hide XTimes, ToBits, X;
    t := [];
    for i := 0 to 256
      invariant |t| == i && forall k :: 0 <= k < i ==> t[k] == XTimes(8, ToBits(k, 32))
    {
      var p: Reg := ToBits(i, 32);
      for j := 0 to 8
        invariant XTimes(8 - j, p) == XTimes(8, ToBits(i, 32))
      {
        OneTimes(8 - j, p);
        p := X(p);
      }
      NoTimes(p);
      t := t + [p];
    }
  }

  lemma OneTimes(n: nat, v: Reg)
    requires n > 0
    ensures XTimes(n, v) == XTimes(n - 1, X(v))
  {
  }

  lemma NoTimes(v: Reg)
    ensures XTimes(0, v) == v
  {
  }

  /** Zero bits are shifted out. */
  lemma {:induction false} ShiftOut(n: nat, w: Bits)
    requires n + |w| == 32
    ensures XTimes(n, Zeros(n) + w) == w + Zeros(n)
    decreases n
  {
    hide POLY;
    if n == 0 {
      assert Zeros(0) + w == w == w + Zeros(0);
    } else {
      var v := Zeros(n) + w;
      assert Half(v) == Zeros(n - 1) + (w + [false]);
      ShiftOut(n - 1, w + [false]);
      assert w + [false] + Zeros(n - 1) == w + Zeros(n);
    }
  }

  lemma {:induction false} ToBitsPad(b: Bits, n: nat)
    ensures ToBits(FromBits(b), |b| + n) == b + Zeros(n)
    decreases |b|
  {
    if |b| == 0 {
      ZeroBits(n);
      assert b + Zeros(n) == Zeros(n);
    } else {
      ToBitsPad(b[1..], n);
      var v := FromBits(b);
      assert v % 2 == Bit(b[0]) && v / 2 == FromBits(b[1..]);
      assert [b[0]] + (b[1..] + Zeros(n)) == b + Zeros(n);
    }
  }

  lemma {:induction false} ZeroBits(n: nat)
    ensures ToBits(0, n) == Zeros(n)
    decreases n
  {
    if n > 0 {
      ZeroBits(n - 1);
      assert [false] + Zeros(n - 1) == Zeros(n);
    }
  }

  function Shr8(c: Reg): (r: Reg) { c[8..] + Zeros(8) }

  /** The register shifted by a byte, and the table for the byte shifted out. */
  lemma EightTimes(v: Reg)
    ensures XTimes(8, v) == Xor(Shr8(v), XTimes(8, v[..8] + Zeros(24)))
  {
    hide XTimes;
    var hi, lo := Zeros(8) + v[8..], v[..8] + Zeros(24);
    assert v == Xor(hi, lo);
    XorTimes(8, hi, lo);
    ShiftOut(8, v[8..]);
  }

  /** CRC_DO1: crc_table[(c ^ b) & 0xff] ^ (c >> 8), as section 8 of RFC 1952 computes it. */
  method TableByte(t: seq<Reg>, c: Reg, b: Byte) returns (r: Reg)
    requires IsCrcTable(t)
    ensures r == CrcByte(c, b)
  {
    hide XTimes, ToBits, Xor;
    var v := Xor(c, ByteReg(b));
    Index8(v[..8]);
    r := Xor(t[FromBits(v[..8])], Shr8(c));
    EightTimes(v);
    ToBitsPad(v[..8], 24);
    SameHigh(c, b);
    XorComm(t[FromBits(v[..8])], Shr8(c));
  }

  lemma Index8(b: Bits)
    requires |b| == 8
    ensures FromBits(b) < 256
  {
    BelowPow2(b);
    Pow2Table();
  }

  lemma SameHigh(c: Reg, b: Byte)
    ensures Shr8(Xor(c, ByteReg(b))) == Shr8(c)
  {
    hide ToBits;
  }

  /** crc32_copy_small without the copy. */
  method CrcSmall(t: seq<Reg>, c: Reg, data: seq<Byte>) returns (r: Reg)
    requires IsCrcTable(t)
    ensures r == Crc(c, data)
  {
    hide CrcByte, IsCrcTable;
    r := c;
    for i := 0 to |data|
      invariant r == Crc(c, data[..i])
    {
      assert data[..i + 1][..i] == data[..i];
      r := TableByte(t, r, data[i]);
    }
    assert data[..|data|] == data;
  }

  lemma {:induction false} CrcConcat(c: Reg, a: seq<Byte>, b: seq<Byte>)
    ensures Crc(c, a + b) == Crc(Crc(c, a), b)
    decreases |b|
  {
    hide CrcByte;
    if |b| == 0 {
      assert a + b == a;
    } else {
      var n := |b| - 1;
      assert (a + b)[..|a + b| - 1] == a + b[..n];
      CrcConcat(c, a, b[..n]);
    }
  }

  /** The start value goes through on its own. */
  lemma {:induction false} CrcLinear(c: Reg, data: seq<Byte>)
    ensures Crc(c, data) == Xor(XTimes(8 * |data|, c), Crc(ZERO, data))
    decreases |data|
  {
    hide XTimes, Xor, ByteReg;
    if |data| == 0 {
      NoTimes(c);
      XorZero(c);
    } else {
      var n := |data| - 1;
      var front, b := data[..n], ByteReg(data[n]);
      CrcLinear(c, front);
      var x, y := XTimes(8 * n, c), Crc(ZERO, front);
      XorAssoc(x, y, b);
      XorTimes(8, x, Xor(y, b));
      TimesTimes(8, 8 * n, c);
    }
  }

  // ---- words ----

  function Ext(c: Reg): (w: Word) { c + Zeros(32) }

  /** One turn of crc_word: the low byte is looked up and the rest shifted down. */
  function WordStep(d: Word): (r: Word)
  {
    Xor(d[8..] + Zeros(8), Ext(XTimes(8, d[..8] + Zeros(24))))
  }

  /** A register and the data behind it in one word: a byte goes from the data into the register. */
  lemma WordByte(c: Reg, s: Word, b: Byte)
    requires s[..8] == ToBits(b, 8)
    ensures WordStep(Xor(Ext(c), s)) == Xor(Ext(CrcByte(c, b)), s[8..] + Zeros(8))
  {
    hide XTimes, ToBits;
    var d, v := Xor(Ext(c), s), Xor(c, ByteReg(b));
    assert d[..8] == v[..8];
    var t := XTimes(8, v[..8] + Zeros(24));
    EightTimes(v);
    SameHigh(c, b);
    assert d[8..] + Zeros(8) == Xor(Ext(Shr8(c)), s[8..] + Zeros(8));
    XorSwapLast(Ext(Shr8(c)), s[8..] + Zeros(8), Ext(t));
    assert Xor(Ext(Shr8(c)), Ext(t)) == Ext(Xor(Shr8(c), t));
  }

  lemma XorSwapLast(a: Bits, b: Bits, c: Bits)
    requires |a| == |b| == |c|
    ensures Xor(Xor(a, b), c) == Xor(Xor(a, c), b)
  {
  }

  /** The bytes that are left after k, in a word. */
  function Left(w: seq<Byte>, k: nat): (s: Word)
    requires |w| == 8 && k <= 8
  {
    BytesBits(w[k..]) + Zeros(8 * k)
  }

  lemma LeftStep(w: seq<Byte>, k: nat)
    requires |w| == 8 && k < 8
    ensures Left(w, k)[..8] == ToBits(w[k], 8) && Left(w, k)[8..] + Zeros(8) == Left(w, k + 1)
  {
    hide ToBits;
    assert w[k..][1..] == w[k + 1..];
    assert BytesBits(w[k..]) == ToBits(w[k], 8) + BytesBits(w[k + 1..]);
  }

  /** crc_word. */
  method CrcWord(t: seq<Reg>, d0: Word, ghost c: Reg, ghost w: seq<Byte>) returns (r: Reg)
    requires IsCrcTable(t) && |w| == 8 && d0 == Xor(Ext(c), BytesBits(w))
    ensures r == Crc(c, w)
  {
    hide XTimes, ToBits, CrcByte, BytesBits, Left, WordStep;
    var d := d0;
    LeftAll(w);
    for k := 0 to 8
      invariant d == Xor(Ext(Crc(c, w[..k])), Left(w, k))
    {
      Index8(d[..8]);
      ToBitsPad(d[..8], 24);
      WordStepIs(d, t[FromBits(d[..8])]);
      LeftStep(w, k);
      assert w[..k + 1][..k] == w[..k];
      WordByte(Crc(c, w[..k]), Left(w, k), w[k]);
      d := Xor(d[8..] + Zeros(8), Ext(t[FromBits(d[..8])]));
    }
    assert w[..8] == w;
    LeftNone(w);
    r := d[..32];
    LowHalf(Crc(c, w));
  }

  lemma WordStepIs(d: Word, v: Reg)
    requires v == XTimes(8, d[..8] + Zeros(24))
    ensures Xor(d[8..] + Zeros(8), Ext(v)) == WordStep(d)
  {
    hide XTimes;
  }

  lemma LeftAll(w: seq<Byte>)
    requires |w| == 8
    ensures Left(w, 0) == BytesBits(w) && w[..0] == []
  {
    hide BytesBits;
    assert w[0..] == w && BytesBits(w) + Zeros(0) == BytesBits(w);
  }

  lemma LeftNone(w: seq<Byte>)
    requires |w| == 8
    ensures Left(w, 8) == Zeros(64)
  {
    assert w[8..] == [] && [] + Zeros(64) == Zeros(64);
  }

  lemma LowHalf(c: Reg)
    ensures Xor(Ext(c), Zeros(64))[..32] == c
  {
  }

  // ---- braids ----

  const BRAID_N: nat := 5
  const BRAID_W: nat := 8

  /** crc_braid_table: the k-th byte of a word has all that follows it in the word and the next four words to go
      through. */
  ghost predicate IsBraid(t: seq<seq<Reg>>)
  {
    |t| == 8 && forall k :: 0 <= k < 8 ==> IsBraidRow(t[k], k)
  }

  ghost predicate IsBraidRow(row: seq<Reg>, k: nat)
    requires k <= 40
  {
    |row| == 256 && forall i :: 0 <= i < 256 ==> row[i] == XTimes(8 * (40 - k), ToBits(i, 32))
  }

  /** i << 24, times x^(8 * (43 - k)). */
  lemma BraidEntry(i: nat, k: nat)
    requires i < 256 && k <= 40
    ensures Product(Zeros(24) + ToBits(i, 8), XTimes(8 * (43 - k), ONE)) == XTimes(8 * (40 - k), ToBits(i, 32))
  {
    hide XTimes, Product, ToBits, Zeros;
    var v: Reg := Zeros(24) + ToBits(i, 8);
    ProductCommutes(v, XTimes(8 * (43 - k), ONE));
    ProductTimes(8 * (43 - k), v);
    TimesTimes(8 * (40 - k), 24, v);
    ShiftOut(24, ToBits(i, 8));
    WideByte(i);
  }

  lemma WideByte(i: nat)
    requires i < 256
    ensures ToBits(i, 8) + Zeros(24) == ToBits(i, 32)
  {
    Pow2Table();
    FromBitsToBits(i, 8);
    ToBitsPad(ToBits(i, 8), 24);
  }

  lemma ByteNotZero(i: nat)
    requires 0 < i < 256
    ensures Zeros(24) + ToBits(i, 8) != ZERO
  {
    Pow2Table();
    FromBitsToBits(i, 8);
    FromMsbZeros(8);
    assert (Zeros(24) + ToBits(i, 8))[24..] == ToBits(i, 8);
    assert ZERO[24..] == Zeros(8);
  }

  /** braid() for little-endian words: one row of the table. */
  method MakeBraidRow(k: nat, x2n: seq<Reg>) returns (row: seq<Reg>)
    requires k < 8 && IsX2n(x2n)
    ensures IsBraidRow(row, k)
  {
    hide XTimes, Product, ToBits, IsX2n;
    var p := X2nModP(8 * (BRAID_N * BRAID_W + 3 - k), 0, x2n);
    SmallExponent(8 * (43 - k));
    row := [ZERO];
    ZeroBits(32);
    TimesZero(8 * (40 - k));
    for i := 1 to 256
      invariant |row| == i && forall j :: 0 <= j < i ==> row[j] == XTimes(8 * (40 - k), ToBits(j, 32))
    {
      ByteNotZero(i);
      BraidEntry(i, k);
      var q := MultModP(Zeros(24) + ToBits(i, 8), p);
      row := row + [q];
    }
  }

  lemma SmallExponent(n: nat)
    requires n < 65536
    ensures Exponent(n, 0) == n
  {
    Pow2Table();
    Pow2Mono(16, 32);
    ExponentIs(n, 0);
  }

  method MakeBraid(x2n: seq<Reg>) returns (t: seq<seq<Reg>>)
    requires IsX2n(x2n)
    ensures IsBraid(t)
  {
    hide IsX2n, IsBraidRow;
    t := [];
    for k := 0 to 8
      invariant |t| == k && forall j :: 0 <= j < k ==> IsBraidRow(t[j], j)
    {
      var row := MakeBraidRow(k, x2n);
      t := t + [row];
    }
  }

  /** The k-th byte of a word. */
  function WordByteAt(d: Word, k: nat): (b: Byte)
    requires k < 8
  {
    Index8(d[8 * k..8 * k + 8]);
    FromBits(d[8 * k..8 * k + 8])
  }

  function WordBytes(d: Word): (w: seq<Byte>)
    ensures |w| == 8
  {
    seq(8, k requires 0 <= k < 8 => WordByteAt(d, k))
  }

  lemma {:induction false} BytesBitsAt(w: seq<Byte>, k: nat)
    requires k < |w|
    ensures BytesBits(w)[8 * k..8 * k + 8] == ToBits(w[k], 8)
    decreases k
  {
    hide ToBits;
    if k > 0 {
      BytesBitsAt(w[1..], k - 1);
      SubSlice(BytesBits(w), 8, |BytesBits(w)|, 8 * k - 8, 8 * k);
      assert BytesBits(w)[8..|BytesBits(w)|] == BytesBits(w[1..]);
    }
  }

  lemma WordBytesBits(d: Word)
    ensures BytesBits(WordBytes(d)) == d
  {
    hide ToBits, FromBits, BytesBits;
    var w := WordBytes(d);
    forall i | 0 <= i < 64
      ensures BytesBits(w)[i] == d[i]
    {
      var k := i / 8;
      BytesBitsAt(w, k);
      ToBitsFromBits(d[8 * k..8 * k + 8]);
      assert BytesBits(w)[i] == BytesBits(w)[8 * k..8 * k + 8][i - 8 * k] == d[8 * k..8 * k + 8][i - 8 * k];
    }
  }

  /** The register may as well be part of the data. */
  lemma CrcMerged(c: Reg, w: seq<Byte>)
    requires |w| == 8
    ensures Crc(ZERO, WordBytes(Xor(Ext(c), BytesBits(w)))) == Crc(c, w)
  {
    hide XTimes, CrcByte, BytesBits, WordBytes, ToBits, WordStep, Left, Ext, Xor;
    var d := Xor(Ext(c), BytesBits(w));
    var e := WordBytes(d);
    WordBytesBits(d);
    ZeroExt(d);
    WordRun(c, w, 8);
    WordRun(ZERO, e, 8);
    assert w[..8] == w && e[..8] == e;
    LeftNone(w);
    LeftNone(e);
    LowHalf(Crc(c, w));
    LowHalf(Crc(ZERO, e));
  }

  lemma ZeroExt(d: Word)
    ensures Xor(Ext(ZERO), d) == d
  {
  }

  function WordSteps(d: Word, k: nat): (r: Word) { if k == 0 then d else WordStep(WordSteps(d, k - 1)) }

  lemma {:induction false} WordRun(c: Reg, w: seq<Byte>, k: nat)
    requires |w| == 8 && k <= 8
    ensures WordSteps(Xor(Ext(c), BytesBits(w)), k) == Xor(Ext(Crc(c, w[..k])), Left(w, k))
    decreases k
  {
    hide XTimes, CrcByte, BytesBits, ToBits, WordStep, Left, Ext, Xor;
    if k == 0 {
      LeftAll(w);
    } else {
      WordRun(c, w, k - 1);
      LeftStep(w, k - 1);
      assert w[..k][..k - 1] == w[..k - 1];
      WordByte(Crc(c, w[..k - 1]), Left(w, k - 1), w[k - 1]);
    }
  }

  /** The new CRC of a braid: its word, and four words of zeros behind it. */
  method BraidWord(t: seq<seq<Reg>>, d: Word, ghost c: Reg, ghost w: seq<Byte>) returns (r: Reg)
    requires IsBraid(t) && |w| == 8 && d == Xor(Ext(c), BytesBits(w))
    ensures r == XTimes(256, Crc(c, w))
  {
    hide XTimes, ToBits, BytesBits, CrcByte, Ext, Xor, FromBits, ByteReg;
    ghost var e := WordBytes(d);
    CrcMerged(c, w);
    r := t[0][WordByteAt(d, 0)];
    FirstByte(t, e);
    for k := 1 to 8
      invariant r == XTimes(8 * (40 - k), Crc(ZERO, e[..k]))
    {
      NextByte(t, e, k);
      r := Xor(r, t[k][WordByteAt(d, k)]);
    }
    assert e[..8] == e;
  }

  lemma FirstByte(t: seq<seq<Reg>>, e: seq<Byte>)
    requires IsBraid(t) && |e| == 8
    ensures t[0][e[0]] == XTimes(8 * (40 - 1), Crc(ZERO, e[..1]))
  {
    hide XTimes, ToBits, Xor;
    assert e[..1][..0] == [];
    assert Crc(ZERO, e[..1]) == CrcByte(ZERO, e[0]);
    XorZero(ByteReg(e[0]));
    WideByte(e[0]);
    TimesTimes(8 * 39, 8, ByteReg(e[0]));
    assert IsBraidRow(t[0], 0);
  }

  lemma NextByte(t: seq<seq<Reg>>, e: seq<Byte>, k: nat)
    requires IsBraid(t) && |e| == 8 && 1 <= k < 8
    ensures Xor(XTimes(8 * (40 - k), Crc(ZERO, e[..k])), t[k][e[k]]) ==
      XTimes(8 * (40 - (k + 1)), Crc(ZERO, e[..k + 1]))
  {
    hide XTimes, ToBits, Xor;
    assert e[..k + 1][..k] == e[..k];
    var q, b := Crc(ZERO, e[..k]), ByteReg(e[k]);
    assert Crc(ZERO, e[..k + 1]) == XTimes(8, Xor(q, b));
    TimesTimes(8 * (39 - k), 8, Xor(q, b));
    XorTimes(8 * (40 - k), q, b);
    WideByte(e[k]);
    assert IsBraidRow(t[k], k);
  }

  /** The j-th word of a block. */
  function WordOf(block: seq<Byte>, j: nat): (w: seq<Byte>)
    requires 8 * j + 8 <= |block|
    ensures |w| == 8
  {
    block[8 * j..8 * j + 8]
  }

  /** The first j words of the last block, one after the other, each with the CRC of its braid added in. */
  function Comb(cs: seq<Reg>, block: seq<Byte>, j: nat): (r: Reg)
    requires |cs| == 5 && |block| == 40 && j <= 5
  {
    if j == 0 then ZERO else Crc(Xor(cs[j - 1], Comb(cs, block, j - 1)), WordOf(block, j - 1))
  }

  /** With the start value in the first braid only, that is the CRC of the block. */
  lemma {:induction false} CombStart(c: Reg, block: seq<Byte>, j: nat)
    requires |block| == 40 && 1 <= j <= 5
    ensures Comb([c, ZERO, ZERO, ZERO, ZERO], block, j) == Crc(c, block[..8 * j])
    decreases j
  {
    hide Crc, Xor;
    var cs := [c, ZERO, ZERO, ZERO, ZERO];
    if j == 1 {
      XorZeroRight(c);
      assert Comb(cs, block, 0) == ZERO;
      assert block[0..8] == block[..8];
    } else {
      CombStart(c, block, j - 1);
      XorZeroLeft(Comb(cs, block, j - 1));
      assert block[..8 * j] == block[..8 * (j - 1)] + WordOf(block, j - 1);
      CrcConcat(c, block[..8 * (j - 1)], WordOf(block, j - 1));
    }
  }

  /** The braids after one more block. */
  ghost predicate Advanced(cs: seq<Reg>, block: seq<Byte>, cs': seq<Reg>)
  {
    |cs| == |cs'| == 5 && |block| == 40 && forall j :: 0 <= j < 5 ==>
      cs'[j] == XTimes(256, Crc(cs[j], WordOf(block, j)))
  }

  /** The combination of the new braids with a block is the combination of the old ones, moved on by forty bytes, with
      the bytes of the block behind it. */
  lemma {:induction false} CombMoves(cs: seq<Reg>, block: seq<Byte>, cs': seq<Reg>, next: seq<Byte>, j: nat)
    requires Advanced(cs, block, cs') && |next| == 40 && j <= 5
    ensures Comb(cs', next, j) == Xor(XTimes(320, Comb(cs, block, j)), Crc(ZERO, next[..8 * j]))
    decreases j
  {
    hide XTimes, Crc, Xor;
    if j == 0 {
      TimesZero(320);
      XorZero(ZERO);
      NoData(next);
    } else {
      var i := j - 1;
      CombMoves(cs, block, cs', next, i);
      var p, q, w, v := Comb(cs, block, i), Crc(ZERO, next[..8 * i]), WordOf(block, i), WordOf(next, i);
      CombWord(cs[i], p, w, q, v);
      assert next[..8 * j] == next[..8 * i] + v;
      CrcConcat(ZERO, next[..8 * i], v);
    }
  }

  lemma NoData(next: seq<Byte>)
    ensures Crc(ZERO, next[..0]) == ZERO
  {
  }

  lemma CombWord(c: Reg, p: Reg, w: seq<Byte>, q: Reg, v: seq<Byte>)
    requires |w| == 8 && |v| == 8
    ensures Crc(Xor(XTimes(256, Crc(c, w)), Xor(XTimes(320, p), q)), v) ==
      Xor(XTimes(320, Crc(Xor(c, p), w)), Crc(q, v))
  {
    hide XTimes, Crc, Xor;
    var r := Crc(c, w);
    var a, b := XTimes(256, r), XTimes(320, p);
    XorAssoc(a, b, q);
    CrcSplit(Xor(a, b), q, v);
    XorTimes(64, a, b);
    TimesTimes(64, 256, r);
    TimesTimes(64, 320, p);
    TimesTimes(320, 64, p);
    CrcSplit(p, c, w);
    XorComm(c, p);
    XorTimes(320, XTimes(64, p), r);
    XorComm(XTimes(320, r), XTimes(384, p));
  }

  /** A part of the start value goes through on its own. */
  lemma CrcSplit(a: Reg, b: Reg, w: seq<Byte>)
    requires |w| == 8
    ensures Crc(Xor(a, b), w) == Xor(XTimes(64, a), Crc(b, w))
  {
    hide XTimes, Crc, Xor;
    CrcLinear(Xor(a, b), w);
    CrcLinear(b, w);
    XorTimes(64, a, b);
    XorAssoc(XTimes(64, a), XTimes(64, b), Crc(ZERO, w));
  }

  lemma CombNext(cs: seq<Reg>, block: seq<Byte>, cs': seq<Reg>, next: seq<Byte>)
    requires Advanced(cs, block, cs') && |next| == 40
    ensures Comb(cs', next, 5) == Crc(Comb(cs, block, 5), next)
  {
    hide XTimes, Crc, Xor;
    CombMoves(cs, block, cs', next, 5);
    CrcLinear(Comb(cs, block, 5), next);
    assert next[..40] == next;
  }

  /** words[j], for words at pos. */
  function LoadWord(buf: seq<Byte>, pos: nat, j: nat): (w: Word)
    requires pos + 8 * j + 8 <= |buf|
  {
    BytesBits(buf[pos + 8 * j..pos + 8 * j + 8])
  }

  function BlockAt(buf: seq<Byte>, pos: nat): (b: seq<Byte>)
    requires pos + 40 <= |buf|
  {
    buf[pos..pos + 40]
  }

  lemma LoadIs(buf: seq<Byte>, pos: nat, j: nat)
    requires pos + 40 <= |buf| && j < 5
    ensures LoadWord(buf, pos, j) == BytesBits(WordOf(BlockAt(buf, pos), j))
  {
    hide BytesBits;
    SubSlice(buf, pos, pos + 40, 8 * j, 8 * j + 8);
  }

  /** One block of the main loop: every braid on its own. */
  method AdvanceBraids(t: seq<seq<Reg>>, cs: seq<Reg>, buf: seq<Byte>, pos: nat, ghost addr: nat)
    returns (cs': seq<Reg>)
    requires IsBraid(t) && |cs| == 5 && pos + 40 <= |buf| && (addr + pos) % BRAID_W == 0
    ensures Advanced(cs, BlockAt(buf, pos), cs')
  {
    hide XTimes, Crc, Xor, IsBraid, LoadWord, BytesBits, WordOf;
    cs' := [];
    for j := 0 to 5
      invariant |cs'| == j
      invariant forall i :: 0 <= i < j ==> cs'[i] == XTimes(256, Crc(cs[i], WordOf(BlockAt(buf, pos), i)))
    {
      LoadIs(buf, pos, j);
      var r := BraidWord(t, Xor(Ext(cs[j]), LoadWord(buf, pos, j)), cs[j], WordOf(BlockAt(buf, pos), j));
      cs' := cs' + [r];
    }
    BlockSize(buf, pos);
  }

  lemma BlockSize(buf: seq<Byte>, pos: nat)
    requires pos + 40 <= |buf|
    ensures |BlockAt(buf, pos)| == 40
  {
  }

  /** The last block. */
  method CombineBraids(t: seq<Reg>, cs: seq<Reg>, buf: seq<Byte>, pos: nat, ghost addr: nat)
    returns (comb: Reg)
    requires IsCrcTable(t) && |cs| == 5 && pos + 40 <= |buf| && (addr + pos) % BRAID_W == 0
    ensures comb == Comb(cs, BlockAt(buf, pos), 5)
  {
    hide XTimes, Crc, IsCrcTable, LoadWord, BytesBits, WordOf, Ext, Xor;
    ghost var b := BlockAt(buf, pos);
    comb := ZERO;
    for j := 0 to 5
      invariant comb == Comb(cs, b, j)
    {
      LoadIs(buf, pos, j);
      MergeWord(cs[j], LoadWord(buf, pos, j), comb);
      comb := CrcWord(t, Xor(Xor(Ext(cs[j]), LoadWord(buf, pos, j)), Ext(comb)), Xor(cs[j], comb), WordOf(b, j));
    }
  }

  /** crc ^ word ^ comb. */
  lemma MergeWord(c: Reg, w: Word, comb: Reg)
    ensures Xor(Xor(Ext(c), w), Ext(comb)) == Xor(Ext(Xor(c, comb)), w)
  {
    XorSwapLast(Ext(c), w, Ext(comb));
    assert Xor(Ext(c), Ext(comb)) == Ext(Xor(c, comb));
  }

  /** ~crc. */
  function Not(c: Reg): (r: Reg)
    ensures forall i :: 0 <= i < 32 ==> r[i] == !c[i]
  {
    seq(32, i requires 0 <= i < 32 => !c[i])
  }

  /** The blocks from an aligned position on: all but the last on five braids, and the last one combining them. */
  method Braids(table: seq<Reg>, braid: seq<seq<Reg>>, c: Reg, buf: seq<Byte>, pos0: nat, ghost addr: nat)
    returns (r: Reg, pos: nat)
    requires IsCrcTable(table) && IsBraid(braid) && pos0 + 40 <= |buf| && (addr + pos0) % BRAID_W == 0
    ensures pos0 <= pos <= |buf| && |buf| - pos < 40 && r == Crc(c, buf[pos0..pos])
  {
    hide XTimes, Crc, Xor, IsCrcTable, IsBraid, Advanced, Comb;
    var blks := (|buf| - pos0) / (BRAID_N * BRAID_W);
    var cs := [c, ZERO, ZERO, ZERO, ZERO];
    pos := pos0;
    FirstBlock(c, buf, pos0);
    blks := blks - 1;
    while blks > 0
      invariant (addr + pos) % BRAID_W == 0
      invariant 0 <= blks && |cs| == 5 && pos0 <= pos && pos + 40 + 40 * blks <= |buf| < pos + 80 + 40 * blks
      invariant Comb(cs, BlockAt(buf, pos), 5) == Crc(c, buf[pos0..pos + 40])
    {
      var cs' := AdvanceBraids(braid, cs, buf, pos, addr);
      NextBlock(cs, cs', c, buf, pos0, pos);
      cs, pos, blks := cs', pos + 40, blks - 1;
    }
    r := CombineBraids(table, cs, buf, pos, addr);
    pos := pos + 40;
  }

  lemma FirstBlock(c: Reg, buf: seq<Byte>, pos: nat)
    requires pos + 40 <= |buf|
    ensures |BlockAt(buf, pos)| == 40 && Comb([c, ZERO, ZERO, ZERO, ZERO], BlockAt(buf, pos), 5) ==
      Crc(c, buf[pos..pos + 40])
  {
    hide Crc, Comb;
    CombStart(c, BlockAt(buf, pos), 5);
    assert buf[pos..pos + 40][..40] == buf[pos..pos + 40];
  }

  lemma NextBlock(cs: seq<Reg>, cs': seq<Reg>, c: Reg, buf: seq<Byte>, pos0: nat, pos: nat)
    requires pos0 <= pos && pos + 80 <= |buf| && Advanced(cs, BlockAt(buf, pos), cs')
    requires Comb(cs, BlockAt(buf, pos), 5) == Crc(c, buf[pos0..pos + 40])
    ensures |cs'| == 5 && |BlockAt(buf, pos + 40)| == 40
    ensures Comb(cs', BlockAt(buf, pos + 40), 5) == Crc(c, buf[pos0..pos + 80])
  {
    hide Crc, Comb, XTimes;
    CombNext(cs, BlockAt(buf, pos), cs', BlockAt(buf, pos + 40));
    assert buf[pos0..pos + 80] == buf[pos0..pos + 40] + buf[pos + 40..pos + 80];
    CrcConcat(c, buf[pos0..pos + 40], buf[pos + 40..pos + 80]);
  }

  /** crc32_braid, for a buffer at address addr: the CRC of one byte after the other, whatever the start value, the
      length and the alignment. */
  method CrcBraid(table: seq<Reg>, braid: seq<seq<Reg>>, crc0: Reg, buf: seq<Byte>, addr: nat) returns (r: Reg)
    requires IsCrcTable(table) && IsBraid(braid)
    ensures r == Not(Crc(Not(crc0), buf))
    ensures forall c: Reg :: (forall i :: 0 <= i < 32 ==> c[i] == !crc0[i]) ==>
      forall i :: 0 <= i < 32 ==> r[i] == !Crc(c, buf)[i]
  {
    hide XTimes, Crc, Xor, IsCrcTable, IsBraid, Not;
    var crc, pos := Not(crc0), 0;
    assert buf[..0] == [];
    NothingYet(crc, buf);
    if |buf| >= BRAID_N * BRAID_W + BRAID_W - 1 {
      var align := (8 - addr % 8) % 8;
      crc := CrcSmall(table, crc, buf[..align]);
      var next;
      next, pos := Braids(table, braid, crc, buf, align, addr);
      assert buf[..pos] == buf[..align] + buf[align..pos];
      CrcConcat(Not(crc0), buf[..align], buf[align..pos]);
      crc := next;
    }
    assert buf == buf[..pos] + buf[pos..];
    CrcConcat(Not(crc0), buf[..pos], buf[pos..]);
    crc := CrcSmall(table, crc, buf[pos..]);
    r := Not(crc);
    Complemented(crc0, buf);
  }

  /** The register before and after: every bit of the start value and of the result is turned over. */
  lemma Complemented(crc0: Reg, buf: seq<Byte>)
    ensures forall c: Reg :: (forall i :: 0 <= i < 32 ==> c[i] == !crc0[i]) ==>
      forall i :: 0 <= i < 32 ==> Not(Crc(Not(crc0), buf))[i] == !Crc(c, buf)[i]
  {
    hide Crc;
    forall c: Reg | forall i :: 0 <= i < 32 ==> c[i] == !crc0[i]
      ensures forall i :: 0 <= i < 32 ==> Not(Crc(Not(crc0), buf))[i] == !Crc(c, buf)[i]
    {
      assert c == Not(crc0);
    }
  }

  lemma NothingYet(c: Reg, buf: seq<Byte>)
    ensures Crc(c, buf[..0]) == c
  {
  }

  // ---- crc32_combine_ ----

  /** The checksum of data: the register is complemented before and after. */
  function Checksum(data: seq<Byte>): (r: Reg)
    ensures forall c: Reg :: (forall i :: 0 <= i < 32 ==> c[i]) ==>
      forall i :: 0 <= i < 32 ==> r[i] == !Crc(c, data)[i]
  {
    Complemented(ZERO, data);
    Not(Crc(Not(ZERO), data))
  }

  /** crc32_combine_. */
  method Combine(crc1: Reg, crc2: Reg, len2: int, x2n: seq<Reg>) returns (r: Reg)
    requires IsX2n(x2n)
    ensures len2 < 0 ==> r == ZERO
    ensures len2 >= 0 ==> r == Xor(XTimes(Exponent(len2, 3), crc1), crc2)
  {
    hide XTimes, Xor, IsX2n, Product;
    if len2 < 0 {
      return ZERO;
    }
    var p := X2nModP(len2, 3, x2n);
    PowerNotZero(Exponent(len2, 3));
    ProductTimes(Exponent(len2, 3), crc1);
    p := MultModP(p, crc1);
    r := Xor(p, crc2);
  }

  lemma CombineSums(a: Reg, z: Reg, q: Reg)
    ensures Xor(Xor(a, z), Not(Xor(z, q))) == Not(Xor(a, q))
  {
    var l, r := Xor(Xor(a, z), Not(Xor(z, q))), Not(Xor(a, q));
    forall i | 0 <= i < 32
      ensures l[i] == r[i]
    {
    }
    assert l == r;
  }

  lemma NotXor(c: Reg)
    ensures Not(c) == Xor(c, Not(ZERO))
  {
  }

  /** Moving the first checksum on by the length of the second string gives the checksum of both. */
  lemma ChecksumConcat(a: seq<Byte>, b: seq<Byte>)
    ensures Xor(XTimes(8 * |b|, Checksum(a)), Checksum(b)) == Checksum(a + b)
  {
    hide XTimes, Crc, Xor;
    var n := 8 * |b|;
    CrcConcat(Not(ZERO), a, b);
    var c, q := Crc(Not(ZERO), a), Crc(ZERO, b);
    CrcLinear(c, b);
    CrcLinear(Not(ZERO), b);
    XorTimes(n, c, Not(ZERO));
    NotXor(c);
    CombineSums(XTimes(n, c), XTimes(n, Not(ZERO)), q);
  }
}
