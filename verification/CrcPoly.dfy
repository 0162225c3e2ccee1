/** Polynomials over GF(2) modulo the CRC polynomial, as utils/makecrct.c and crc32_braid_comb_p.h compute with them: 32
    bits with the lowest power in the most significant bit, so that adding is exclusive or and multiplying by x is a
    shift. */
module CrcPoly {
  import opened Bits

  type Reg = b: Bits | |b| == 32 witness seq(32, i => false)

  const ZERO: Reg := Zeros(32)

  /** 0xedb88320: p(x) reflected, with x^32 implied. */
  const POLY: Reg := [
    false, false, false, false, false, true, false, false, true, true, false, false, false, false, false, true,
    false, false, false, true, true, true, false, true, true, false, true, true, false, true, true, true]

  /** The k-th bit alone: x^(31 - k). */
  function Unit(k: nat): (r: Reg) { seq(32, i => i == k) }

  const ONE: Reg := Unit(31)

  // ---- exclusive or ----

  lemma XorComm(a: Bits, b: Bits)
    requires |a| == |b|
    ensures Xor(a, b) == Xor(b, a)
  {
  }

  lemma XorAssoc(a: Bits, b: Bits, c: Bits)
    requires |a| == |b| == |c|
    ensures Xor(Xor(a, b), c) == Xor(a, Xor(b, c))
  {
  }

  lemma XorZero(a: Bits)
    ensures Xor(a, Zeros(|a|)) == a && Xor(Zeros(|a|), a) == a
  {
  }

  lemma XorSelf(a: Bits)
    ensures Xor(a, a) == Zeros(|a|)
  {
  }

  /** (a + b) + (c + d) == (a + c) + (b + d). */
  lemma XorSwap(a: Bits, b: Bits, c: Bits, d: Bits)
    requires |a| == |b| == |c| == |d|
    ensures Xor(Xor(a, b), Xor(c, d)) == Xor(Xor(a, c), Xor(b, d))
  {
  }

  // ---- powers of x ----

  function Half(v: Reg): (r: Reg) { v[1..] + [false] }

  /** Multiply by x. */
  function X(v: Reg): (r: Reg) { if v[0] then Xor(Half(v), POLY) else Half(v) }

  /** Multiply by x^n. */
  function XTimes(n: nat, v: Reg): (r: Reg)
    decreases n
  {
    if n == 0 then v else XTimes(n - 1, X(v))
  }

  lemma XorHalf(a: Reg, b: Reg)
    ensures Half(Xor(a, b)) == Xor(Half(a), Half(b))
  {
  }

  lemma XorX(a: Reg, b: Reg)
    ensures X(Xor(a, b)) == Xor(X(a), X(b))
  {
    hide Half, Xor;
    XorHalf(a, b);
    LowBit(a, b);
    var h, k := Half(a), Half(b);
    if a[0] && b[0] {
      XorSwap(h, POLY, k, POLY);
      XorSelf(POLY);
      XorZero(Xor(h, k));
    } else if a[0] {
      XorAssoc(h, POLY, k);
      XorComm(POLY, k);
      XorAssoc(h, k, POLY);
    } else if b[0] {
      XorAssoc(h, k, POLY);
    }
  }

  lemma LowBit(a: Reg, b: Reg)
    ensures Xor(a, b)[0] == (a[0] != b[0])
  {
  }

  lemma XZero()
    ensures X(ZERO) == ZERO
  {
  }

  lemma {:induction false} XorTimes(n: nat, a: Reg, b: Reg)
    ensures XTimes(n, Xor(a, b)) == Xor(XTimes(n, a), XTimes(n, b))
    decreases n
  {
    hide X, Xor;
    if n > 0 {
      XorX(a, b);
      XorTimes(n - 1, X(a), X(b));
    }
  }

  lemma {:induction false} TimesZero(n: nat)
    ensures XTimes(n, ZERO) == ZERO
    decreases n
  {
    hide X;
    if n > 0 {
      XZero();
      TimesZero(n - 1);
    }
  }

  lemma {:induction false} TimesTimes(m: nat, n: nat, v: Reg)
    ensures XTimes(m, XTimes(n, v)) == XTimes(m + n, v)
    decreases n
  {
    hide X;
    if n > 0 { TimesTimes(m, n - 1, X(v)); }
  }

  lemma {:induction false} TimesX(n: nat, v: Reg)
    ensures X(XTimes(n, v)) == XTimes(n, X(v))
    decreases n
  {
    hide X;
    if n > 0 { TimesX(n - 1, X(v)); }
  }

  // ---- products ----

  function If(b: bool, v: Reg): (r: Reg) { if b then v else ZERO }

  /** The product of the powers of a from bit n - 1 down with v, which is multiplied by x for each of them. */
  function Mul(a: Reg, n: nat, v: Reg): (r: Reg)
    requires n <= 32
    decreases n
  {
    if n == 0 then ZERO else Xor(If(a[n - 1], v), Mul(a, n - 1, X(v)))
  }

  lemma XorIf(b: bool, v: Reg, w: Reg)
    ensures If(b, Xor(v, w)) == Xor(If(b, v), If(b, w)) && X(If(b, v)) == If(b, X(v))
  {
    hide X;
    XZero();
    XorZero(ZERO);
  }

  lemma {:induction false} MulXor(a: Reg, n: nat, v: Reg, w: Reg)
    requires n <= 32
    ensures Mul(a, n, Xor(v, w)) == Xor(Mul(a, n, v), Mul(a, n, w))
    decreases n
  {
    hide X, Xor, If;
    if n == 0 {
      XorZero(ZERO);
    } else {
      XorX(v, w);
      MulXor(a, n - 1, X(v), X(w));
      XorIf(a[n - 1], v, w);
      XorSwap(If(a[n - 1], v), If(a[n - 1], w), Mul(a, n - 1, X(v)), Mul(a, n - 1, X(w)));
    }
  }

  lemma {:induction false} MulX(a: Reg, n: nat, v: Reg)
    requires n <= 32
    ensures Mul(a, n, X(v)) == X(Mul(a, n, v))
    decreases n
  {
    hide X, Xor, If;
    if n == 0 {
      XZero();
    } else {
      MulX(a, n - 1, X(v));
      XorIf(a[n - 1], v, v);
      XorX(If(a[n - 1], v), Mul(a, n - 1, X(v)));
    }
  }

  lemma {:induction false} MulZero(a: Reg, n: nat)
    requires n <= 32
    ensures Mul(a, n, ZERO) == ZERO
    decreases n
  {
    hide X, Xor;
    if n > 0 {
      XZero();
      MulZero(a, n - 1);
      XorZero(ZERO);
    }
  }

  lemma MulIf(a: Reg, n: nat, b: bool, v: Reg)
    requires n <= 32
    ensures Mul(a, n, If(b, v)) == If(b, Mul(a, n, v))
  {
    MulZero(a, n);
  }

  /** Both are polynomials in x, applied to v. */
  lemma {:induction false} MulMul(a: Reg, m: nat, b: Reg, n: nat, v: Reg)
    requires m <= 32 && n <= 32
    ensures Mul(a, m, Mul(b, n, v)) == Mul(b, n, Mul(a, m, v))
    decreases m
  {
    hide X, Xor, If;
    if m == 0 {
      MulZero(b, n);
    } else {
      MulX(b, n, v);
      MulMul(a, m - 1, b, n, X(v));
      MulIf(b, n, a[m - 1], v);
      MulXor(b, n, If(a[m - 1], v), Mul(a, m - 1, X(v)));
    }
  }

  lemma UnitX(k: nat)
    requires 1 <= k < 32
    ensures X(Unit(k)) == Unit(k - 1)
  {
    hide POLY;
    assert !Unit(k)[0];
    assert Half(Unit(k)) == Unit(k - 1);
  }

  /** a(x) is the sum of its powers. */
  lemma {:induction false} MulUnit(a: Reg, n: nat)
    requires 1 <= n <= 32
    ensures Mul(a, n, Unit(n - 1)) == a[..n] + Zeros(32 - n)
    decreases n
  {
    hide X;
    var u := Unit(n - 1);
    if n == 1 {
      assert Mul(a, 0, X(u)) == ZERO;
    } else {
      UnitX(n - 1);
      MulUnit(a, n - 1);
    }
    assert Xor(If(a[n - 1], u), a[..n - 1] + Zeros(33 - n)) == a[..n] + Zeros(32 - n);
  }

  /** a(x) * b(x) modulo p(x). */
  function Product(a: Reg, b: Reg): (r: Reg) { Mul(a, 32, b) }

  lemma ProductOne(a: Reg)
    ensures Product(a, ONE) == a
  {
    MulUnit(a, 32);
    assert a[..32] + Zeros(0) == a;
  }

  lemma ProductCommutes(a: Reg, b: Reg)
    ensures Product(a, b) == Product(b, a)
  {
    hide Mul;
    ProductOne(a);
    ProductOne(b);
    MulMul(a, 32, b, 32, ONE);
  }

  /** Multiplying by x^n is the product with x^n. */
  lemma {:induction false} ProductTimes(n: nat, v: Reg)
    ensures Product(XTimes(n, ONE), v) == XTimes(n, v)
    decreases n
  {
    hide X, Mul;
    if n == 0 {
      ProductCommutes(ONE, v);
      ProductOne(v);
    } else {
      var a := XTimes(n - 1, ONE);
      ProductTimes(n - 1, v);
      TimesX(n - 1, ONE);
      TimesX(n - 1, v);
      ProductCommutes(X(a), v);
      MulX(v, 32, a);
      ProductCommutes(v, a);
    }
  }
}
