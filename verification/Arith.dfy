/** The few facts about products and quotients that the other modules need. */
module Arith {

  lemma MulAssoc(x: int, y: int, z: int)
    ensures x * (y * z) == (x * y) * z
  {
  }

  lemma Distrib(a: int, b: int, c: int)
    ensures (a + b) * c == a * c + b * c
  {
  }

  lemma DistribLeft(a: int, b: int, c: int)
    ensures a * (b + c) == a * b + a * c
  {
  }

  lemma MulLe(a: nat, b: nat, c: nat)
    requires a <= b
    ensures a * c <= b * c
  {
  }

  /** a < b leaves room for one more c. */
  lemma MulLt(a: nat, b: nat, c: nat)
    requires a < b
    ensures a * c + c <= b * c
  {
    MulLe(a + 1, b, c);
    Distrib(a, 1, c);
  }

  /** Quotient and remainder are determined by x*z + r. */
  lemma Between(a: nat, x: nat, r: nat, z: nat)
    requires r < z
    requires a * z <= x * z + r < a * z + z
    ensures a == x
  {
    if a < x {
      MulLt(a, x, z);
    } else if x < a {
      MulLt(x, a, z);
    }
  }

  lemma DivMul(d: nat, z: nat)
    requires z > 0
    ensures d / z * z <= d < d / z * z + z
  {
    assert d == d / z * z + d % z;
  }

  lemma Scaled(x: nat, y: nat, p: nat, q: nat)
    requires y < p
    requires q > 0
    ensures x * (p * q) <= (x * p + y) * q <= x * (p * q) + p * q - q
  {
    Distrib(x * p, y, q);
    MulAssoc(x, p, q);
    MulLt(y, p, q);
  }

  /** A product that proofs may hide. */
  function Times(a: int, b: int): (r: int) { a * b }

  /** x is m times p. Proofs that only step through multiples hide the product. */
  predicate IsMul(x: int, m: nat, p: nat) { x == m * p }

  lemma MulDown(x: int, m: nat, p: nat)
    requires IsMul(x, m, p) && x != 0
    ensures m > 0 && p > 0 && IsMul(x - p, m - 1, p) && x - p >= 0
  {
    Distrib(m - 1, 1, p);
  }

  lemma MulBetween(lo: nat, m: nat, x: nat, r: nat, z: nat)
    requires IsMul(lo, m, z) && r < z && lo <= z * x + r < lo + z
    ensures lo == z * x
  {
    Between(m, x, r, z);
  }

  /** The remainder of q*d + r. */
  lemma ModIs(q: nat, r: nat, d: nat)
    requires r < d
    ensures (q * d + r) % d == r && (q * d + r) / d == q
  {
    var x := q * d + r;
    DivMul(x, d);
    Between(q, x / d, x - x / d * d, d);
  }

  lemma ModBack(x: nat, d: nat)
    requires 0 < d <= x
    ensures (x - d) % d == x % d
  {
    DivMul(x, d);
    var q, r := x / d, x - x / d * d;
    Distrib(q - 1, 1, d);
    ModIs(q, r, d);
    ModIs(q - 1, r, d);
  }

  /** Whole multiples do not change a remainder. */
  lemma ModSum(x: nat, y: nat, d: nat)
    requires d > 0 && x % d == 0
    ensures (x + y) % d == y % d
  {
    DivMul(x, d);
    DivMul(y, d);
    var q, p, r := x / d, y / d, y - y / d * d;
    assert x == q * d;
    Distrib(q, p, d);
    ModIs(p, r, d);
    ModIs(q + p, r, d);
  }

  lemma ModSmall(x: nat, d: nat)
    requires x < d
    ensures x % d == x
  {
  }
}
