/** The length and distance codes, section 3.2.5 of RFC 1951: the tables that utils/maketrees.c generates for the
    encoder, and their agreement with the base and extra tables of inftrees.c. */
module MatchCodes {
  import opened Arith
  import opened Bits
  import opened TableSpec

  const LENGTH_CODES: nat := 29
  const D_CODES: nat := 30

  /** extra_lbits. */
  function ExtraL(k: nat): (n: nat) { if k < 8 || k >= 28 then 0 else k / 4 - 1 }

  /** extra_dbits. */
  function ExtraD(k: nat): (n: nat) { if k < 4 then 0 else k / 2 - 1 }

  /** The first match length, less 3, of length code k < 28, and the end of the last one. */
  function BaseL(k: nat): (b: nat) { if k < 8 then k else (4 + k % 4) * Pow2(k / 4 - 1) }

  /** The first distance, less 1, of distance code k, and the end of the last one. */
  function BaseD(k: nat): (b: nat) { if k < 4 then k else (2 + k % 2) * Pow2(k / 2 - 1) }

  /** Codes are contiguous: each starts where the one before ends. */
  lemma BaseLStep(k: nat)
    requires k < 28
    ensures BaseL(k + 1) == BaseL(k) + Pow2(ExtraL(k))
    ensures exists m: nat :: BaseL(k) == m * Pow2(ExtraL(k))
  {
    if k < 8 {
      assert BaseL(k) == k * Pow2(0);
    } else {
      var e, m := k / 4 - 1, 4 + k % 4;
      Pow2Next(e);
      hide Pow2;
      Distrib(m, 1, Pow2(e));
      if k % 4 == 3 {
        assert (k + 1) / 4 - 1 == e + 1 && (k + 1) % 4 == 0;
      } else {
        assert (k + 1) / 4 - 1 == e && (k + 1) % 4 == k % 4 + 1;
      }
      assert BaseL(k) == m * Pow2(e);
    }
  }

  lemma Pow2Next(e: nat)
    ensures Pow2(e + 1) == 2 * Pow2(e)
  {
  }

  lemma BaseDStep(k: nat)
    requires k < 30
    ensures BaseD(k + 1) == BaseD(k) + Pow2(ExtraD(k))
    ensures exists m: nat :: BaseD(k) == m * Pow2(ExtraD(k))
  {
    if k < 4 {
      assert BaseD(k) == k * Pow2(0);
    } else {
      var e, m := k / 2 - 1, 2 + k % 2;
      Distrib(m, 1, Pow2(e));
      if k % 2 == 1 {
        assert (k + 1) / 2 - 1 == e + 1 && (k + 1) % 2 == 0;
        assert Pow2(e + 1) == 2 * Pow2(e);
      }
      assert BaseD(k) == m * Pow2(e);
    }
  }

  lemma Ends()
    ensures BaseL(0) == 0 && BaseL(28) == 256 && BaseD(0) == 0 && BaseD(16) == 256 && BaseD(30) == 32768
  {
    Pow2Table();
  }

  lemma {:induction false} BaseLMono(j: nat, k: nat)
    requires j < k <= 28
    ensures BaseL(j) + Pow2(ExtraL(j)) <= BaseL(k)
    decreases k - j
  {
    BaseLStep(k - 1);
    hide BaseL, Pow2, ExtraL;
    if j < k - 1 { BaseLMono(j, k - 1); }
  }

  lemma {:induction false} BaseDMono(j: nat, k: nat)
    requires j < k <= 30
    ensures BaseD(j) + Pow2(ExtraD(j)) <= BaseD(k)
    decreases k - j
  {
    BaseDStep(k - 1);
    hide BaseD, Pow2, ExtraD;
    if j < k - 1 { BaseDMono(j, k - 1); }
  }

  // ---- the code of a length and of a distance ----

  function FindL(v: nat, k: nat): (c: nat)
    ensures c <= k && (BaseL(c) <= v || c == 0)
  {
    if k == 0 || BaseL(k) <= v then k else FindL(v, k - 1)
  }

  function FindD(v: nat, k: nat): (c: nat)
    ensures c <= k && (BaseD(c) <= v || c == 0)
  {
    if k == 0 || BaseD(k) <= v then k else FindD(v, k - 1)
  }

  /** zng_length_code: the length 258 has a code of its own. */
  function LengthCode(lc: nat): (k: nat)
    ensures k < LENGTH_CODES
  {
    if lc == 255 then 28 else FindL(lc, 27)
  }

  /** d_code. */
  function DistCode(d: nat): (k: nat)
    ensures k < D_CODES
  {
    FindD(d, 29)
  }

  lemma {:induction false} FindLIs(v: nat, c: nat, k: nat)
    requires c <= k < 28 && BaseL(c) <= v < BaseL(c) + Pow2(ExtraL(c))
    ensures FindL(v, k) == c
    decreases k
  {
    if c < k {
      BaseLMono(c, k);
      hide BaseL, Pow2, ExtraL;
      FindLIs(v, c, k - 1);
    }
  }

  lemma {:induction false} FindDIs(v: nat, c: nat, k: nat)
    requires c <= k < 30 && BaseD(c) <= v < BaseD(c) + Pow2(ExtraD(c))
    ensures FindD(v, k) == c
    decreases k
  {
    if c < k {
      BaseDMono(c, k);
      hide BaseD, Pow2, ExtraD;
      FindDIs(v, c, k - 1);
    }
  }

  lemma {:induction false} FindLRange(v: nat, k: nat)
    requires k < 28 && v < BaseL(k + 1)
    ensures BaseL(FindL(v, k)) <= v < BaseL(FindL(v, k)) + Pow2(ExtraL(FindL(v, k)))
    decreases k
  {
    BaseLStep(k);
    Ends();
    hide BaseL, Pow2, ExtraL;
    if k > 0 && BaseL(k) > v { FindLRange(v, k - 1); }
  }

  lemma {:induction false} FindDRange(v: nat, k: nat)
    requires k < 30 && v < BaseD(k + 1)
    ensures BaseD(FindD(v, k)) <= v < BaseD(FindD(v, k)) + Pow2(ExtraD(FindD(v, k)))
    decreases k
  {
    BaseDStep(k);
    Ends();
    hide BaseD, Pow2, ExtraD;
    if k > 0 && BaseD(k) > v { FindDRange(v, k - 1); }
  }

  /** Every normalized length lies in the range of its code. */
  lemma LengthRange(lc: nat)
    requires lc < 255
    ensures LengthCode(lc) < 28 && BaseL(LengthCode(lc)) <= lc < BaseL(LengthCode(lc)) + Pow2(ExtraL(LengthCode(lc)))
  {
    hide BaseL, Pow2, ExtraL;
    Ends();
    FindLRange(lc, 27);
  }

  lemma DistRange(d: nat)
    requires d < 32768
    ensures BaseD(DistCode(d)) <= d < BaseD(DistCode(d)) + Pow2(ExtraD(DistCode(d)))
  {
    hide BaseD, Pow2, ExtraD;
    Ends();
    FindDRange(d, 29);
  }

  // ---- agreement with the decoder's tables ----

  lemma LTable0(k: nat)
    requires 0 <= k < 8
    ensures LBASE[k] == BaseL(k) + 3 && LEXT[k] == 16 + ExtraL(k)
  {
    Pow2Table();
  }

  lemma LTable1(k: nat)
    requires 8 <= k < 12
    ensures LBASE[k] == BaseL(k) + 3 && LEXT[k] == 16 + ExtraL(k)
  {
    Pow2Table();
  }

  lemma LTable2(k: nat)
    requires 12 <= k < 16
    ensures LBASE[k] == BaseL(k) + 3 && LEXT[k] == 16 + ExtraL(k)
  {
    Pow2Table();
  }

  lemma LTable3(k: nat)
    requires 16 <= k < 20
    ensures LBASE[k] == BaseL(k) + 3 && LEXT[k] == 16 + ExtraL(k)
  {
    Pow2Table();
  }

  lemma LTable4(k: nat)
    requires 20 <= k < 24
    ensures LBASE[k] == BaseL(k) + 3 && LEXT[k] == 16 + ExtraL(k)
  {
    Pow2Table();
  }

  lemma LTable5(k: nat)
    requires 24 <= k < 28
    ensures LBASE[k] == BaseL(k) + 3 && LEXT[k] == 16 + ExtraL(k)
  {
    Pow2Table();
  }

  lemma LTable(k: nat)
    requires k < 28
    ensures LBASE[k] == BaseL(k) + 3 && LEXT[k] == 16 + ExtraL(k)
  {
    hide BaseL, ExtraL;
    if k < 8 {
      LTable0(k);
    } else if k < 12 {
      LTable1(k);
    } else if k < 16 {
      LTable2(k);
    } else if k < 20 {
      LTable3(k);
    } else if k < 24 {
      LTable4(k);
    } else {
      LTable5(k);
    }
  }

  lemma DTable0(k: nat)
    requires 0 <= k < 8
    ensures DBASE[k] == BaseD(k) + 1 && DEXT[k] == 16 + ExtraD(k)
  {
    Pow2Table();
  }

  lemma DTable1(k: nat)
    requires 8 <= k < 12
    ensures DBASE[k] == BaseD(k) + 1 && DEXT[k] == 16 + ExtraD(k)
  {
    Pow2Table();
  }

  lemma DTable2(k: nat)
    requires 12 <= k < 16
    ensures DBASE[k] == BaseD(k) + 1 && DEXT[k] == 16 + ExtraD(k)
  {
    Pow2Table();
  }

  lemma DTable3(k: nat)
    requires 16 <= k < 20
    ensures DBASE[k] == BaseD(k) + 1 && DEXT[k] == 16 + ExtraD(k)
  {
    Pow2Table();
  }

  lemma DTable4(k: nat)
    requires 20 <= k < 23
    ensures DBASE[k] == BaseD(k) + 1 && DEXT[k] == 16 + ExtraD(k)
  {
    Pow2Table();
  }

  lemma DTable5(k: nat)
    requires 23 <= k < 26
    ensures DBASE[k] == BaseD(k) + 1 && DEXT[k] == 16 + ExtraD(k)
  {
    Pow2Table();
  }

  lemma DTable6(k: nat)
    requires 26 <= k < 28
    ensures DBASE[k] == BaseD(k) + 1 && DEXT[k] == 16 + ExtraD(k)
  {
    Pow2Table();
  }

  lemma DTable7(k: nat)
    requires k == 28
    ensures DBASE[k] == BaseD(k) + 1 && DEXT[k] == 16 + ExtraD(k)
  {
    Pow2Table();
  }

  lemma DTable8(k: nat)
    requires k == 29
    ensures DBASE[k] == BaseD(k) + 1 && DEXT[k] == 16 + ExtraD(k)
  {
    Pow2Table();
  }

  lemma DTable(k: nat)
    requires k < 30
    ensures DBASE[k] == BaseD(k) + 1 && DEXT[k] == 16 + ExtraD(k)
  {
    hide BaseD, ExtraD;
    if k < 8 {
      DTable0(k);
    } else if k < 12 {
      DTable1(k);
    } else if k < 16 {
      DTable2(k);
    } else if k < 20 {
      DTable3(k);
    } else if k < 23 {
      DTable4(k);
    } else if k < 26 {
      DTable5(k);
    } else if k < 28 {
      DTable6(k);
    } else if k == 28 {
      DTable7(k);
    } else {
      DTable8(k);
    }
  }

  /** A length is its base plus its extra bits, for the tables of both sides. */
  lemma LengthDecodes(lc: nat)
    requires lc < 256
    ensures LengthCode(lc) < 29 && LEXT[LengthCode(lc)] == 16 + ExtraL(LengthCode(lc))
    ensures LBASE[LengthCode(lc)] + Low(lc, ExtraL(LengthCode(lc))) == lc + 3
  {
    var k := LengthCode(lc);
    if lc == 255 {
      assert ToBits(lc, 0) == [];
    } else {
      LengthRange(lc);
      BaseLStep(k);
      var m: nat :| BaseL(k) == m * Pow2(ExtraL(k));
      hide BaseL, ExtraL, Pow2, LengthCode, Low;
      LowOfMultiple(lc, m, ExtraL(k));
      LTable(k);
    }
  }

  lemma DistDecodes(d: nat)
    requires d < 32768
    ensures DistCode(d) < 30 && DEXT[DistCode(d)] == 16 + ExtraD(DistCode(d))
    ensures DBASE[DistCode(d)] + Low(d, ExtraD(DistCode(d))) == d + 1
  {
    var k := DistCode(d);
    DistRange(d);
    BaseDStep(k);
    var m: nat :| BaseD(k) == m * Pow2(ExtraD(k));
    hide BaseD, ExtraD, Pow2, DistCode, Low;
    LowOfMultiple(d, m, ExtraD(k));
    DTable(k);
  }

  lemma {:induction false} LowIsMod(v: nat, n: nat)
    ensures Low(v, n) == v % Pow2(n)
  {
    if n > 0 {
      LowIsMod(v / 2, n - 1);
      assert ToBits(v, n)[1..] == ToBits(v / 2, n - 1);
      ModDouble(v, Pow2(n - 1));
    }
  }

  lemma ModDouble(v: nat, p: nat)
    requires p > 0
    ensures v % (2 * p) == v % 2 + 2 * (v / 2 % p)
  {
    var h := v / 2;
    var q, r := h / p, h % p;
    assert h == p * q + r;
    assert v == 2 * h + v % 2;
    MulAssoc(2, p, q);
    ModUnique(v, 2 * p, q, v % 2 + 2 * r);
  }

  lemma ModUnique(v: nat, z: nat, q: nat, r: nat)
    requires v == z * q + r && r < z
    ensures v % z == r
  {
    assert v == z * (v / z) + v % z;
    Between(v / z, q, r, z);
  }

  lemma LowOfMultiple(v: nat, m: nat, n: nat)
    requires m * Pow2(n) <= v < m * Pow2(n) + Pow2(n)
    ensures Low(v, n) == v - m * Pow2(n)
  {
    LowIsMod(v, n);
    ModUnique(v, Pow2(n), m, v - m * Pow2(n));
  }
}
