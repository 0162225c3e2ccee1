/** utils/maketrees.c tr_static_init: the loops that generate zng_length_code and zng_dist_code. */
module MakeTables {
  import opened Bits
  import opened MatchCodes

  function Filled(t: seq<nat>, k: nat, n: nat): (r: seq<nat>)
    ensures |r| == |t| + n && r[..|t|] == t && forall i :: |t| <= i < |r| ==> r[i] == k
  {
    t + seq(n, i => k)
  }

  /** The inner loop: n entries for code k. */
  method FillCode(t: seq<nat>, k: nat, n: nat) returns (r: seq<nat>)
    ensures r == Filled(t, k, n)
  {
    r := t;
    for i := 0 to n
      invariant r == Filled(t, k, i)
    {
      r := r + [k];
    }
  }

  /** length_code before its last entry is overwritten. */
  method LengthLoop() returns (t: seq<nat>)
    ensures |t| == 256 && forall lc :: 0 <= lc < 256 ==> t[lc] == FindL(lc, 27)
  {
    hide BaseL, Pow2, ExtraL, FindL;
    t := [];
    Ends();
    for code := 0 to 28
      invariant |t| == BaseL(code) && forall lc :: 0 <= lc < |t| ==> t[lc] == FindL(lc, 27)
    {
      BaseLStep(code);
      forall v: nat | BaseL(code) <= v < BaseL(code + 1)
        ensures FindL(v, 27) == code
      {
        FindLIs(v, code, 27);
      }
      ghost var t0 := t;
      t := FillCode(t, code, Pow2(ExtraL(code)));
      assert forall lc :: 0 <= lc < |t0| ==> t[lc] == t0[lc];
    }
  }

  method MakeLengthCode() returns (t: seq<nat>)
    ensures |t| == 256 && forall lc :: 0 <= lc < 256 ==> t[lc] == LengthCode(lc)
  {
    t := LengthLoop();
    t := t[255 := 28];
  }

  /** The lower half: one entry for every distance below 256. */
  method NearLoop() returns (t: seq<nat>)
    ensures |t| == 256 && forall d :: 0 <= d < 256 ==> t[d] == DistCode(d)
  {
    hide BaseD, Pow2, ExtraD, FindD;
    t := [];
    Ends();
    for code := 0 to 16
      invariant |t| == BaseD(code) && forall d :: 0 <= d < |t| ==> t[d] == DistCode(d)
    {
      BaseDStep(code);
      forall v: nat | BaseD(code) <= v < BaseD(code + 1)
        ensures FindD(v, 29) == code
      {
        FindDIs(v, code, 29);
      }
      ghost var t0 := t;
      t := FillCode(t, code, Pow2(ExtraD(code)));
      assert forall d :: 0 <= d < |t0| ==> t[d] == t0[d];
    }
  }

  /** From code 16 on the ranges are made of whole blocks of 128 distances. */
  lemma FarStep(code: nat, dist: nat)
    requires 16 <= code < 30 && BaseD(code) == 128 * dist
    ensures ExtraD(code) >= 7
    ensures BaseD(code + 1) == 128 * (dist + Pow2(ExtraD(code) - 7))
  {
    BaseDStep(code);
    Pow2Add(7, ExtraD(code) - 7);
    Pow2Table();
  }

  method FarLoop() returns (t: seq<nat>)
    ensures |t| == 256 && forall j :: 2 <= j < 256 ==> t[j] == DistCode(128 * j)
  {
    hide BaseD, Pow2, ExtraD, FindD;
    t := [0, 0];
    Ends();
    for code := 16 to 30
      invariant 128 * |t| == BaseD(code) && forall j :: 2 <= j < |t| ==> t[j] == DistCode(128 * j)
    {
      FarStep(code, |t|);
      BaseDStep(code);
      ghost var t0 := t;
      t := FillCode(t, code, Pow2(ExtraD(code) - 7));
      assert forall j :: 0 <= j < |t0| ==> t[j] == t0[j];
      forall j | |t0| <= j < |t|
        ensures t[j] == DistCode(128 * j)
      {
        FindDIs(128 * j, code, 29);
      }
    }
  }

  lemma FarCode(d: nat)
    requires 256 <= d < 32768
    ensures DistCode(128 * (d / 128)) == DistCode(d)
  {
    hide BaseD, Pow2, ExtraD, FindD;
    DistRange(d);
    var k := DistCode(d);
    if k < 16 {
      Ends();
      if k < 16 { BaseDMono(k, 16); }
    }
    FarBase(k);
    FindDIs(128 * (d / 128), k, 29);
  }

  lemma {:induction false} FarBase(k: nat)
    requires 16 <= k <= 30
    ensures BaseD(k) % 128 == 0
  {
    hide BaseD, Pow2, ExtraD;
    if k == 16 {
      Ends();
    } else {
      FarBase(k - 1);
      FarStep(k - 1, BaseD(k - 1) / 128);
    }
  }

  /** The whole table answers d_code for every distance. */
  method MakeDistCode() returns (t: seq<nat>)
    ensures |t| == 512
    ensures forall d :: 0 <= d < 32768 ==> DistCode(d) == if d < 256 then t[d] else t[256 + d / 128]
  {
    hide FindD;
    var near := NearLoop();
    var far := FarLoop();
    t := near + far;
    forall d | 0 <= d < 32768
      ensures DistCode(d) == if d < 256 then t[d] else t[256 + d / 128]
    {
      if d >= 256 {
        FarCode(d);
        assert t[256 + d / 128] == far[d / 128];
      }
    }
  }
}
