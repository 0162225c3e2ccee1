/** The fixed codes of section 3.2.6 of RFC 1951, as utils/maketrees.c generates them, and codes that agree on their
    common symbols. */
module FixedCodes {
  import opened Bits
  import opened Slices
  import opened Counting
  import opened Canonical
  import opened GenCodes

  /** Code lengths of the fixed literal/length code. */
  function FixedL(): (lens: seq<nat>)
    ensures |lens| == 288
  {
    Repeat(8, 144) + Repeat(9, 112) + Repeat(7, 24) + Repeat(8, 8)
  }

  /** n distance codes of five bits: 32 make the code complete, 30 can be used. */
  function FixedD(n: nat): (lens: seq<nat>)
    ensures |lens| == n
  {
    Repeat(5, n)
  }

  lemma FixedLCount(l: nat)
    ensures Count(FixedL(), l) == if l == 7 then 24 else if l == 8 then 152 else if l == 9 then 112 else 0
  {
    hide Count, Repeat;
    var a, b, c, d := Repeat(8, 144), Repeat(9, 112), Repeat(7, 24), Repeat(8, 8);
    CountRepeat(8, 144, l);
    CountRepeat(9, 112, l);
    CountRepeat(7, 24, l);
    CountRepeat(8, 8, l);
    CountConcat(a, b, l);
    CountConcat(a + b, c, l);
    CountConcat(a + b + c, d, l);
  }

  lemma BelowNone(lens: seq<nat>, a: nat, b: nat)
    requires 1 <= a <= b <= MAX_BITS + 1 && forall l :: a <= l < b ==> Count(lens, l) == 0
    ensures Below(lens, b) == Below(lens, a)
    decreases b
  {
    if a < b { BelowNone(lens, a, b - 1); }
  }

  lemma BelowFirst(lens: seq<nat>)
    ensures Below(lens, 1) == 0
  {
  }

  lemma FixedLComplete()
    ensures Complete(FixedL())
  {
    hide Below, Count, Pow2;
    var lens := FixedL();
    forall l: nat
      ensures Count(lens, l) == if l == 7 then 24 else if l == 8 then 152 else if l == 9 then 112 else 0
    {
      FixedLCount(l);
    }
    hide FixedL;
    BelowFirst(lens);
    BelowNone(lens, 1, 7);
    BelowStep(lens, 7);
    BelowStep(lens, 8);
    BelowStep(lens, 9);
    BelowNone(lens, 10, 16);
    Pow2Table();
    assert Bounded(lens) by { FixedLBounded(); }
  }

  lemma FixedLBounded()
    ensures Bounded(FixedL()) && forall i :: 0 <= i < 288 ==> 7 <= FixedL()[i] <= 9
  {
  }

  lemma FixedFirst()
    ensures First(FixedL(), 7) == 0 && First(FixedL(), 8) == 48 && First(FixedL(), 9) == 400
  {
    hide Count, FixedL;
    var ll := FixedL();
    forall l: nat
      ensures Count(ll, l) == if l == 7 then 24 else if l == 8 then 152 else if l == 9 then 112 else 0
    {
      FixedLCount(l);
    }
    assert First(ll, 4) == 0;
    assert First(ll, 8) == 48;
  }

  /** How many of the symbols before s have codes of l bits. */
  lemma FixedBefore(s: nat, l: nat)
    requires s < 288
    ensures Count(FixedL()[..s], l) ==
            if l == 8 then (if s <= 144 then s else if s <= 280 then 144 else s - 136)
            else if l == 9 then (if s <= 144 then 0 else if s <= 256 then s - 144 else 112)
            else if l == 7 then (if s <= 256 then 0 else if s <= 280 then s - 256 else 24)
            else 0
  {
    hide Count;
    var a := Repeat(8, if s < 144 then s else 144);
    var b := Repeat(9, if s < 144 then 0 else if s < 256 then s - 144 else 112);
    var c := Repeat(7, if s < 256 then 0 else if s < 280 then s - 256 else 24);
    var d := Repeat(8, if s < 280 then 0 else s - 280);
    assert FixedL()[..s] == a + b + c + d;
    hide Repeat, FixedL;
    CountRepeat(8, |a|, l);
    CountRepeat(9, |b|, l);
    CountRepeat(7, |c|, l);
    CountRepeat(8, |d|, l);
    CountConcat(a, b, l);
    CountConcat(a + b, c, l);
    CountConcat(a + b + c, d, l);
  }

  /** The table of section 3.2.6 of RFC 1951: literals up to 143 have the codes from 00110000 on, the others those from
      110010000 on, the symbols up to 279 those from 0000000 on and the last eight those from 11000000 on. */
  lemma FixedTable(s: nat)
    requires s < 288
    ensures Coded(FixedL(), s)
    ensures (FixedL()[s], CodeVal(FixedL(), s)) ==
            if s <= 143 then (8, 0x30 + s)
            else if s <= 255 then (9, 0x190 + s - 144)
            else if s <= 279 then (7, s - 256)
            else (8, 0xc0 + s - 280)
  {
    hide Count, First;
    FixedFirst();
    FixedBefore(s, FixedL()[s]);
  }

  lemma FixedDComplete()
    ensures Complete(FixedD(32))
  {
    hide Below, Count, Pow2;
    var lens := FixedD(32);
    forall l: nat
      ensures Count(lens, l) == if l == 5 then 32 else 0
    {
      CountRepeat(5, 32, l);
    }
    BelowFirst(lens);
    BelowNone(lens, 1, 5);
    BelowStep(lens, 5);
    BelowNone(lens, 6, 16);
    Pow2Table();
  }

  // ---- codes that agree ----

  lemma {:induction false} FirstSame(a: seq<nat>, b: seq<nat>, l: nat)
    requires forall k :: 1 <= k < l ==> Count(a, k) == Count(b, k)
    ensures First(a, l) == First(b, l)
  {
    hide Count;
    if l > 0 { FirstSame(a, b, l - 1); }
  }

  /** The code of a symbol depends on the shorter codes and the symbols before it only. */
  lemma SameCode(a: seq<nat>, b: seq<nat>, s: nat)
    requires Coded(a, s) && s < |b| && a[..s + 1] == b[..s + 1]
    requires forall k :: 1 <= k < a[s] ==> Count(a, k) == Count(b, k)
    ensures Coded(b, s) && Codeword(a, s) == Codeword(b, s)
  {
    hide Count, First, ToMsb;
    FirstSame(a, b, a[s]);
    assert a[s] == a[..s + 1][s] == b[..s + 1][s] == b[s];
    SamePart(a, b, s + 1, 0, s);
  }

  lemma FixedDSame(n: nat, s: nat)
    requires s < n <= 32
    ensures CodeBits(FixedD(n), s) == CodeBits(FixedD(32), s)
  {
    hide Count, First;
    forall k | 1 <= k < 5
      ensures Count(FixedD(n), k) == Count(FixedD(32), k)
    {
      CountRepeat(5, n, k);
      CountRepeat(5, 32, k);
    }
    SameCode(FixedD(n), FixedD(32), s);
  }

  /** Lengths padded with unused symbols. */
  function Padded(lens: seq<nat>, n: nat): (p: seq<nat>)
    requires |lens| <= n
    ensures |p| == n && p[..|lens|] == lens && forall i :: |lens| <= i < n ==> p[i] == 0
  {
    lens + seq(n - |lens|, i => 0)
  }

  lemma PaddedCount(lens: seq<nat>, n: nat, l: nat)
    requires |lens| <= n && l > 0
    ensures Count(Padded(lens, n), l) == Count(lens, l)
  {
    var z := seq(n - |lens|, i => 0);
    CountConcat(lens, z, l);
    CountPositive(z, l);
  }

  lemma PaddedCode(lens: seq<nat>, n: nat, s: nat)
    requires |lens| <= n
    ensures CodeBits(Padded(lens, n), s) == CodeBits(lens, s)
  {
    hide Count, Codeword;
    if Coded(lens, s) {
      var p := Padded(lens, n);
      assert lens[..s + 1] == p[..s + 1];
      forall k | 1 <= k < lens[s]
        ensures Count(lens, k) == Count(p, k)
      {
        PaddedCount(lens, n, k);
      }
      SameCode(lens, p, s);
    }
  }

  lemma {:induction false} BelowSame(a: seq<nat>, b: seq<nat>, l: nat)
    requires l <= MAX_BITS + 1 && forall k :: 1 <= k < l ==> Count(a, k) == Count(b, k)
    ensures Below(a, l) == Below(b, l)
  {
    hide Count;
    if l > 1 { BelowSame(a, b, l - 1); }
  }

  lemma PaddedComplete(lens: seq<nat>, n: nat)
    requires |lens| <= n && Complete(lens)
    ensures Complete(Padded(lens, n))
  {
    hide Count, Below;
    forall k | 1 <= k <= MAX_BITS
      ensures Count(lens, k) == Count(Padded(lens, n), k)
    {
      PaddedCount(lens, n, k);
    }
    BelowSame(lens, Padded(lens, n), MAX_BITS + 1);
  }

  // ---- the static trees ----

  lemma UniformValue(n: nat, s: nat)
    requires s < n
    ensures CodeVal(FixedD(n), s) == s
  {
    hide Count;
    forall k | 1 <= k < 5
      ensures Count(FixedD(n), k) == 0 == Count([], k)
    {
      CountRepeat(5, n, k);
      CountPositive([], k);
    }
    FirstSame(FixedD(n), [], 5);
    NoFirst(5);
    assert FixedD(n)[..s] == Repeat(5, s);
    CountRepeat(5, s, 5);
  }

  lemma {:induction false} NoFirst(l: nat)
    ensures First([], l) == 0
  {
    if l > 0 { NoFirst(l - 1); }
  }

  /** static_dtree. */
  method MakeStaticD() returns (t: seq<CtData>)
    ensures |t| == 30 && HasCodes(t, FixedD(30))
  {
    hide BiReverse, Codeword, FromBits, Pow2;
    t := [];
    for n := 0 to 30
      invariant |t| == n && forall i :: 0 <= i < n ==> HasCode(t[i], FixedD(30), i)
    {
      StaticCode(n);
      t := t + [CtData(BiReverse(n, 5), 5)];
    }
  }

  lemma StaticCode(n: nat)
    requires n < 30
    ensures BiReverse(n, 5) == FromBits(Codeword(FixedD(30), n))
  {
    hide CodeVal, ToMsb, FromBits;
    UniformValue(30, n);
    Pow2Table();
    BiReverseIsMsb(n, 5);
  }

  /** static_ltree: the lengths, their counts, and then gen_codes. */
  method MakeStaticL() returns (t: array<CtData>)
    ensures fresh(t) && t.Length == 288 && HasCodes(t[..], FixedL())
  {
    hide Count, Below, HasCodes, Complete;
    ghost var lens := FixedL();
    t := new CtData[288](i requires 0 <= i < 288 => CtData(0, if i <= 143 then 8 else if i <= 255 then 9
      else if i <= 279 then 7 else 8));
    assert Lengths(t[..], 288) == lens;
    var blCount := seq(16, l => if l == 7 then 24 else if l == 8 then 152 else if l == 9 then 112 else 0);
    forall l | 1 <= l <= MAX_BITS
      ensures blCount[l] == Count(lens, l)
    {
      FixedLCount(l);
    }
    FixedLComplete();
    CompleteKraft(lens);
    GenCodes.GenCodes(t, 287, blCount);
  }

  lemma CompleteKraft(lens: seq<nat>)
    requires Complete(lens)
    ensures Kraft(lens) && Bounded(lens)
  {
  }
}
