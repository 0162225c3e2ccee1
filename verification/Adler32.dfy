/** adler32_p.h, arch/generic/adler32_c.c and adler32.c: Adler-32 over four 16-bit lanes in a 64-bit word, with the
    modulus put off for as long as 32 bits allow. */
module Adler32 {
  import opened Arith
  import opened Bits
  import opened AdlerSpec

  const NMAX: nat := 5552
  const SWAR_MAX_BYTES: nat := 184
  const TWO16: nat := 0x1_0000
  const TWO32: nat := 0x1_0000_0000
  const TWO48: nat := 0x1_0000_0000_0000
  const TWO64: nat := 0x1_0000_0000_0000_0000

  // ---- lanes ----

  /** Four 16-bit lanes, lowest first. */
  datatype Lanes = Lanes(a: nat, b: nat, c: nat, d: nat)

  function SumOf(l: Lanes): (n: nat) { l.a + l.b + l.c + l.d }

  predicate Under(l: Lanes, n: nat) { l.a <= n && l.b <= n && l.c <= n && l.d <= n }

  function Pack(l: Lanes): (w: nat) { l.a + TWO16 * l.b + TWO32 * l.c + TWO48 * l.d }

  function Plus(l: Lanes, m: Lanes): (r: Lanes) { Lanes(l.a + m.a, l.b + m.b, l.c + m.c, l.d + m.d) }

  lemma PackPlus(l: Lanes, m: Lanes)
    requires Under(Plus(l, m), 65535)
    ensures (Pack(l) + Pack(m)) % TWO64 == Pack(Plus(l, m))
  {
  }

  /** Two bytes, the first lowest. */
  function Two(x: nat, y: nat): (n: nat) { x + 0x100 * y }

  /** src64[i]: eight bytes, the first lowest. */
  function Load64(g: seq<Byte>): (w: nat)
    requires |g| == 8
    ensures w < TWO64
  {
    Pack(Lanes(Two(g[0], g[1]), Two(g[2], g[3]), Two(g[4], g[5]), Two(g[6], g[7])))
  }

  /** The low byte of the part of w from bit n on, where d is 2^n. */
  function ByteFrom(w: nat, d: nat): (b: nat)
    requires d > 0
  {
    w / d % 0x100
  }

  /** w & 0x00FF00FF00FF00FF: the low byte of every lane. */
  function EvenMask(w: nat): (r: nat)
  {
    ByteFrom(w, 1) + TWO16 * ByteFrom(w, TWO16) + TWO32 * ByteFrom(w, TWO32) + TWO48 * ByteFrom(w, TWO48)
  }

  function EvenLanes(g: seq<Byte>): (l: Lanes)
    requires |g| == 8
    ensures Under(l, 255)
  {
    Lanes(g[0], g[2], g[4], g[6])
  }

  function OddLanes(g: seq<Byte>): (l: Lanes)
    requires |g| == 8
    ensures Under(l, 255)
  {
    Lanes(g[1], g[3], g[5], g[7])
  }

  /** A number in lanes, of which the mask takes the low bytes. */
  lemma MaskLanes(l: Lanes, lo: Lanes, hi: Lanes)
    requires l == Lanes(Two(lo.a, hi.a), Two(lo.b, hi.b), Two(lo.c, hi.c), Two(lo.d, hi.d))
    requires Under(lo, 255) && Under(hi, 255)
    ensures EvenMask(Pack(l)) == Pack(lo)
  {
    hide ByteFrom, Two;
    LanesUnder(l, lo, hi);
    LowByte(Pack(l), 1, lo.a, hi.a, l.b + TWO16 * (l.c + TWO16 * l.d)) by { LaneA(l); }
    LowByte(Pack(l), TWO16, lo.b, hi.b, l.c + TWO16 * l.d) by { LaneB(l); }
    LowByte(Pack(l), TWO32, lo.c, hi.c, l.d) by { LaneC(l); }
    LowByte(Pack(l), TWO48, lo.d, hi.d, 0) by { LaneD(l); }
  }

  lemma LanesUnder(l: Lanes, lo: Lanes, hi: Lanes)
    requires l == Lanes(Two(lo.a, hi.a), Two(lo.b, hi.b), Two(lo.c, hi.c), Two(lo.d, hi.d))
    requires Under(lo, 255) && Under(hi, 255)
    ensures Under(l, 65535)
  {
  }

  lemma LowByte(w: nat, d: nat, lo: nat, hi: nat, rest: nat)
    requires lo < 0x100 && d > 0 && w / d == Two(lo, hi) + TWO16 * rest
    ensures ByteFrom(w, d) == lo
  {
    ByteOf(lo, hi, rest);
  }

  lemma ByteOf(lo: nat, hi: nat, rest: nat)
    requires lo < 0x100
    ensures (Two(lo, hi) + TWO16 * rest) % 0x100 == lo
  {
    assert Two(lo, hi) + TWO16 * rest == lo + 0x100 * (hi + 0x100 * rest);
  }

  lemma LaneA(l: Lanes)
    ensures Pack(l) / 1 == l.a + TWO16 * (l.b + TWO16 * (l.c + TWO16 * l.d))
  {
  }

  lemma LaneB(l: Lanes)
    requires Under(l, 65535)
    ensures Pack(l) / TWO16 == l.b + TWO16 * (l.c + TWO16 * l.d)
  {
  }

  lemma LaneC(l: Lanes)
    requires Under(l, 65535)
    ensures Pack(l) / TWO32 == l.c + TWO16 * l.d
  {
  }

  lemma LaneD(l: Lanes)
    requires Under(l, 65535)
    ensures Pack(l) / TWO48 == l.d
  {
  }

  lemma EvenBytes(g: seq<Byte>)
    requires |g| == 8
    ensures EvenMask(Load64(g)) == Pack(EvenLanes(g))
  {
    hide EvenMask;
    var l := Lanes(Two(g[0], g[1]), Two(g[2], g[3]), Two(g[4], g[5]), Two(g[6], g[7]));
    MaskLanes(l, EvenLanes(g), OddLanes(g));
  }

  lemma OddBytes(g: seq<Byte>)
    requires |g| == 8
    ensures EvenMask(Load64(g) / 0x100) == Pack(OddLanes(g))
  {
    hide EvenMask, Load64, Pack;
    var l := Lanes(Two(g[1], g[2]), Two(g[3], g[4]), Two(g[5], g[6]), Two(g[7], 0));
    MaskLanes(l, OddLanes(g), Lanes(g[2], g[4], g[6], 0));
    WithoutFirst(g, l);
    UpperByte(g[0], Pack(l));
  }

  lemma WithoutFirst(g: seq<Byte>, l: Lanes)
    requires |g| == 8 && l == Lanes(Two(g[1], g[2]), Two(g[3], g[4]), Two(g[5], g[6]), Two(g[7], 0))
    ensures Load64(g) == Two(g[0], Pack(l))
  {
  }

  lemma UpperByte(r: nat, q: nat)
    requires r < 0x100
    ensures Two(r, q) / 0x100 == q
  {
  }

  // ---- multiply and shift ----

  /** The top lane of a product that has nothing to carry into it. */
  lemma TopLane(low: nat, top: nat, high: nat)
    requires low < TWO48 && top < TWO16
    ensures (low + TWO48 * top + TWO64 * high) % TWO64 / TWO48 == top
  {
    var x := low + TWO48 * top;
    assert x < TWO64;
    assert (x + TWO64 * high) % TWO64 == x;
  }

  /** The sum of the lanes. */
  lemma HSum(l: Lanes)
    requires SumOf(l) < TWO16
    ensures Pack(l) * 0x1_0001_0001_0001 % TWO64 / TWO48 == SumOf(l)
  {
    var low := l.a + TWO16 * (l.a + l.b) + TWO32 * (l.a + l.b + l.c);
    var high := l.b + l.c + l.d + TWO16 * (l.c + l.d) + TWO32 * l.d;
    TopLane(low, SumOf(l), high);
    assert Pack(l) * 0x1_0001_0001_0001 == low + TWO48 * SumOf(l) + TWO64 * high;
  }

  /** The lanes weighted with 4, 3, 2 and 1. */
  lemma HSum4321(l: Lanes)
    requires 4 * l.a + 3 * l.b + 2 * l.c + l.d < TWO16
    ensures Pack(l) * 0x4_0003_0002_0001 % TWO64 / TWO48 == 4 * l.a + 3 * l.b + 2 * l.c + l.d
  {
    var low := l.a + TWO16 * (2 * l.a + l.b) + TWO32 * (3 * l.a + 2 * l.b + l.c);
    var high := 4 * l.b + 3 * l.c + 2 * l.d + TWO16 * (4 * l.c + 3 * l.d) + TWO32 * (4 * l.d);
    TopLane(low, 4 * l.a + 3 * l.b + 2 * l.c + l.d, high);
    assert Pack(l) * 0x4_0003_0002_0001 == low + TWO48 * (4 * l.a + 3 * l.b + 2 * l.c + l.d) + TWO64 * high;
  }

  /** The lanes weighted with 3, 2, 1 and 0. */
  lemma HSum3210(l: Lanes)
    requires 3 * l.a + 2 * l.b + l.c < TWO16
    ensures Pack(l) * 0x3_0002_0001_0000 % TWO64 / TWO48 == 3 * l.a + 2 * l.b + l.c
  {
    var low := TWO16 * l.a + TWO32 * (2 * l.a + l.b);
    var high := 3 * l.b + 2 * l.c + l.d + TWO16 * (3 * l.c + 2 * l.d) + TWO32 * (3 * l.d);
    TopLane(low, 3 * l.a + 2 * l.b + l.c, high);
    assert Pack(l) * 0x3_0002_0001_0000 == low + TWO48 * (3 * l.a + 2 * l.b + l.c) + TWO64 * high;
  }

  /** w & 0xFFFF0000FFFF: lanes 0 and 2. */
  function PairMask(w: nat): (r: nat) { w % TWO16 + TWO32 * (w / TWO32 % TWO16) }

  lemma PairLanes(l: Lanes)
    requires Under(l, 65535)
    ensures PairMask(Pack(l)) == l.a + TWO32 * l.c && PairMask(Pack(l) / TWO16) == l.b + TWO32 * l.d
  {
    var w := Pack(l);
    assert w % TWO16 == l.a;
    assert w / TWO32 == l.c + TWO16 * l.d;
    assert w / TWO32 % TWO16 == l.c;
    var v := w / TWO16;
    assert v == l.b + TWO16 * l.c + TWO32 * l.d;
    assert v % TWO16 == l.b;
    assert v / TWO32 == l.d;
  }

  lemma Above32(low: nat, top: nat, high: nat)
    requires low < TWO32 && top < TWO32
    ensures (low + TWO32 * top + TWO64 * high) % TWO64 / TWO32 == top
  {
    var x := low + TWO32 * top;
    assert x < TWO64;
    assert (x + TWO64 * high) % TWO64 == x;
  }

  /** Eight times the sum of two 32-bit lanes. */
  lemma HSum8(x: nat, y: nat)
    requires x < 0x100_0000 && y < 0x100_0000
    ensures (x + TWO32 * y) * 0x8_0000_0008 % TWO64 / TWO32 == 8 * (x + y)
  {
    Above32(8 * x, 8 * (x + y), 8 * y);
    assert (x + TWO32 * y) * 0x8_0000_0008 == 8 * x + TWO32 * (8 * (x + y)) + TWO64 * (8 * y);
  }

  // ---- the lanes of a string of groups of eight bytes ----

  const NONE: Lanes := Lanes(0, 0, 0, 0)

  /** sum_even and sum_odd, prefix_even and prefix_odd. */
  datatype Acc = Acc(se: nat, so: nat, pe: nat, po: nat)

  datatype AccLanes = AccLanes(se: Lanes, so: Lanes, pe: Lanes, po: Lanes)

  function Group(p: seq<Byte>, k: nat): (g: seq<Byte>)
    requires 8 * k + 8 <= |p|
    ensures |g| == 8
  {
    p[8 * k..8 * k + 8]
  }

  /** The lanes after k groups. */
  ghost function LanesOf(p: seq<Byte>, k: nat): (l: AccLanes)
    requires 8 * k <= |p|
  {
    if k == 0 then AccLanes(NONE, NONE, NONE, NONE)
    else
      var q, g := LanesOf(p, k - 1), Group(p, k - 1);
      AccLanes(Plus(q.se, EvenLanes(g)), Plus(q.so, OddLanes(g)), Plus(q.pe, q.se), Plus(q.po, q.so))
  }

  /** How often the bytes of the lanes count in a group: 8, 6, 4, 2 and 7, 5, 3, 1. */
  function GroupWeight(e: Lanes, o: Lanes): (n: nat)
  {
    8 * e.a + 6 * e.b + 4 * e.c + 2 * e.d + (7 * o.a + 5 * o.b + 3 * o.c + o.d)
  }

  lemma GroupSums(g: seq<Byte>)
    requires |g| == 8
    ensures Total(g) == SumOf(EvenLanes(g)) + SumOf(OddLanes(g))
    ensures Weighted(g) == GroupWeight(EvenLanes(g), OddLanes(g))
  {
    hide Total, Weighted;
    assert g == g[..4] + g[4..];
    TotalConcat(g[..4], g[4..]);
    WeightedConcat(g[..4], g[4..]);
    FourSums(g[..4]);
    FourSums(g[4..]);
  }

  lemma FourSums(g: seq<Byte>)
    requires |g| == 4
    ensures var l := Lanes(g[0], g[1], g[2], g[3]);
      Total(g) == SumOf(l) && Weighted(g) == 4 * l.a + 3 * l.b + 2 * l.c + l.d
  {
    hide Total, Weighted;
    EmptySums(g[..0]);
    FirstSums(g, 1);
    FirstSums(g, 2);
    FirstSums(g, 3);
    FirstSums(g, 4);
    assert g[..4] == g;
  }

  lemma FirstSums(g: seq<Byte>, n: nat)
    requires 1 <= n <= |g|
    ensures Total(g[..n]) == Total(g[..n - 1]) + g[n - 1] && Weighted(g[..n]) == Weighted(g[..n - 1]) + Total(g[..n])
  {
    assert g[..n][..n - 1] == g[..n - 1];
  }

  lemma {:induction false} LanesSum(p: seq<Byte>, k: nat)
    requires 8 * k <= |p|
    ensures var l := LanesOf(p, k);
      Total(p[..8 * k]) == SumOf(l.se) + SumOf(l.so) &&
        Weighted(p[..8 * k]) == 8 * (SumOf(l.pe) + SumOf(l.po)) + GroupWeight(l.se, l.so)
  {
    hide *;
    if k == 0 {
      NoSums(p);
    } else {
      LanesSum(p, k - 1);
      var q, g, l := p[..8 * (k - 1)], Group(p, k - 1), LanesOf(p, k - 1);
      LanesStep(p, k);
      GroupSums(g);
      GroupAt(p, k - 1);
      TotalConcat(q, g);
      WeightedConcat(q, g);
      PlusSums(l, g);
    }
  }

  lemma NoSums(p: seq<Byte>)
    ensures var l := LanesOf(p, 0);
      Total(p[..8 * 0]) == SumOf(l.se) + SumOf(l.so) &&
        Weighted(p[..8 * 0]) == 8 * (SumOf(l.pe) + SumOf(l.po)) + GroupWeight(l.se, l.so)
  {
    hide Total, Weighted;
    EmptySums(p[..8 * 0]);
  }

  lemma EmptySums(e: seq<Byte>)
    requires |e| == 0
    ensures Total(e) == 0 && Weighted(e) == 0
  {
  }

  lemma GroupAt(p: seq<Byte>, k: nat)
    requires 8 * k + 8 <= |p|
    ensures p[..8 * (k + 1)] == p[..8 * k] + Group(p, k)
  {
  }

  lemma PlusSums(l: AccLanes, g: seq<Byte>)
    requires |g| == 8
    ensures SumOf(Plus(l.se, EvenLanes(g))) == SumOf(l.se) + SumOf(EvenLanes(g))
    ensures SumOf(Plus(l.so, OddLanes(g))) == SumOf(l.so) + SumOf(OddLanes(g))
    ensures SumOf(Plus(l.pe, l.se)) == SumOf(l.pe) + SumOf(l.se) && SumOf(Plus(l.po, l.so)) == SumOf(l.po) + SumOf(l.so)
    ensures GroupWeight(Plus(l.se, EvenLanes(g)), Plus(l.so, OddLanes(g))) ==
            GroupWeight(l.se, l.so) + GroupWeight(EvenLanes(g), OddLanes(g))
  {
    hide EvenLanes, OddLanes;
  }

  lemma LanesStep(p: seq<Byte>, k: nat)
    requires 1 <= k && 8 * k <= |p|
    ensures var q, g := LanesOf(p, k - 1), Group(p, k - 1);
      LanesOf(p, k) == AccLanes(Plus(q.se, EvenLanes(g)), Plus(q.so, OddLanes(g)), Plus(q.pe, q.se), Plus(q.po, q.so))
  {
    hide EvenLanes, OddLanes, Plus, Group;
  }

  /** 0 + 1 + ... + (k - 1). */
  function Triangle(k: nat): (n: nat) { if k == 0 then 0 else Triangle(k - 1) + (k - 1) }

  lemma TriangleMono(j: nat, k: nat)
    requires j <= k
    ensures Triangle(j) <= Triangle(k)
  {
  }

  lemma Triangle23()
    ensures Triangle(23) == 253
  {
    assert Triangle(8) == 28;
    assert Triangle(16) == 120;
  }

  lemma {:induction false} LanesBelow(p: seq<Byte>, k: nat)
    requires 8 * k <= |p|
    ensures var l := LanesOf(p, k);
      Under(l.se, 255 * k) && Under(l.so, 255 * k) && Under(l.pe, 255 * Triangle(k)) && Under(l.po, 255 * Triangle(k))
  {
    hide LanesOf, Group, EvenLanes, OddLanes;
    if k == 0 {
      NoLanes(p);
    } else {
      LanesBelow(p, k - 1);
      LanesStep(p, k);
      PlusBelow(LanesOf(p, k - 1), Group(p, k - 1), 255 * (k - 1), 255 * Triangle(k - 1));
    }
  }

  lemma PlusBelow(l: AccLanes, g: seq<Byte>, m: nat, n: nat)
    requires |g| == 8 && Under(l.se, m) && Under(l.so, m) && Under(l.pe, n) && Under(l.po, n)
    ensures Under(Plus(l.se, EvenLanes(g)), m + 255) && Under(Plus(l.so, OddLanes(g)), m + 255)
    ensures Under(Plus(l.pe, l.se), n + m) && Under(Plus(l.po, l.so), n + m)
  {
    hide EvenLanes, OddLanes;
  }

  /** Within 23 groups no lane overflows. */
  lemma LanesFit(p: seq<Byte>, k: nat)
    requires 8 * k <= |p| <= SWAR_MAX_BYTES
    ensures var l := LanesOf(p, k); Under(l.se, 5865) && Under(l.so, 5865) && Under(l.pe, 64515) && Under(l.po, 64515)
  {
    hide LanesOf, Triangle;
    LanesBelow(p, k);
    Triangle23();
    TriangleMono(k, 23);
  }

  function Packed(l: AccLanes): (a: Acc) { Acc(Pack(l.se), Pack(l.so), Pack(l.pe), Pack(l.po)) }

  /** One group of eight bytes. */
  function Absorb(a: Acc, v: nat): (r: Acc)
  {
    Acc((a.se + EvenMask(v)) % TWO64, (a.so + EvenMask(v / 0x100)) % TWO64, (a.pe + a.se) % TWO64,
      (a.po + a.so) % TWO64)
  }

  lemma AbsorbGroup(p: seq<Byte>, k: nat)
    requires 8 * k + 8 <= |p| <= SWAR_MAX_BYTES
    ensures Absorb(Packed(LanesOf(p, k)), Load64(Group(p, k))) == Packed(LanesOf(p, k + 1))
  {
    hide *;
    LanesStep(p, k + 1);
    FitLanes(p, k + 1);
    AbsorbLanes(LanesOf(p, k), Group(p, k));
  }

  lemma FitLanes(p: seq<Byte>, k: nat)
    requires 8 * k <= |p| <= SWAR_MAX_BYTES
    ensures var l := LanesOf(p, k); Under(l.se, 65535) && Under(l.so, 65535) && Under(l.pe, 65535) && Under(l.po, 65535)
  {
    hide LanesOf;
    LanesFit(p, k);
  }

  /** If no lane overflows, the four additions are those of the lanes. */
  lemma AbsorbLanes(l: AccLanes, g: seq<Byte>)
    requires |g| == 8 && Under(Plus(l.se, EvenLanes(g)), 65535) && Under(Plus(l.so, OddLanes(g)), 65535)
    requires Under(Plus(l.pe, l.se), 65535) && Under(Plus(l.po, l.so), 65535)
    ensures Absorb(Packed(l), Load64(g)) ==
            Packed(AccLanes(Plus(l.se, EvenLanes(g)), Plus(l.so, OddLanes(g)), Plus(l.pe, l.se), Plus(l.po, l.so)))
  {
    hide Pack, EvenMask, Load64, Plus, EvenLanes, OddLanes;
    EvenBytes(g);
    OddBytes(g);
    PackPlus(l.se, EvenLanes(g));
    PackPlus(l.so, OddLanes(g));
    PackPlus(l.pe, l.se);
    PackPlus(l.po, l.so);
  }

  // ---- the reduction ----

  function Wrap32(x: nat): (y: nat) { x % TWO32 }

  /** The horizontal sums at the end of adler32_swar, for the first and the second sum. */
  function Horizontal(a: Acc): (n: nat) { (a.se + a.so) % TWO64 * 0x1_0001_0001_0001 % TWO64 / TWO48 }

  function Prefixes(a: Acc): (n: nat)
  {
    (PairMask(a.pe) + PairMask(a.po) + PairMask(a.pe / TWO16) +
      PairMask(a.po / TWO16)) % TWO64 * 0x8_0000_0008 % TWO64 / TWO32
  }

  function Positions(a: Acc): (n: nat)
  {
    2 * (a.se * 0x4_0003_0002_0001 % TWO64 / TWO48) + a.so * 0x1_0001_0001_0001 % TWO64 / TWO48 +
    2 * (a.so * 0x3_0002_0001_0000 % TWO64 / TWO48)
  }

  lemma HorizontalIs(p: seq<Byte>, k: nat)
    requires 8 * k == |p| <= SWAR_MAX_BYTES
    ensures Horizontal(Packed(LanesOf(p, k))) == Total(p)
  {
    hide LanesOf, Pack, Total, Weighted, GroupWeight;
    var l := LanesOf(p, k);
    LanesFit(p, k);
    LanesSum(p, k);
    assert p[..8 * k] == p;
    PackPlus(l.se, l.so);
    HSum(Plus(l.se, l.so));
  }

  lemma PrefixesIs(p: seq<Byte>, k: nat)
    requires 8 * k == |p| <= SWAR_MAX_BYTES
    ensures var l := LanesOf(p, k); Prefixes(Packed(l)) == 8 * (SumOf(l.pe) + SumOf(l.po))
  {
    hide LanesOf, Pack, PairMask;
    var l := LanesOf(p, k);
    LanesFit(p, k);
    PairLanes(l.pe);
    PairLanes(l.po);
    var x, y := l.pe.a + l.po.a + l.pe.b + l.po.b, l.pe.c + l.po.c + l.pe.d + l.po.d;
    HSum8(x, y);
    assert (x + TWO32 * y) % TWO64 == x + TWO32 * y;
  }

  lemma PositionsIs(p: seq<Byte>, k: nat)
    requires 8 * k == |p| <= SWAR_MAX_BYTES
    ensures var l := LanesOf(p, k); Positions(Packed(l)) == GroupWeight(l.se, l.so)
  {
    hide LanesOf, Pack;
    var l := LanesOf(p, k);
    LanesFit(p, k);
    HSum4321(l.se);
    HSum(l.so);
    HSum3210(l.so);
  }

  /** adler32_swar. */
  method Swar(adler: nat, sum2: nat, data: seq<Byte>, ghost at: nat) returns (adler': nat, sum2': nat)
    requires |data| % 8 == 0 && |data| <= SWAR_MAX_BYTES && at % 8 == 0
    requires Plain(Sums(adler, sum2), data).s1 < TWO32 && Plain(Sums(adler, sum2), data).s2 < TWO32
    ensures Sums(adler', sum2') == Plain(Sums(adler, sum2), data)
  {
    hide LanesOf, Packed, Absorb, Horizontal, Prefixes, Positions, GroupWeight, Total, Weighted, Load64, Plain, Wrap32;
    sum2' := Wrap32(sum2 + Wrap32(adler * |data|));
    var acc := Accumulate(data);
    adler' := Wrap32(adler + Wrap32(Horizontal(acc)));
    sum2' := Wrap32(sum2' + Wrap32(Prefixes(acc)));
    sum2' := Wrap32(sum2' + Wrap32(Positions(acc)));
    SwarSums(adler, sum2, data, Horizontal(acc), Prefixes(acc), Positions(acc));
  }

  /** The loop of adler32_swar, two groups at a time. */
  method Accumulate(data: seq<Byte>) returns (acc: Acc)
    requires |data| % 8 == 0 && |data| <= SWAR_MAX_BYTES
    ensures Horizontal(acc) == Total(data) && Prefixes(acc) + Positions(acc) == Weighted(data)
  {
    hide LanesOf, Packed, Absorb, Horizontal, Prefixes, Positions, GroupWeight, Total, Weighted, Load64, Group;
    var k: nat, len: nat := 0, |data|;
    acc := Acc(0, 0, 0, 0);
    NoLanes(data);
    while len >= 16
      invariant 8 * k + len == |data| && len % 8 == 0 && acc == Packed(LanesOf(data, k))
    {
      AbsorbGroup(data, k);
      AbsorbGroup(data, k + 1);
      acc := Absorb(Absorb(acc, Load64(Group(data, k))), Load64(Group(data, k + 1)));
      k, len := k + 2, len - 16;
    }
    if len >= 8 {
      AbsorbGroup(data, k);
      acc := Absorb(acc, Load64(Group(data, k)));
      k := k + 1;
    }
    assert data[..8 * k] == data;
    HorizontalIs(data, k);
    PrefixesIs(data, k);
    PositionsIs(data, k);
    LanesSum(data, k);
  }

  /** As long as the sums fit 32 bits, none of the additions wraps around. */
  lemma SwarSums(adler: nat, sum2: nat, data: seq<Byte>, h: nat, p: nat, q: nat)
    requires h == Total(data) && p + q == Weighted(data)
    requires Plain(Sums(adler, sum2), data).s1 < TWO32 && Plain(Sums(adler, sum2), data).s2 < TWO32
    ensures Sums(Wrap32(adler + Wrap32(h)), Wrap32(Wrap32(Wrap32(sum2 + Wrap32(adler * |data|)) + Wrap32(p)) +
      Wrap32(q))) ==
            Plain(Sums(adler, sum2), data)
  {
    hide Total, Weighted, Wrap32;
    var m := adler * |data|;
    NoWrap(h);
    NoWrap(adler + h);
    NoWrap(m);
    NoWrap(sum2 + m);
    NoWrap(p);
    NoWrap(sum2 + m + p);
    NoWrap(q);
    NoWrap(sum2 + m + p + q);
  }

  lemma NoWrap(x: nat)
    requires x < TWO32
    ensures Wrap32(x) == x
  {
  }

  lemma NoLanes(data: seq<Byte>)
    ensures Acc(0, 0, 0, 0) == Packed(LanesOf(data, 0)) && LanesOf(data, 0) == AccLanes(NONE, NONE, NONE, NONE)
  {
  }

  // ---- the whole checksum ----

  /** ADLER_DO1 for every byte of data. */
  method DoBytes(s: Sums, data: seq<Byte>) returns (r: Sums)
    requires Plain(s, data).s1 < TWO32 && Plain(s, data).s2 < TWO32
    ensures r == Plain(s, data)
  {
    hide Plain;
    r := s;
    PlainNone(s, data);
    for i := 0 to |data|
      invariant r == Plain(s, data[..i])
    {
      PlainMono(s, data, i + 1);
      assert data[..i + 1] == data[..i] + [data[i]];
      PlainConcat(s, data[..i], [data[i]]);
      PlainOne(r, data[i]);
      r := Sums(Wrap32(r.s1 + data[i]), r.s2);
      r := Sums(r.s1, Wrap32(r.s2 + r.s1));
    }
    assert data[..|data|] == data;
  }

  lemma PlainNone(s: Sums, data: seq<Byte>)
    ensures Plain(s, data[..0]) == s
  {
  }

  /** The sums of a part are not larger. */
  lemma PlainMono(s: Sums, data: seq<Byte>, i: nat)
    requires i <= |data|
    ensures Plain(s, data[..i]).s1 <= Plain(s, data).s1 && Plain(s, data[..i]).s2 <= Plain(s, data).s2
  {
    hide Total, Weighted;
    assert data == data[..i] + data[i..];
    TotalConcat(data[..i], data[i..]);
    WeightedConcat(data[..i], data[i..]);
    MulLe(i, |data|, s.s1);
  }

  /** NMAX: so many bytes can be added to sums of 16 bits without exceeding 32. */
  lemma SumsFit(s: Sums, data: seq<Byte>)
    requires s.s1 < TWO16 && s.s2 < TWO16 && |data| <= NMAX
    ensures Plain(s, data).s1 < TWO32 && Plain(s, data).s2 < TWO32
  {
    hide Total, Weighted;
    SumBounds(data);
    var n := |data|;
    MulLe(n, NMAX, s.s1);
    MulLe(s.s1, 65535, NMAX);
    MulLe(n, NMAX, n + 1);
    MulLe(n + 1, NMAX + 1, NMAX);
  }

  lemma PartFits(s: Sums, data: seq<Byte>, i: nat, j: nat)
    requires i <= j <= |data| && Plain(s, data).s1 < TWO32 && Plain(s, data).s2 < TWO32
    ensures Plain(Plain(s, data[..i]), data[i..j]) == Plain(s, data[..j])
    ensures Plain(s, data[..j]).s1 < TWO32 && Plain(s, data[..j]).s2 < TWO32
  {
    hide Plain;
    assert data[..j] == data[..i] + data[i..j];
    PlainConcat(s, data[..i], data[i..j]);
    PlainMono(s, data, j);
  }

  function Down8(n: nat): (m: nat)
    ensures m % 8 == 0 && m <= n < m + 8
  {
    n - n % 8
  }

  function Chunk(n: nat): (m: nat)
    requires n >= 8
    ensures 8 <= m <= n && m % 8 == 0 && m <= SWAR_MAX_BYTES
  {
    if Down8(n) < SWAR_MAX_BYTES then Down8(n) else SWAR_MAX_BYTES
  }

  /** Chunks of at most 184 bytes, while there are eight. If the buffer is not aligned there are none. */
  method Chunks(s: Sums, data: seq<Byte>, at: nat) returns (r: Sums, i: nat)
    requires Plain(s, data).s1 < TWO32 && Plain(s, data).s2 < TWO32
    ensures i <= |data| && i % 8 == 0 && r == Plain(s, data[..i]) && (at % 8 == 0 ==> |data| - i < 8)
  {
    hide Plain, Chunk;
    r, i := s, 0;
    PlainNone(s, data);
    while |data| - i >= 8 && (at + i) % 8 == 0
      invariant i <= |data| && i % 8 == 0 && r == Plain(s, data[..i])
      decreases |data| - i
    {
      var n := Chunk(|data| - i);
      PartFits(s, data, i, i + n);
      var a, b := Swar(r.s1, r.s2, data[i..i + n], at + i);
      r, i := Sums(a, b), i + n;
    }
  }

  /** adler32_copy_tail without the copy: chunks if the buffer is aligned, and the rest byte by byte. */
  method Tail(s: Sums, data: seq<Byte>, at: nat, rebase: bool) returns (r: Sums)
    requires Plain(s, data).s1 < TWO32 && Plain(s, data).s2 < TWO32
    ensures r == if rebase then Reduced(Plain(s, data)) else Plain(s, data)
  {
    hide Plain, Reduced;
    var i;
    r, i := Chunks(s, data, at);
    PartFits(s, data, i, |data|);
    assert data[..|data|] == data;
    r := DoBytes(r, data[i..]);
    if rebase {
      r := ReducedNow(r);
    }
  }

  method ReducedNow(s: Sums) returns (r: Sums)
    ensures r == Reduced(s)
  {
    r := Sums(s.s1 % BASE, s.s2 % BASE);
  }

  /** The two halves of a checksum. */
  function Split(adler: nat): (s: Sums) { Sums(adler % TWO16, adler / TWO16) }

  function Value(s: Sums): (adler: nat) { s.s1 + TWO16 * s.s2 }

  /** s is the sum of the bytes from from to pos, on top of sums t of 16 bits that stand for all bytes before. */
  ghost predicate Summed(s: Sums, t: Sums, s0: Sums, buf: seq<Byte>, from: nat, pos: nat)
  {
    from <= pos <= |buf| && t.s1 < TWO16 && t.s2 < TWO16 && s == Plain(t, buf[from..pos]) &&
    Reduced(t) == Reduced(Plain(s0, buf[..from]))
  }

  lemma SummedFits(s: Sums, t: Sums, s0: Sums, buf: seq<Byte>, from: nat, pos: nat, n: nat)
    requires Summed(s, t, s0, buf, from, pos) && pos + n <= |buf| && pos - from + n <= NMAX
    ensures Plain(s, buf[pos..pos + n]).s1 < TWO32 && Plain(s, buf[pos..pos + n]).s2 < TWO32
    ensures Summed(Plain(s, buf[pos..pos + n]), t, s0, buf, from, pos + n)
  {
    hide Plain, Reduced;
    assert buf[from..pos + n] == buf[from..pos] + buf[pos..pos + n];
    PlainConcat(t, buf[from..pos], buf[pos..pos + n]);
    SumsFit(t, buf[from..pos + n]);
  }

  /** Reducing the sums starts a new count. */
  lemma SummedReduced(s: Sums, t: Sums, s0: Sums, buf: seq<Byte>, from: nat, pos: nat)
    requires Summed(s, t, s0, buf, from, pos)
    ensures Reduced(s) == Reduced(Plain(s0, buf[..pos])) && Summed(Reduced(s), Reduced(s), s0, buf, pos, pos)
  {
    hide Plain, Total, Weighted;
    assert buf[..pos] == buf[..from] + buf[from..pos];
    PlainConcat(s0, buf[..from], buf[from..pos]);
    ReducedPlain(t, buf[from..pos]);
    ReducedPlain(Plain(s0, buf[..from]), buf[from..pos]);
    assert buf[pos..pos] == buf[..0];
    PlainNone(Reduced(s), buf);
    ReducedTwice(s);
  }

  lemma ReducedTwice(s: Sums)
    ensures Reduced(Reduced(s)) == Reduced(s) && Reduced(s).s1 < BASE && Reduced(s).s2 < BASE
  {
  }

  lemma SummedStart(s0: Sums, buf: seq<Byte>)
    requires s0.s1 < TWO16 && s0.s2 < TWO16
    ensures Summed(s0, s0, s0, buf, 0, 0)
  {
    hide Plain;
    assert buf[0..0] == buf[..0];
    PlainNone(s0, buf);
  }

  /** One block of nmax bytes and the reduction behind it. */
  method Block(s: Sums, buf: seq<Byte>, addr: nat, pos: nat, n: nat, ghost t: Sums, ghost s0: Sums, ghost from: nat)
    returns (r: Sums)
    requires Summed(s, t, s0, buf, from, pos) && n % 8 == 0 && pos + n <= |buf| && pos - from + n <= NMAX
    requires (addr + pos) % 8 == 0
    ensures r == Reduced(r) && Summed(r, r, s0, buf, pos + n, pos + n)
  {
    hide Plain, Reduced, Summed;
    SummedFits(s, t, s0, buf, from, pos, n);
    var p := buf[pos..pos + n];
    var i;
    r, i := Chunks(s, p, addr + pos);
    assert p[..i] == p;
    SummedReduced(r, t, s0, buf, from, pos + n);
    ReducedTwice(r);
    r := ReducedNow(r);
  }

  /** All blocks of nmax bytes, of which the first may be shorter. */
  method Blocks(s: Sums, buf: seq<Byte>, addr: nat, pos0: nat, nmax0: nat, ghost t0: Sums, ghost s0: Sums)
    returns (r: Sums, pos: nat, ghost t: Sums, ghost from: nat)
    requires Summed(s, t0, s0, buf, 0, pos0) && nmax0 % 8 == 0 && 8 <= nmax0 && pos0 + nmax0 <= NMAX && pos0 < |buf|
    requires (addr + pos0) % 8 == 0
    ensures Summed(r, t, s0, buf, from, pos) && |buf| - from <= NMAX && (pos == |buf| ==> r == Reduced(r))
  {
    hide Summed, Reduced;
    r, pos, t, from := s, pos0, t0, 0;
    var nmax := nmax0;
    SummedRange(s, t0, s0, buf, 0, pos0);
    while |buf| - pos >= nmax
      invariant Summed(r, t, s0, buf, from, pos) && from <= pos <= |buf| && nmax % 8 == 0 && 8 <= nmax &&
        pos - from + nmax <= NMAX && (addr + pos) % 8 == 0
      invariant pos == |buf| ==> r == Reduced(r)
      decreases |buf| - pos
    {
      r := Block(r, buf, addr, pos, nmax, t, s0, from);
      pos := pos + nmax;
      t, from, nmax := r, pos, NMAX;
    }
  }

  lemma SummedRange(s: Sums, t: Sums, s0: Sums, buf: seq<Byte>, from: nat, pos: nat)
    requires Summed(s, t, s0, buf, from, pos)
    ensures from <= pos <= |buf|
  {
  }

  /** adler32_c, for a buffer at address addr: the checksum of RFC 1950, whatever the start value, the length and the
      alignment. */
  method Adler32C(adler: nat, buf: seq<Byte>, addr: nat) returns (r: nat)
    requires adler < TWO32
    ensures r == Value(Update(Reduced(Split(adler)), buf))
  {
    hide Plain, Reduced, Summed, Update, Value;
    var s0 := Split(adler);
    SummedStart(s0, buf);
    AnyStart(s0, buf);
    var s;
    if |buf| < 16 {
      SummedFits(s0, s0, s0, buf, 0, 0, |buf|);
      assert buf[0..0 + |buf|] == buf;
      s := Tail(s0, buf, addr, true);
    } else {
      s := Long(s0, buf, addr);
    }
    r := Value(s);
  }

  lemma AnyStart(s0: Sums, buf: seq<Byte>)
    ensures Update(Reduced(s0), buf) == Reduced(Plain(s0, buf))
  {
    hide Plain, Update;
    ReducedTwice(s0);
    UpdateIsPlain(Reduced(s0), buf);
    ReducedPlain(s0, buf);
  }

  /** At least sixteen bytes: align, sum up blocks, and do the rest. */
  method Long(s0: Sums, buf: seq<Byte>, addr: nat) returns (s: Sums)
    requires s0.s1 < TWO16 && s0.s2 < TWO16 && |buf| >= 16
    ensures s == Reduced(Plain(s0, buf))
  {
    hide Plain, Reduced, Summed;
    var align := (8 - addr % 8) % 8;
    var nmax := NMAX;
    SummedStart(s0, buf);
    SummedFits(s0, s0, s0, buf, 0, 0, align);
    s := DoBytes(s0, buf[0..0 + align]);
    if align != 0 {
      nmax := Down8(nmax - align);
    }
    var pos;
    ghost var t, from;
    s, pos, t, from := Blocks(s, buf, addr, align, nmax, s0, s0);
    SummedRange(s, t, s0, buf, from, pos);
    SummedFits(s, t, s0, buf, from, pos, |buf| - pos);
    SummedReduced(Plain(s, buf[pos..]), t, s0, buf, from,
      |buf|) by { assert buf[pos..pos + (|buf| - pos)] == buf[pos..]; }
    assert buf[..|buf|] == buf && buf[pos..pos + (|buf| - pos)] == buf[pos..];
    NothingLeft(s, buf, pos);
    s := Tail(s, buf[pos..], addr + pos, |buf| - pos != 0);
  }

  lemma NothingLeft(s: Sums, buf: seq<Byte>, pos: nat)
    requires pos == |buf| ==> s == Reduced(s)
    requires pos <= |buf|
    ensures pos == |buf| ==> Plain(s, buf[pos..]) == s == Reduced(Plain(s, buf[pos..]))
  {
    hide Plain;
    if pos == |buf| {
      assert buf[pos..] == buf[..0];
      PlainNone(s, buf);
    }
  }

  // ---- adler32_combine_ ----

  const START: Sums := Sums(1, 0)

  /** The sums of two strings, from their own sums. */
  function Combined(s: Sums, t: Sums, n: nat): (r: Sums)
    requires s.s1 + t.s1 + BASE >= 1
  {
    Sums((s.s1 + t.s1 + BASE - 1) % BASE, (n % BASE * s.s1 % BASE + s.s2 + t.s2 + BASE - n % BASE) % BASE)
  }

  /** adler32_combine_. */
  method Combine(adler1: nat, adler2: nat, len2: int) returns (r: nat)
    requires Split(adler1) == Reduced(Split(adler1)) && Split(adler2) == Reduced(Split(adler2))
    ensures len2 < 0 ==> r == 0xffff_ffff
    ensures len2 >= 0 ==> r == Value(Combined(Split(adler1), Split(adler2), len2))
  {
    hide Reduced, Value;
    if len2 < 0 {
      return 0xffff_ffff;
    }
    var s, t := Split(adler1), Split(adler2);
    ReducedTwice(s);
    ReducedTwice(t);
    var rem := len2 % BASE;
    var sum1, sum2 := s.s1, rem * s.s1;
    MulLe(rem, BASE - 1, sum1);
    MulLe(sum1, BASE - 1, BASE - 1);
    assert sum2 < TWO32;
    sum2 := sum2 % BASE;
    sum1 := sum1 + t.s1 + BASE - 1;
    sum2 := sum2 + (s.s2 + t.s2 + BASE - rem);
    var a, b := Subtract(sum1, sum2);
    r := Value(Sums(a, b));
  }

  /** The conditional subtractions. */
  method Subtract(sum1: nat, sum2: nat) returns (a: nat, b: nat)
    requires sum1 < 3 * BASE && sum2 < 4 * BASE
    ensures a == sum1 % BASE && b == sum2 % BASE
  {
    a, b := sum1, sum2;
    if a >= BASE { a := a - BASE; }
    if a >= BASE { a := a - BASE; }
    if b >= 2 * BASE { b := b - 2 * BASE; }
    if b >= BASE { b := b - BASE; }
  }

  /** Combining the checksum of x, whatever it was started from, with that of y gives the checksum of both. */
  lemma CombineConcat(s: Sums, x: seq<Byte>, y: seq<Byte>)
    requires s == Reduced(s)
    ensures Combined(Update(s, x), Update(START, y), |y|) == Update(s, x + y)
  {
    hide Update, Total, Weighted, Combined;
    UpdateIsPlain(s, x);
    UpdateIsPlain(START, y);
    UpdateIsPlain(s, x + y);
    PlainConcat(s, x, y);
    var p := Plain(s, x);
    FirstSum(p.s1, Total(y));
    SecondSum(p.s1, p.s2, |y|, Weighted(y));
    CombinedIs(Reduced(p), Reduced(Plain(START, y)), |y|);
  }

  lemma CombinedIs(s: Sums, t: Sums, n: nat)
    requires s.s1 + t.s1 + BASE >= 1
    ensures Combined(s, t, n).s1 == (s.s1 + t.s1 + BASE - 1) % BASE
    ensures Combined(s, t, n).s2 == (n % BASE * s.s1 % BASE + s.s2 + t.s2 + BASE - n % BASE) % BASE
  {
  }

  lemma FirstSum(a: nat, y: nat)
    ensures (a % BASE + (1 + y) % BASE + BASE - 1) % BASE == (a + y) % BASE
  {
    ModStep(a, (1 + y) % BASE + BASE - 1);
    ModStep(1 + y, a + BASE - 1);
    ModOff(1, a + y);
  }

  lemma SecondSum(a: nat, b: nat, n: nat, w: nat)
    ensures (n % BASE * (a % BASE) % BASE + b % BASE + (0 + n * 1 + w) % BASE + BASE - n % BASE) % BASE ==
      (b + n * a + w) % BASE
  {
    var m := n % BASE;
    ModTimes(m, a);
    ModTimes(a, n);
    assert m * a == a * m && n * a == a * n;
    assert m * (a % BASE) % BASE == n * a % BASE;
    ModStep(n * a, b % BASE + (n + w) % BASE + BASE - m);
    ModStep(b, n * a + (n + w) % BASE + BASE - m);
    ModStep(n + w, n * a + b + BASE - m);
    var q := n / BASE;
    assert n == q * BASE + m;
    Distrib(q, 1, BASE);
    ModOff(q + 1, b + n * a + w);
  }
}
