/** Adler-32 as section 8.2 of RFC 1950 defines it, and the sums behind it. */
module AdlerSpec {
  import opened Arith
  import opened Bits

  const BASE: nat := 65521

  /** The two sums, each taken modulo 65521 with every byte. */
  datatype Sums = Sums(s1: nat, s2: nat)

  function Update(s: Sums, data: seq<Byte>): (r: Sums)
  {
    if |data| == 0 then s
    else
      var q := Update(s, data[..|data| - 1]);
      var s1 := (q.s1 + data[|data| - 1]) % BASE;
      Sums(s1, (q.s2 + s1) % BASE)
  }

  /** One more byte: a sum that reaches 65521, the largest prime below 65536, starts again at 0. */
  lemma OneByte(s: Sums, c: Byte)
    requires s.s1 <= 65520 && s.s2 <= 65520
    ensures var s1 := if s.s1 + c <= 65520 then s.s1 + c else s.s1 + c - 65521;
      Update(s, [c]) == Sums(s1, if s.s2 + s1 <= 65520 then s.s2 + s1 else s.s2 + s1 - 65521)
  {
    assert [c][..0] == [];
  }

  // ---- the sums without the modulus ----

  function Total(data: seq<Byte>): (n: nat) { if |data| == 0 then 0 else Total(data[..|data| - 1]) + data[|data| - 1] }

  /** Every byte counted as often as the second sum counts it: |data| times the first, once the last. */
  function Weighted(data: seq<Byte>): (n: nat)
  {
    if |data| == 0 then 0 else Weighted(data[..|data| - 1]) + Total(data)
  }

  lemma {:induction false} TotalConcat(a: seq<Byte>, b: seq<Byte>)
    ensures Total(a + b) == Total(a) + Total(b)
    decreases |b|
  {
    if |b| == 0 {
      assert a + b == a;
    } else {
      var n := |b| - 1;
      assert (a + b)[..|a + b| - 1] == a + b[..n];
      TotalConcat(a, b[..n]);
    }
  }

  lemma {:induction false} WeightedConcat(a: seq<Byte>, b: seq<Byte>)
    ensures Weighted(a + b) == Weighted(a) + |b| * Total(a) + Weighted(b)
    decreases |b|
  {
    if |b| == 0 {
      assert a + b == a;
    } else {
      var n := |b| - 1;
      assert (a + b)[..|a + b| - 1] == a + b[..n];
      WeightedConcat(a, b[..n]);
      TotalConcat(a, b);
      Distrib(n, 1, Total(a));
    }
  }

  /** 255n and 255n(n+1)/2 are the most that n bytes come to. */
  lemma {:induction false} SumBounds(data: seq<Byte>)
    ensures Total(data) <= 255 * |data| && 2 * Weighted(data) <= 255 * (|data| * (|data| + 1))
  {
    if |data| > 0 {
      var n := |data| - 1;
      SumBounds(data[..n]);
      Distrib(n, 1, n + 2);
      DistribLeft(n, n + 1, 1);
    }
  }

  /** What the sums are, started at s and not reduced. */
  function Plain(s: Sums, data: seq<Byte>): (r: Sums)
  {
    Sums(s.s1 + Total(data), s.s2 + |data| * s.s1 + Weighted(data))
  }

  function Reduced(s: Sums): (r: Sums) { Sums(s.s1 % BASE, s.s2 % BASE) }

  lemma PlainConcat(s: Sums, a: seq<Byte>, b: seq<Byte>)
    ensures Plain(s, a + b) == Plain(Plain(s, a), b)
  {
    TotalConcat(a, b);
    WeightedConcat(a, b);
    Distrib(|a|, |b|, s.s1);
    DistribLeft(|b|, s.s1, Total(a));
  }

  lemma ModStep(x: nat, y: nat)
    ensures (x % BASE + y) % BASE == (x + y) % BASE
  {
  }

  /** The sums modulo 65521 are the plain sums, reduced once. */
  lemma {:induction false} UpdateIsPlain(s: Sums, data: seq<Byte>)
    requires s == Reduced(s)
    ensures Update(s, data) == Reduced(Plain(s, data))
  {
    if |data| > 0 {
      var n := |data| - 1;
      var front, b := data[..n], data[n];
      UpdateIsPlain(s, front);
      assert data == front + [b];
      PlainConcat(s, front, [b]);
      PlainOne(Plain(s, front), b);
      UpdateOne(Plain(s, front), b);
    }
  }

  lemma PlainOne(s: Sums, b: Byte)
    ensures Plain(s, [b]) == Sums(s.s1 + b, s.s2 + s.s1 + b)
  {
    assert [b][..0] == [];
    assert Total([b]) == b && Weighted([b]) == b;
  }

  lemma UpdateOne(s: Sums, b: Byte)
    ensures (s.s1 % BASE + b) % BASE == (s.s1 + b) % BASE
    ensures (s.s2 % BASE + (s.s1 + b) % BASE) % BASE == (s.s2 + s.s1 + b) % BASE
  {
    ModStep(s.s1, b);
    ModStep(s.s2, (s.s1 + b) % BASE);
    ModStep(s.s1 + b, s.s2);
  }

  /** Reducing the sums on the way changes nothing in the end. */
  lemma ReducedPlain(s: Sums, data: seq<Byte>)
    ensures Reduced(Plain(Reduced(s), data)) == Reduced(Plain(s, data))
  {
    ModStep(s.s1, Total(data));
    var n := |data|;
    ModTimes(n, s.s1);
    ModStep(n * (s.s1 % BASE), s.s2 % BASE + Weighted(data));
    ModStep(n * s.s1, s.s2 % BASE + Weighted(data));
    ModStep(s.s2, n * s.s1 + Weighted(data));
  }

  lemma ModTimes(n: nat, x: nat)
    ensures n * (x % BASE) % BASE == n * x % BASE
  {
    var q, r := x / BASE, x % BASE;
    assert x == q * BASE + r;
    DistribLeft(n, q * BASE, r);
    MulAssoc(n, q, BASE);
    ModOff(n * q, n * r);
  }

  lemma ModOff(q: nat, y: nat)
    ensures (q * BASE + y) % BASE == y % BASE
  {
    ModIs(q, 0, BASE);
    ModSum(q * BASE, y, BASE);
  }
}
