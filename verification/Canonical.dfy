/** Canonical Huffman codes, section 3.2.2 of RFC 1951, described by intervals. A code of length l owns 2^(15-l) of the
    2^15 strings of 15 bits. Ordering the coded symbols by length and then by value lays those intervals end to end,
    which is what makes the code prefix-free, and complete exactly when the intervals fill everything. */
module Canonical {
  import opened Arith
  import opened Bits
  import opened Counting

  const MAX_BITS: nat := 15

  predicate Bounded(lens: seq<nat>) { forall i :: 0 <= i < |lens| ==> lens[i] <= MAX_BITS }

  predicate Coded(lens: seq<nat>, s: nat) { s < |lens| && 0 < lens[s] }

  /** The number of 15-bit strings that start with one given code of length l. */
  function Size(l: nat): (r: nat)
    requires l <= MAX_BITS
    ensures r > 0
  {
    Pow2(MAX_BITS - l)
  }

  /** The 15-bit strings owned by all codes shorter than l. */
  function Below(lens: seq<nat>, l: nat): (r: nat)
    requires l <= MAX_BITS + 1
  {
    if l <= 1 then 0 else Below(lens, l - 1) + Count(lens, l - 1) * Size(l - 1)
  }

  lemma BelowStep(lens: seq<nat>, l: nat)
    requires 1 <= l <= MAX_BITS
    ensures Below(lens, l + 1) == Below(lens, l) + Count(lens, l) * Size(l)
  {
  }

  /** The first code value of length l, as the recurrence of section 3.2.2 of RFC 1951 computes it. */
  function First(lens: seq<nat>, l: nat): (r: nat)
  {
    if l == 0 then 0
    else 2 * (First(lens, l - 1) + if l == 1 then 0 else Count(lens, l - 1))
  }

  /** No string is owned twice. */
  predicate Kraft(lens: seq<nat>) { Bounded(lens) && Below(lens, MAX_BITS + 1) <= Pow2(MAX_BITS) }

  /** Every string is owned once. */
  predicate Complete(lens: seq<nat>) { Bounded(lens) && Below(lens, MAX_BITS + 1) == Pow2(MAX_BITS) }

  function CodeVal(lens: seq<nat>, s: nat): (r: nat)
    requires Coded(lens, s)
  {
    First(lens, lens[s]) + Count(lens[..s], lens[s])
  }

  /** Where the interval of symbol s starts. */
  function Start(lens: seq<nat>, s: nat): (r: nat)
    requires Coded(lens, s) && Bounded(lens)
  {
    Below(lens, lens[s]) + Count(lens[..s], lens[s]) * Size(lens[s])
  }

  /** The bits of the code of s in the order in which they are sent. */
  function Codeword(lens: seq<nat>, s: nat): (w: Bits)
    requires Coded(lens, s)
    ensures |w| == lens[s]
  {
    ToMsb(CodeVal(lens, s), lens[s])
  }

  /** The bits of s, or none if it has no code. */
  function CodeBits(lens: seq<nat>, s: nat): (w: Bits) { if Coded(lens, s) then Codeword(lens, s) else [] }

  lemma SizeStep(l: nat)
    requires 1 <= l <= MAX_BITS
    ensures Size(l - 1) == 2 * Size(l)
  {
  }

  lemma FirstStep(f: nat, c: nat, z: nat)
    ensures 2 * (f + c) * z == f * (2 * z) + c * (2 * z)
  {
  }

  lemma {:induction false} FirstBelow(lens: seq<nat>, l: nat)
    requires 1 <= l <= MAX_BITS
    ensures First(lens, l) * Size(l) == Below(lens, l)
  {
    if l == 1 {
      assert First(lens, 1) == 0;
    } else {
      FirstBelow(lens, l - 1);
      SizeStep(l);
      FirstStep(First(lens, l - 1), Count(lens, l - 1), Size(l));
    }
  }

  lemma StartIsCode(lens: seq<nat>, s: nat)
    requires Coded(lens, s) && Bounded(lens)
    ensures Start(lens, s) == CodeVal(lens, s) * Size(lens[s])
  {
    FirstBelow(lens, lens[s]);
    Distrib(First(lens, lens[s]), Count(lens[..s], lens[s]), Size(lens[s]));
  }

  lemma {:induction false} BelowMono(lens: seq<nat>, l: nat, m: nat)
    requires l <= m <= MAX_BITS + 1
    ensures Below(lens, l) <= Below(lens, m)
    decreases m - l
  {
    hide Count, Size;
    if l < m {
      BelowMono(lens, l, m - 1);
      if m > 1 { MulLe(0, Count(lens, m - 1), Size(m - 1)); }
    }
  }

  /** The interval of a symbol ends before the longer codes start. */
  lemma EndsBelow(lens: seq<nat>, s: nat)
    requires Coded(lens, s) && Bounded(lens)
    ensures Start(lens, s) + Size(lens[s]) <= Below(lens, lens[s] + 1)
  {
    var l := lens[s];
    CountBelow(lens, s, l);
    MulLt(Count(lens[..s], l), Count(lens, l), Size(l));
  }

  lemma CodeValBound(lens: seq<nat>, s: nat)
    requires Coded(lens, s) && Kraft(lens)
    ensures CodeVal(lens, s) < Pow2(lens[s])
    ensures Start(lens, s) + Size(lens[s]) <= Pow2(MAX_BITS)
  {
    EndsBelow(lens, s);
    BelowMono(lens, lens[s] + 1, MAX_BITS + 1);
    StartIsCode(lens, s);
    Pow2Add(lens[s], MAX_BITS - lens[s]);
    var v, p, z := CodeVal(lens, s), Pow2(lens[s]), Size(lens[s]);
    if v >= p {
      MulLe(p, v, z);
    }
  }

  /** Symbols that come first in (length, value) order own earlier strings. */
  lemma Ordered(lens: seq<nat>, s: nat, t: nat)
    requires Coded(lens, s) && Coded(lens, t) && Bounded(lens)
    requires lens[s] < lens[t] || (lens[s] == lens[t] && s < t)
    ensures Start(lens, s) + Size(lens[s]) <= Start(lens, t)
  {
    hide Count, Size, Below;
    if lens[s] < lens[t] {
      EndsBelow(lens, s);
      BelowMono(lens, lens[s] + 1, lens[t]);
    } else {
      var l := lens[s];
      CountStep(lens, s, l);
      CountMono(lens, s + 1, t, l);
      MulLt(Count(lens[..s], l), Count(lens[..t], l), Size(l));
    }
  }

  /** Where a string of at most 15 bits sits among the 2^15 strings. */
  function Pos(b: Bits): (r: nat)
    requires |b| <= MAX_BITS
  {
    FromMsb(b) * Size(|b|)
  }

  lemma CodewordPos(lens: seq<nat>, s: nat)
    requires Coded(lens, s) && Kraft(lens)
    ensures Pos(Codeword(lens, s)) == Start(lens, s)
  {
    CodeValBound(lens, s);
    FromMsbToMsb(CodeVal(lens, s), lens[s]);
    StartIsCode(lens, s);
  }

  lemma SplitPos(u: Bits, v: Bits)
    requires |u + v| <= MAX_BITS
    ensures Pos(u) <= Pos(u + v) <= Pos(u) + Size(|u|) - Size(|u + v|)
  {
    FromMsbConcat(u, v);
    FromMsbBound(v);
    var n := |u + v|;
    Pow2Add(|v|, MAX_BITS - n);
    Scaled(FromMsb(u), FromMsb(v), Pow2(|v|), Size(n));
  }

  lemma PrefixPos(w: Bits, b: Bits)
    requires |w| <= |b| <= MAX_BITS
    ensures w <= b <==> Pos(w) <= Pos(b) < Pos(w) + Size(|w|)
  {
    var u := b[..|w|];
    assert b == u + b[|w|..];
    SplitPos(u, b[|w|..]);
    if w <= b {
      assert u == w;
    }
    if Pos(w) <= Pos(b) < Pos(w) + Size(|w|) {
      Between(FromMsb(w), FromMsb(u), Pos(b) - Pos(u), Size(|w|));
      ToMsbFromMsb(u);
      ToMsbFromMsb(w);
    }
  }

  /** No code is a prefix of another one. */
  lemma PrefixFree(lens: seq<nat>, s: nat, t: nat)
    requires Kraft(lens) && Coded(lens, s) && Coded(lens, t)
    requires Codeword(lens, s) <= Codeword(lens, t)
    ensures s == t
  {
    PrefixPos(Codeword(lens, s), Codeword(lens, t));
    CodewordPos(lens, s);
    CodewordPos(lens, t);
    if s != t {
      if lens[s] < lens[t] || (lens[s] == lens[t] && s < t) {
        Ordered(lens, s, t);
      } else {
        Ordered(lens, t, s);
      }
    }
  }

  /** At most one code starts a given string. */
  lemma UniqueSymbol(lens: seq<nat>, b: Bits, s: nat, t: nat)
    requires Kraft(lens) && Coded(lens, s) && Coded(lens, t)
    requires Codeword(lens, s) <= b && Codeword(lens, t) <= b
    ensures s == t
  {
    var u, v := Codeword(lens, s), Codeword(lens, t);
    if |u| <= |v| {
      assert u == b[..|u|] == v[..|u|];
      PrefixFree(lens, s, t);
    } else {
      assert v == b[..|v|] == u[..|v|];
      PrefixFree(lens, t, s);
    }
  }

  /** The length class that owns position x. */
  lemma {:induction false} FindLength(lens: seq<nat>, x: nat, m: nat) returns (l: nat)
    requires m <= MAX_BITS + 1 && x < Below(lens, m)
    ensures 1 <= l < m && Below(lens, l) <= x < Below(lens, l + 1)
    decreases m
  {
    if Below(lens, m - 1) <= x {
      l := m - 1;
    } else {
      l := FindLength(lens, x, m - 1);
    }
  }

  lemma Quotient(d: nat, c: nat, z: nat) returns (k: nat)
    requires d < c * z
    ensures k < c && k * z <= d < k * z + z
  {
    k := d / z;
    DivMul(d, z);
    if k >= c { MulLe(c, k, z); }
  }

  lemma FindOwner(lens: seq<nat>, x: nat) returns (s: nat)
    requires Bounded(lens) && x < Below(lens, MAX_BITS + 1)
    ensures Coded(lens, s) && Start(lens, s) <= x < Start(lens, s) + Size(lens[s])
  {
    var l := FindLength(lens, x, MAX_BITS + 1);
    var k := Quotient(x - Below(lens, l), Count(lens, l), Size(l));
    s := FindKth(lens, l, k);
  }

  /** In a complete code every string of 15 bits starts with some code. */
  lemma Covered(lens: seq<nat>, b: Bits) returns (s: nat)
    requires Complete(lens) && |b| >= MAX_BITS
    ensures Coded(lens, s) && Codeword(lens, s) <= b
  {
    var h := b[..MAX_BITS];
    FromMsbBound(h);
    assert Size(MAX_BITS) == 1;
    s := FindOwner(lens, Pos(h));
    CodewordPos(lens, s);
    PrefixPos(Codeword(lens, s), h);
    var w := Codeword(lens, s);
    assert w == h[..|w|] == b[..|w|];
  }
}
