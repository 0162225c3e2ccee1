/** inftrees.c zng_inflate_table: counting, checking and sorting the code lengths. */
module TablePrep {
  import opened Arith
  import opened Bits
  import opened Counting
  import opened Canonical
  import opened SortedCode

  /** count_lengths: how many symbols have each length. */
  method CountLengths(lens: seq<nat>) returns (count: seq<nat>)
    requires Bounded(lens)
    ensures |count| == MAX_BITS + 1
    ensures forall l :: 0 <= l <= MAX_BITS ==> count[l] == Count(lens, l)
  {
    hide Count;
    count := seq(MAX_BITS + 1, i => 0);
    CountZero();
    assert lens[..0] == [];
    for sym := 0 to |lens|
      invariant |count| == MAX_BITS + 1
      invariant forall l :: 0 <= l <= MAX_BITS ==> count[l] == Count(lens[..sym], l)
    {
      forall l | 0 <= l <= MAX_BITS
        ensures Count(lens[..sym + 1], l) == Count(lens[..sym], l) + (if lens[sym] == l then 1 else 0)
      {
        CountStep(lens, sym, l);
      }
      count := count[lens[sym] := count[lens[sym]] + 1];
    }
    assert lens[..|lens|] == lens;
  }

  lemma CountZero()
    ensures forall l :: Count([], l) == 0
  {
  }

  /** The longest length in use, or 0. */
  method FindMax(count: seq<nat>, ghost lens: seq<nat>) returns (max: nat)
    requires Bounded(lens) && |count| == MAX_BITS + 1
    requires forall l :: 1 <= l <= MAX_BITS ==> count[l] == Count(lens, l)
    ensures max <= MAX_BITS && Offs(lens, max + 1) == Symbols(lens)
    ensures max > 0 ==> Count(lens, max) > 0
  {
    hide Count;
    max := MAX_BITS;
    while max >= 1
      invariant max <= MAX_BITS && Offs(lens, max + 1) == Symbols(lens)
    {
      if count[max] != 0 { break; }
      max := max - 1;
    }
  }

  /** The shortest length in use. */
  method FindMin(count: seq<nat>, max: nat, ghost lens: seq<nat>) returns (min: nat)
    requires Bounded(lens) && |count| == MAX_BITS + 1 && 1 <= max <= MAX_BITS
    requires forall l :: 1 <= l <= MAX_BITS ==> count[l] == Count(lens, l)
    requires Count(lens, max) > 0
    ensures 1 <= min <= max && Offs(lens, min) == 0 && Count(lens, min) > 0
  {
    hide Count;
    min := 1;
    while min < max
      invariant 1 <= min <= max && Offs(lens, min) == 0
    {
      if count[min] != 0 { break; }
      min := min + 1;
    }
  }

  lemma LeftStep(left: int, c: int, z: nat, y: nat, room: int)
    requires left * z == room && z == 2 * y
    ensures (left * 2 - c) * y == room - c * y
  {
    Distrib(left * 2, -c, y);
    MulAssoc(left, 2, y);
  }

  lemma SignOf(left: int, z: nat, room: int)
    requires left * z == room && z > 0
    ensures left < 0 <==> room < 0
    ensures left == 0 <==> room == 0
  {
  }

  /** The available codes that the lengths leave: negative if and only if the set is over-subscribed. */
  method CheckLengths(count: seq<nat>, ghost lens: seq<nat>) returns (left: int)
    requires Bounded(lens) && |count| == MAX_BITS + 1
    requires forall l :: 1 <= l <= MAX_BITS ==> count[l] == Count(lens, l)
    ensures left < 0 <==> !Kraft(lens)
    ensures left == 0 <==> Complete(lens)
  {
    hide Count, Pow2, Size, Below;
    left := 1;
    var len := 1;
    LeftInit(lens);
    while len <= MAX_BITS
      invariant 1 <= len <= MAX_BITS + 1 && left >= 0
      invariant left * Size(len - 1) == Pow2(MAX_BITS) - Below(lens, len)
    {
      SizeStep(len);
      BelowStep(lens, len);
      LeftStep(left, count[len], Size(len - 1), Size(len), Pow2(MAX_BITS) - Below(lens, len));
      left := left * 2;
      left := left - count[len];
      SignOf(left, Size(len), Pow2(MAX_BITS) - Below(lens, len + 1));
      if left < 0 {
        BelowMono(lens, len + 1, MAX_BITS + 1);
        return;
      }
      len := len + 1;
    }
    SignOf(left, Size(MAX_BITS), Pow2(MAX_BITS) - Below(lens, MAX_BITS + 1));
  }

  lemma LeftInit(lens: seq<nat>)
    ensures 1 * Size(0) == Pow2(MAX_BITS) - Below(lens, 1)
  {
  }

  /** work[] holds the coded symbols in (length, value) order. */
  ghost predicate IsSorted(work: seq<nat>, lens: seq<nat>)
  {
    Symbols(lens) <= |work| &&
    forall i :: 0 <= i < Symbols(lens) ==> work[i] == SymAt(lens, i)
  }

  /** Every symbol below n is at its rank. */
  ghost predicate SortedUpTo(work: seq<nat>, lens: seq<nat>, n: nat)
  {
    Symbols(lens) <= |work| && Bounded(lens) &&
    forall s :: 0 <= s < n && Coded(lens, s) ==> Rank(lens, s) < |work| && work[Rank(lens, s)] == s
  }

  /** offs[] after the first n symbols have been placed. */
  ghost predicate Placing(offs: seq<nat>, lens: seq<nat>, n: nat)
  {
    n <= |lens| && |offs| == MAX_BITS + 1 &&
    forall l :: 1 <= l <= MAX_BITS ==> offs[l] == Offs(lens, l) + Count(lens[..n], l)
  }

  method Offsets(count: seq<nat>, ghost lens: seq<nat>) returns (offs: seq<nat>)
    requires |count| == MAX_BITS + 1
    requires forall l :: 1 <= l <= MAX_BITS ==> count[l] == Count(lens, l)
    ensures Placing(offs, lens, 0)
  {
    hide Count;
    offs := [0, 0];
    for len := 1 to MAX_BITS
      invariant |offs| == len + 1
      invariant forall l :: 1 <= l <= len ==> offs[l] == Offs(lens, l)
    {
      offs := offs + [offs[len] + count[len]];
    }
    CountZero();
    assert lens[..0] == [];
  }

  lemma PlaceNext(offs: seq<nat>, lens: seq<nat>, n: nat)
    requires Placing(offs, lens, n) && n < |lens| && Bounded(lens)
    ensures !Coded(lens, n) ==> Placing(offs, lens, n + 1)
    ensures Coded(lens, n) ==> offs[lens[n]] == Rank(lens, n)
    ensures Coded(lens, n) ==> Placing(offs[lens[n] := offs[lens[n]] + 1], lens, n + 1)
  {
    forall l | 1 <= l <= MAX_BITS
      ensures Count(lens[..n + 1], l) == Count(lens[..n], l) + (if lens[n] == l then 1 else 0)
    {
      CountStep(lens, n, l);
    }
  }

  lemma SortNext(work: seq<nat>, lens: seq<nat>, n: nat)
    requires SortedUpTo(work, lens, n) && n < |lens|
    ensures !Coded(lens, n) ==> SortedUpTo(work, lens, n + 1)
    ensures Coded(lens, n) ==> Rank(lens, n) < |work| && SortedUpTo(work[Rank(lens, n) := n], lens, n + 1)
  {
    hide Symbols, Rank;
    if Coded(lens, n) {
      RankRange(lens, n);
      forall s | 0 <= s < n && Coded(lens, s)
        ensures Rank(lens, s) != Rank(lens, n)
      {
        if Rank(lens, s) == Rank(lens, n) { RankInjective(lens, s, n); }
      }
    }
  }

  lemma SortDone(work: seq<nat>, lens: seq<nat>)
    requires SortedUpTo(work, lens, |lens|)
    ensures IsSorted(work, lens)
  {
    forall i | 0 <= i < Symbols(lens)
      ensures work[i] == SymAt(lens, i)
    {
      var s := SymAt(lens, i);
      assert Coded(lens, s);
    }
  }

  /** Sort symbols by length, by symbol order within each length. */
  method SortSymbols(lens: seq<nat>, count: seq<nat>) returns (work: seq<nat>)
    requires Bounded(lens) && |count| == MAX_BITS + 1 && Symbols(lens) <= |lens|
    requires forall l :: 1 <= l <= MAX_BITS ==> count[l] == Count(lens, l)
    ensures IsSorted(work, lens)
  {
    hide Count, Offs, Rank, Symbols, Placing, SortedUpTo;
    var offs := Offsets(count, lens);
    work := seq(|lens|, i => 0);
    SortInit(work, lens);
    for sym := 0 to |lens|
      invariant Placing(offs, lens, sym) && SortedUpTo(work, lens, sym)
    {
      PlaceNext(offs, lens, sym);
      SortNext(work, lens, sym);
      if lens[sym] != 0 {
        assert Coded(lens, sym);
        SizeOf(offs, lens, sym);
        work := work[offs[lens[sym]] := sym];
        offs := offs[lens[sym] := offs[lens[sym]] + 1];
      }
    }
    SortDone(work, lens);
  }

  lemma SizeOf(offs: seq<nat>, lens: seq<nat>, n: nat)
    requires Placing(offs, lens, n)
    ensures |offs| == MAX_BITS + 1
  {
  }

  lemma SortInit(work: seq<nat>, lens: seq<nat>)
    requires Bounded(lens) && Symbols(lens) <= |work|
    ensures SortedUpTo(work, lens, 0)
  {
  }
}
