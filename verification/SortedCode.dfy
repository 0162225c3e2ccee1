/** The coded symbols in (length, value) order: the order in which inftrees.c enters them in its tables. */
module SortedCode {
  import opened Arith
  import opened Counting
  import opened Canonical

  /** How many codes are shorter than l. */
  function Offs(lens: seq<nat>, l: nat): (r: nat)
  {
    if l <= 1 then 0 else Offs(lens, l - 1) + Count(lens, l - 1)
  }

  /** The number of coded symbols. */
  function Symbols(lens: seq<nat>): (n: nat) { Offs(lens, MAX_BITS + 1) }

  /** The place of symbol s in the order. */
  function Rank(lens: seq<nat>, s: nat): (r: nat)
    requires Coded(lens, s)
  {
    Offs(lens, lens[s]) + Count(lens[..s], lens[s])
  }

  lemma {:induction false} OffsMono(lens: seq<nat>, l: nat, m: nat)
    requires l <= m
    ensures Offs(lens, l) <= Offs(lens, m)
    decreases m - l
  {
    if l < m { OffsMono(lens, l, m - 1); }
  }

  lemma {:induction false} OffsSnoc(lens: seq<nat>, x: nat, l: nat)
    ensures Offs(lens + [x], l) == Offs(lens, l) + (if 1 <= x < l then 1 else 0)
  {
    if l > 1 {
      OffsSnoc(lens, x, l - 1);
      assert (lens + [x])[..|lens|] == lens;
    }
  }

  lemma {:induction false} OffsEmpty(l: nat)
    ensures Offs([], l) == 0
  {
    if l > 1 { OffsEmpty(l - 1); }
  }

  lemma {:induction false} OffsBound(lens: seq<nat>, l: nat)
    ensures Offs(lens, l) <= |lens|
  {
    if |lens| == 0 {
      OffsEmpty(l);
    } else {
      var front := lens[..|lens| - 1];
      OffsBound(front, l);
      OffsSnoc(front, lens[|lens| - 1], l);
      assert lens == front + [lens[|lens| - 1]];
    }
  }

  lemma RankRange(lens: seq<nat>, s: nat)
    requires Coded(lens, s)
    ensures Offs(lens, lens[s]) <= Rank(lens, s) < Offs(lens, lens[s] + 1)
    ensures Bounded(lens) ==> Rank(lens, s) < Symbols(lens)
  {
    CountBelow(lens, s, lens[s]);
    if Bounded(lens) { OffsMono(lens, lens[s] + 1, MAX_BITS + 1); }
  }

  lemma RankOrder(lens: seq<nat>, s: nat, t: nat)
    requires Coded(lens, s) && Coded(lens, t)
    requires lens[s] < lens[t] || (lens[s] == lens[t] && s < t)
    ensures Rank(lens, s) < Rank(lens, t)
  {
    if lens[s] < lens[t] {
      RankRange(lens, s);
      RankRange(lens, t);
      OffsMono(lens, lens[s] + 1, lens[t]);
    } else {
      CountStep(lens, s, lens[s]);
      CountMono(lens, s + 1, t, lens[s]);
    }
  }

  lemma RankInjective(lens: seq<nat>, s: nat, t: nat)
    requires Coded(lens, s) && Coded(lens, t) && Rank(lens, s) == Rank(lens, t)
    ensures s == t
  {
    if s != t {
      if lens[s] < lens[t] || (lens[s] == lens[t] && s < t) {
        RankOrder(lens, s, t);
      } else {
        RankOrder(lens, t, s);
      }
    }
  }

  lemma {:induction false} FindRankBelow(lens: seq<nat>, i: nat, m: nat) returns (s: nat)
    requires i < Offs(lens, m)
    ensures Coded(lens, s) && Rank(lens, s) == i && lens[s] < m
    decreases m
  {
    if Offs(lens, m - 1) <= i {
      s := FindKth(lens, m - 1, i - Offs(lens, m - 1));
    } else {
      s := FindRankBelow(lens, i, m - 1);
    }
  }

  /** The symbol of rank i. */
  ghost function SymAt(lens: seq<nat>, i: nat): (s: nat)
    requires i < Symbols(lens)
    ensures Coded(lens, s) && Rank(lens, s) == i
  {
    assert exists s :: Coded(lens, s) && Rank(lens, s) == i by {
      var s := FindRankBelow(lens, i, MAX_BITS + 1);
    }
    var s :| Coded(lens, s) && Rank(lens, s) == i;
    s
  }

  lemma SymAtRank(lens: seq<nat>, s: nat)
    requires Coded(lens, s) && Bounded(lens)
    ensures Rank(lens, s) < Symbols(lens) && SymAt(lens, Rank(lens, s)) == s
  {
    RankRange(lens, s);
    RankInjective(lens, s, SymAt(lens, Rank(lens, s)));
  }

  /** The length of the code of rank i; past the last one, 0. */
  ghost function LenAt(lens: seq<nat>, i: nat): (l: nat)
    ensures i < Symbols(lens) ==> l > 0
    ensures Bounded(lens) ==> l <= MAX_BITS
  {
    if i < Symbols(lens) then lens[SymAt(lens, i)] else 0
  }

  /** A length is reached exactly between its offsets. */
  lemma LenAtOffs(lens: seq<nat>, i: nat, l: nat)
    requires i < Symbols(lens)
    ensures Offs(lens, l) <= i < Offs(lens, l + 1) ==> LenAt(lens, i) == l
    ensures LenAt(lens, i) == l ==> Offs(lens, l) <= i < Offs(lens, l + 1)
  {
    var s := SymAt(lens, i);
    RankRange(lens, s);
    if lens[s] < l { OffsMono(lens, lens[s] + 1, l); }
    if lens[s] > l { OffsMono(lens, l + 1, lens[s]); }
  }

  lemma LenAtMono(lens: seq<nat>, i: nat, j: nat)
    requires i <= j < Symbols(lens)
    ensures LenAt(lens, i) <= LenAt(lens, j)
  {
    LenAtOffs(lens, i, LenAt(lens, i));
    LenAtOffs(lens, j, LenAt(lens, j));
    if LenAt(lens, j) < LenAt(lens, i) {
      OffsMono(lens, LenAt(lens, j) + 1, LenAt(lens, i));
    }
  }

  /** Where the interval of the symbol of rank i starts; past the last one, where they end. */
  ghost function PosAt(lens: seq<nat>, i: nat): (p: nat)
    requires Bounded(lens)
  {
    if i < Symbols(lens) then Start(lens, SymAt(lens, i)) else Below(lens, MAX_BITS + 1)
  }

  lemma {:induction false} SameOffsSameBelow(lens: seq<nat>, l: nat, m: nat)
    requires 1 <= l <= m <= MAX_BITS + 1 && Offs(lens, l) == Offs(lens, m)
    ensures Below(lens, l) == Below(lens, m)
    decreases m - l
  {
    if l < m {
      OffsMono(lens, l, m - 1);
      SameOffsSameBelow(lens, l, m - 1);
      assert Count(lens, m - 1) == 0;
    }
  }

  /** The position at rank i in terms of its offset within its length. */
  lemma PosAtOffs(lens: seq<nat>, i: nat, l: nat)
    requires Bounded(lens) && 1 <= l <= MAX_BITS && Offs(lens, l) <= i <= Offs(lens, l + 1)
    ensures PosAt(lens, i) == Below(lens, l) + (i - Offs(lens, l)) * Size(l)
  {
    OffsMono(lens, l + 1, MAX_BITS + 1);
    if i < Offs(lens, l + 1) {
      hide Count, Size, Below;
      LenAtOffs(lens, i, l);
    } else {
      PosAtNext(lens, l);
    }
  }

  lemma PosAtNext(lens: seq<nat>, l: nat)
    requires Bounded(lens) && 1 <= l <= MAX_BITS
    ensures PosAt(lens, Offs(lens, l + 1)) == Below(lens, l + 1)
  {
    hide Count, Size, Below;
    var i := Offs(lens, l + 1);
    OffsMono(lens, l + 1, MAX_BITS + 1);
    if i < Symbols(lens) {
      var s := SymAt(lens, i);
      LenAtOffs(lens, i, lens[s]);
      if lens[s] <= l { OffsMono(lens, lens[s] + 1, l + 1); }
      OffsMono(lens, l + 1, lens[s]);
      SameOffsSameBelow(lens, l + 1, lens[s]);
    } else {
      SameOffsSameBelow(lens, l + 1, MAX_BITS + 1);
    }
  }

  /** Neighbours in the order own adjacent intervals. */
  lemma PosStep(lens: seq<nat>, i: nat)
    requires Bounded(lens) && i < Symbols(lens)
    ensures PosAt(lens, i + 1) == PosAt(lens, i) + Size(LenAt(lens, i))
  {
    var l := LenAt(lens, i);
    LenAtOffs(lens, i, l);
    PosAtOffs(lens, i, l);
    PosAtOffs(lens, i + 1, l);
    Distrib(i - Offs(lens, l), 1, Size(l));
  }

  lemma {:induction false} PosMono(lens: seq<nat>, i: nat, j: nat)
    requires Bounded(lens) && i <= j <= Symbols(lens)
    ensures PosAt(lens, i) + (j - i) <= PosAt(lens, j)
    decreases j - i
  {
    if i < j {
      PosMono(lens, i, j - 1);
      PosStep(lens, j - 1);
    }
  }

  lemma PosZero(lens: seq<nat>)
    requires Bounded(lens)
    ensures PosAt(lens, 0) == 0
  {
    PosAtOffsZero(lens, 1);
  }

  lemma {:induction false} PosAtOffsZero(lens: seq<nat>, l: nat)
    requires Bounded(lens) && 1 <= l <= MAX_BITS && Offs(lens, l) == 0
    ensures PosAt(lens, 0) == 0
  {
    SameOffsSameBelow(lens, 1, l);
    PosAtOffs(lens, 0, l);
  }
}
