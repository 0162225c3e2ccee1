/** trees.c build_tree: one Huffman tree from frequencies to code bit strings. */
module BuildTree {
  import opened Arith
  import opened Bits
  import opened Counting
  import opened Canonical
  import opened GenCodes
  import opened Huffman
  import opened TreeShape
  import opened Permute
  import opened MergeNodes
  import opened RadixSort
  import opened SortLeaves
  import opened LengthCounts
  import opened GenBitLen

  // ---- sums over all symbols are sums over the leaves ----

  /** The numbers below n that are not in ids. */
  ghost function Others(n: nat, ids: seq<nat>): (s: seq<nat>)
    ensures forall x :: x in s <==> 0 <= x < n && x !in ids
  {
    if n == 0 then [] else Others(n - 1, ids) + (if n - 1 in ids then [] else [n - 1])
  }

  lemma {:induction false} OthersNoDup(n: nat, ids: seq<nat>)
    ensures NoDup(Others(n, ids))
  {
    if n > 0 {
      OthersNoDup(n - 1, ids);
      assert n - 1 !in Others(n - 1, ids);
    }
  }

  lemma {:induction false} TotalZero(s: seq<nat>, g: nat -> int)
    requires forall x :: x in s ==> g(x) == 0
    ensures Total(s, g) == 0
  {
    if |s| > 0 {
      TotalZero(s[..|s| - 1], g);
    }
  }

  lemma TotalSupport(n: nat, ids: seq<nat>, g: nat -> int)
    requires NoDup(ids) && (forall i :: 0 <= i < |ids| ==> ids[i] < n) && forall x: nat :: x < n && x !in ids ==>
      g(x) == 0
    ensures Total(Range(0, n), g) == Total(ids, g)
  {
    hide Total;
    var rest := Others(n, ids);
    OthersNoDup(n, ids);
    var all := ids + rest;
    assert forall x :: x in all <==> x in ids || x in rest;
    assert forall x :: x in Range(0, n) <==> x in all by {
      forall x | 0 <= x < n ensures x in Range(0, n) { assert Range(0, n)[x] == x; }
    }
    NoDupJoin(ids, rest);
    NoDupSame(Range(0, n), all);
    TotalPerm(Range(0, n), all, g);
    TotalConcat(ids, rest, g);
    TotalZero(rest, g);
  }

  lemma NoDupJoin(a: seq<nat>, b: seq<nat>)
    requires NoDup(a) && NoDup(b) && forall x :: x in b ==> x !in a
    ensures NoDup(a + b)
  {
    var s := a + b;
    forall i, j | 0 <= i < j < |s|
      ensures s[i] != s[j]
    {
      if i < |a| <= j {
        assert s[i] in a && s[j] == b[j - |a|] && s[j] in b;
      }
    }
  }

  /** Field dl as a function. */
  function LenOf(t: seq<CtData>): (f: nat -> nat) { (x: nat) => if x < |t| then t[x].dl else 0 }

  lemma CountBySymbol(t: seq<CtData>, n: nat, ids: seq<nat>, ls: seq<nat>, l: nat)
    requires NoDup(ids) && n <= |t| && |ls| == |ids| && l > 0
    requires forall i :: 0 <= i < |ids| ==> ids[i] < n && t[ids[i]].dl == ls[i]
    requires forall x :: 0 <= x < n && x !in ids ==> t[x].dl == 0
    ensures Count(Lengths(t, n), l) == Count(ls, l)
  {
    hide Count, Total;
    var f := LenOf(t);
    assert Lengths(t, n) == Map(Range(0, n), f);
    assert ls == Map(ids, f);
    CountAsTotal(Range(0, n), f, l);
    CountAsTotal(ids, f, l);
    TotalSupport(n, ids, Is(f, l));
  }

  // ---- completeness in the terms of the canonical code ----

  lemma {:induction false} BelowIsKraft(lens: seq<nat>, cnt: seq<nat>, b: nat)
    requires |cnt| == MAX_BITS + 1 && b <= MAX_BITS && forall l :: 1 <= l <= MAX_BITS ==> cnt[l] == Count(lens, l)
    ensures Below(lens, b + 1) == CountKraft(cnt, MAX_BITS, b)
  {
    hide Count;
    if b > 0 { BelowIsKraft(lens, cnt, b - 1); }
  }

  lemma CompleteCode(lens: seq<nat>, cnt: seq<nat>, ls: seq<nat>, m: nat)
    requires Bounded(lens) && FullCode(ls, m) && Counts(cnt, ls) && m <= MAX_BITS
    requires forall l :: 1 <= l <= MAX_BITS ==> cnt[l] == Count(lens, l)
    ensures Complete(lens)
  {
    hide Below, Count, Pow2, KraftSum, CountKraft;
    KraftScale(ls, m, MAX_BITS);
    Pow2Add(MAX_BITS - m, m);
    CountsKraft(cnt, ls, MAX_BITS);
    BelowIsKraft(lens, cnt, MAX_BITS);
  }

  // ---- the sorted leaves ----

  function Weights(s: seq<nat>): (ws: seq<nat>)
    ensures |ws| == |s| && forall i :: 0 <= i < |s| ==> ws[i] == PqFreq(s[i])
  {
    Map(s, (e: nat) => PqFreq(e))
  }

  function Nodes(s: seq<nat>): (ids: seq<nat>)
    ensures |ids| == |s| && forall i :: 0 <= i < |s| ==> ids[i] == PqNode(s[i])
  {
    Map(s, (e: nat) => PqNode(e))
  }

  lemma SortedLeaves(t: seq<CtData>, elems: nat, s: seq<nat>, d: seq<nat>)
    requires IsLeaves(t, elems, s) && SortedAs(s, d) && elems <= PQ_NODES
    ensures IsLeaves(t, elems, d) && Leaves(t, Weights(d), Nodes(d), elems) && Sorted(Weights(d)) && NoDup(Nodes(d))
    ensures forall x :: 0 <= x < elems ==> (x in Nodes(d) <==> t[x].fc != 0)
    ensures forall i :: 0 <= i < |d| ==> d[i] == Pack(Weights(d)[i], Nodes(d)[i]) && Nodes(d)[i] < elems
  {
    forall i | 0 <= i < |d|
      ensures IsLeaf(t, elems, d[i])
    {
      assert d[i] in s;
    }
    var ws, ids := Weights(d), Nodes(d);
    forall i, j | 0 <= i < j < |d|
      ensures ids[i] != ids[j] && ws[i] <= ws[j]
    {
      assert IsLeaf(t, elems, d[i]) && IsLeaf(t, elems, d[j]) && d[i] < d[j];
    }
    forall x | 0 <= x < elems
      ensures x in ids <==> t[x].fc != 0
    {
      if t[x].fc != 0 {
        assert Pack(t[x].fc, x) in d;
        var i :| 0 <= i < |d| && d[i] == Pack(t[x].fc, x);
        Unpack(t[x].fc, x);
        assert ids[i] == x;
      }
      if x in ids {
        var i :| 0 <= i < |ids| && ids[i] == x;
        assert IsLeaf(t, elems, d[i]);
      }
    }
  }

  // ---- forcing two codes ----

  /** The leaves collected so far, of which forced were added with frequency 1. */
  ghost predicate Forcing(t0: seq<CtData>, t: seq<CtData>, elems: nat, s: seq<nat>, maxCode: int, forced: seq<nat>)
  {
    IsLeaves(t, elems, s) && 3 <= elems <= PQ_NODES && -1 <= maxCode < elems && |t| == |t0| &&
    (maxCode == -1 <==> |s| == 0) && (maxCode >= 0 ==> t[maxCode].fc != 0) &&
    (forall x :: maxCode < x < elems ==> t[x].fc == 0) &&
    NoDup(forced) && |forced| <= 2 &&
    (forall i :: 0 <= i < |forced| ==> forced[i] < 3 && t0[forced[i]].fc == 0) &&
    (forall x :: 0 <= x < |t| ==> t[x] == if x in forced then t0[x].(fc := 1) else t0[x])
  }

  /** Which node is forced next. */
  function ForcedNode(maxCode: int): (n: int) { if maxCode < 2 then maxCode + 1 else 0 }

  lemma ForceUnused(t0: seq<CtData>, t: seq<CtData>, elems: nat, s: seq<nat>, maxCode: int, forced: seq<nat>)
    requires Forcing(t0, t, elems, s, maxCode, forced) && |s| < 2
    ensures 0 <= ForcedNode(maxCode) < 3 && t[ForcedNode(maxCode)].fc == 0
  {
    if maxCode >= 2 {
      Unpack(t[0].fc, 0);
      Unpack(t[maxCode].fc, maxCode);
    }
  }

  lemma ForceLeaf(t: seq<CtData>, elems: nat, s: seq<nat>, node: nat)
    requires IsLeaves(t, elems, s) && node < elems <= PQ_NODES && t[node].fc == 0
    ensures IsLeaves(t[node := t[node].(fc := 1)], elems, s + [Pack(1, node)])
    ensures Pack(1, node) !in s
  {
    Unpack(1, node);
    hide Pack, PqNode;
    var t', s' := t[node := t[node].(fc := 1)], s + [Pack(1, node)];
    assert s'[|s|] == Pack(1, node);
    forall i | 0 <= i < |s'|
      ensures IsLeaf(t', elems, s'[i])
    {
      if i < |s| { assert IsLeaf(t, elems, s[i]); }
    }
    forall n | 0 <= n < elems && t'[n].fc != 0
      ensures Pack(t'[n].fc, n) in s'
    {
      if n != node { assert Pack(t[n].fc, n) in s; }
    }
  }

  lemma ForceStep(t0: seq<CtData>, t: seq<CtData>, elems: nat, s: seq<nat>, maxCode: int, forced: seq<nat>)
    requires Forcing(t0, t, elems, s, maxCode, forced) && |s| < 2 && |forced| < 2
    ensures var node := ForcedNode(maxCode);
      0 <= node < 3 && t[node].fc == 0 && Pack(1, node) !in s &&
      Forcing(t0, t[node := t[node].(fc := 1)], elems, s + [Pack(1, node)], if maxCode < 2 then node else maxCode,
        forced + [node])
  {
    hide IsLeaf, Pack;
    ForceUnused(t0, t, elems, s, maxCode, forced);
    ForceLeaf(t, elems, s, ForcedNode(maxCode));
    var node := ForcedNode(maxCode);
    assert node !in forced;
    assert forall x :: x in forced + [node] <==> x in forced || x == node;
  }

  lemma ForceStart(t: seq<CtData>, elems: nat, s: seq<nat>, maxCode: int)
    requires Scanned(t, elems, s, elems, maxCode) && 3 <= elems <= PQ_NODES
    ensures Forcing(t, t, elems, s, maxCode, [])
  {
  }

  function NegSum(s: seq<nat>, f: nat -> nat): (r: int)
  {
    if |s| == 0 then 0 else NegSum(s[..|s| - 1], f) - f(s[|s| - 1])
  }

  /** Force at least two codes of non zero frequency; their bits are taken off the totals beforehand. */
  method ForceTwo(tree: array<CtData>, elems: nat, leaves: array<nat>, nleaves0: nat, maxCode0: int, slen: nat -> nat)
    returns (nleaves: nat, maxCode: int, opt: int, stat: int, ghost forced: seq<nat>)
    requires nleaves0 <= elems <= tree.Length && elems <= leaves.Length && 3 <= elems <= PQ_NODES
    requires Scanned(tree[..], elems, leaves[..nleaves0], elems, maxCode0)
    modifies tree, leaves
    ensures 2 <= nleaves <= elems
    ensures Forcing(old(tree[..]), tree[..], elems, leaves[..nleaves], maxCode, forced)
    ensures opt == -|forced| && stat == NegSum(forced, slen)
    ensures nleaves0 >= 2 ==> nleaves == nleaves0 && forced == [] && leaves[..nleaves] == old(leaves[..nleaves0])
    ensures nleaves0 < 2 ==> nleaves == 2 && leaves[0] != leaves[1]
  {
    hide Scanned, Forcing, ForcedNode, Pack, NegSum;
    ghost var t0 := tree[..];
    ForceStart(t0, elems, leaves[..nleaves0], maxCode0);
    nleaves, maxCode, opt, stat, forced := nleaves0, maxCode0, 0, 0, [];
    NegSumEmpty(slen);
    while nleaves < 2
      invariant nleaves0 <= nleaves <= elems && |forced| == nleaves - nleaves0
      invariant nleaves0 < 2 ==> nleaves <= 2
      invariant Forcing(t0, tree[..], elems, leaves[..nleaves], maxCode, forced)
      invariant opt == -|forced| && stat == NegSum(forced, slen)
      invariant nleaves0 >= 2 ==> leaves[..nleaves] == old(leaves[..nleaves0])
      invariant nleaves == 2 && nleaves0 < 2 ==> leaves[0] != leaves[1]
    {
      ForceStep(t0, tree[..], elems, leaves[..nleaves], maxCode, forced);
      ForcedNodeDef(maxCode);
      NegSumSnoc(forced, ForcedNode(maxCode), slen);
      var node := 0;
      if maxCode < 2 {
        maxCode := maxCode + 1;
        node := maxCode;
      }
      ghost var s := leaves[..nleaves];
      assert nleaves == 1 ==> leaves[0] in s;
      leaves[nleaves] := Pack(1, node);
      tree[node] := tree[node].(fc := 1);
      nleaves := nleaves + 1;
      assert leaves[..nleaves] == s + [Pack(1, node)];
      opt := opt - 1;
      stat := stat - slen(node);
      forced := forced + [node];
    }
  }

  lemma ForcedNodeDef(maxCode: int)
    ensures ForcedNode(maxCode) == if maxCode < 2 then maxCode + 1 else 0
  {
  }

  lemma NegSumEmpty(f: nat -> nat)
    ensures NegSum([], f) == 0
  {
  }

  lemma NegSumSnoc(s: seq<nat>, x: int, f: nat -> nat)
    requires x >= 0
    ensures NegSum(s + [x], f) == NegSum(s, f) - f(x)
  {
    assert (s + [x])[..|s|] == s;
  }

  // ---- the costs ----

  lemma {:induction false} CostTotal(ws: seq<nat>, ls: seq<nat>, xs: seq<nat>, ids: seq<nat>, g: nat -> int)
    requires |ws| == |ls| == |xs| == |ids| && forall i :: 0 <= i < |ids| ==> g(ids[i]) == Times(ws[i], ls[i] + xs[i])
    ensures BitCost(ws, ls, xs) == Total(ids, g)
  {
    if |ids| > 0 {
      var n := |ids| - 1;
      CostTotal(ws[..n], ls[..n], xs[..n], ids[..n], g);
      hide Cost;
      CostSnoc(ws, ls, n);
      CostSnoc(ws, xs, n);
      assert ws[..n + 1] == ws && ls[..n + 1] == ls && xs[..n + 1] == xs;
      DistribLeft(ws[n], ls[n], xs[n]);
    }
  }

  /** The bits that all occurrences of all symbols take, with lengths len and the extra bits. */
  ghost function BlockBits(t: seq<CtData>, elems: nat, len: nat -> nat, extra: nat -> nat): (r: int)
    requires elems <= |t|
  {
    Total(Range(0, elems), Occupied(t, len, extra))
  }

  function Occupied(t: seq<CtData>, len: nat -> nat, extra: nat -> nat): (g: nat -> int)
  {
    (x: nat) => BitsOf(t, len, extra, x)
  }

  function BitsOf(t: seq<CtData>, len: nat -> nat, extra: nat -> nat, x: nat): (r: int)
  {
    if x < |t| then Times(t[x].fc, len(x) + extra(x)) else 0
  }

  function InForced(forced: seq<nat>, len: nat -> nat)
    : (g: nat -> int) { (x: nat) => if x in forced then len(x) else 0 }

  lemma {:induction false} ForcedTotal(forced: seq<nat>, s: seq<nat>, len: nat -> nat)
    requires forall x :: x in s ==> x in forced
    ensures Total(s, InForced(forced, len)) == -NegSum(s, len)
  {
    if |s| > 0 {
      assert s[|s| - 1] in s;
      ForcedTotal(forced, s[..|s| - 1], len);
    }
  }

  lemma {:induction false} TotalSum(s: seq<nat>, f: nat -> int, g: nat -> int, h: nat -> int)
    requires forall i :: 0 <= i < |s| ==> f(s[i]) == g(s[i]) + h(s[i])
    ensures Total(s, f) == Total(s, g) + Total(s, h)
  {
    if |s| > 0 { TotalSum(s[..|s| - 1], f, g, h); }
  }

  /** The bits of the forced leaves, and nothing else, are what the corrections take off. */
  lemma ForcedCancel(t0: seq<CtData>, t: seq<CtData>, elems: nat, forced: seq<nat>, ids: seq<nat>, len: nat -> nat,
                     extra: nat -> nat, g: nat -> int)
    requires 3 <= elems <= |t| == |t0| && NoDup(forced) && NoDup(ids)
    requires forall i :: 0 <= i < |forced| ==> forced[i] < 3 && t0[forced[i]].fc == 0 && extra(forced[i]) == 0
    requires forall x :: 0 <= x < elems ==> t[x].fc == if x in forced then 1 else t0[x].fc
    requires forall i :: 0 <= i < |ids| ==>
      ids[i] < elems && g(ids[i]) == Times(t[ids[i]].fc, len(ids[i]) + extra(ids[i]))
    requires forall x :: 0 <= x < elems && x !in ids ==> t[x].fc == 0
    ensures Total(ids, g) + NegSum(forced, len) == BlockBits(t0, elems, len, extra)
  {
    hide Times, Occupied, Total, NegSum, InForced, NoDup;
    var full := Occupied(t, len, extra);
    var old0, extra0 := Occupied(t0, len, extra), InForced(forced, len);
    forall i | 0 <= i < |ids|
      ensures g(ids[i]) == full(ids[i])
    {
      OccupiedAt(t, len, extra, ids[i]);
    }
    forall x: nat | x < elems
      ensures full(x) == old0(x) + extra0(x) && (x !in ids ==> full(x) == 0)
    {
      assert x in forced ==> exists i :: 0 <= i < |forced| && forced[i] == x;
      ForcedBits(t0, t, forced, len, extra, x);
    }
    SupportSums(elems, forced, ids, g, full, old0, extra0, len);
  }

  lemma SupportSums(elems: nat, forced: seq<nat>, ids: seq<nat>, g: nat -> int, full: nat -> int, old0: nat -> int,
                    extra0: nat -> int, len: nat -> nat)
    requires NoDup(forced) && NoDup(ids) && extra0 == InForced(forced, len)
    requires forall i :: 0 <= i < |forced| ==> forced[i] < elems
    requires forall i :: 0 <= i < |ids| ==> ids[i] < elems && g(ids[i]) == full(ids[i])
    requires forall x: nat :: x < elems ==> full(x) == old0(x) + extra0(x) && (x !in ids ==> full(x) == 0)
    ensures Total(ids, g) + NegSum(forced, len) == Total(Range(0, elems), old0)
  {
    hide Total, NegSum;
    assert forall x: nat :: x < elems && x !in forced ==> extra0(x) == 0;
    TotalSame(ids, g, full);
    TotalSupport(elems, ids, full);
    TotalSum(Range(0, elems), full, old0, extra0);
    TotalSupport(elems, forced, extra0);
    ForcedTotal(forced, forced, len);
  }

  lemma ForcedBits(t0: seq<CtData>, t: seq<CtData>, forced: seq<nat>, len: nat -> nat, extra: nat -> nat, x: nat)
    requires x < |t| == |t0| && t[x].fc == (if x in forced then 1 else t0[x].fc)
    requires x in forced ==> t0[x].fc == 0 && extra(x) == 0
    ensures Occupied(t, len, extra)(x) == Occupied(t0, len, extra)(x) + InForced(forced, len)(x) ==
            Times(t[x].fc, len(x) + extra(x))
    ensures t[x].fc == 0 ==> Occupied(t, len, extra)(x) == 0
  {
    hide Occupied, Times;
    OccupiedAt(t, len, extra, x);
    OccupiedAt(t0, len, extra, x);
    OneOccurrence(len(x), extra(x));
    NoOccurrence(len(x) + extra(x));
  }

  lemma OneOccurrence(l: nat, x: nat)
    ensures Times(1, l + x) == l + x && Times(0, l + x) == 0
  {
  }

  lemma NoOccurrence(l: nat)
    ensures Times(0, l) == 0
  {
  }

  lemma TwoCodes(ls: seq<nat>, m: nat)
    requires FullCode(ls, m) && |ls| == 2
    ensures ls == [1, 1]
  {
    assert KraftSum(ls, m) == Pow2(m - ls[0]) + KraftSum(ls[1..], m);
    assert KraftSum(ls[1..], m) == Pow2(m - ls[1]) + KraftSum(ls[1..][1..], m);
    Pow2Mono(m - ls[0], m - 1);
    Pow2Mono(m - ls[1], m - 1);
    if ls[0] > 1 { Pow2Strict(m - ls[0], m - 1); }
    if ls[1] > 1 { Pow2Strict(m - ls[1], m - 1); }
  }

  lemma Pow2Strict(a: nat, b: nat)
    requires a < b
    ensures Pow2(a) < Pow2(b)
  {
    Pow2Mono(a, b - 1);
  }

  lemma {:induction false} NegSumOnes(s: seq<nat>, len: nat -> nat)
    requires forall x :: x in s ==> len(x) == 1
    ensures NegSum(s, len) == -|s|
  {
    if |s| > 0 {
      assert s[|s| - 1] in s;
      NegSumOnes(s[..|s| - 1], len);
    }
  }

  // ---- optimality ----

  lemma DepthCost(t: seq<CtData>, takes: seq<nat>, ws: seq<nat>, ids: seq<nat>, elems: nat, fb: seq<nat>, ls: seq<nat>)
    requires Forest(t, takes, ids, elems) && Adds(t, takes, ids, elems) && Leaves(t, ws, ids, elems)
    requires Sorted(ws) && |ls| == |ids| && |fb| == |ids| - 1 && Sum(fb) == HuffCost(ws)
    requires forall k :: 0 <= k < |fb| ==> t[elems + k].fc == fb[k]
    requires Root(ids, elems) < |t| && forall i :: 0 <= i < |ids| ==> ls[i] == Depth(t, Root(ids, elems), ids[i])
    ensures Cost(ws, ls) == HuffCost(ws)
  {
    hide Depth, Forest, Total, HuffCost, Interleave;
    var zs := Repeat0(|ids|);
    ForestSize(t, takes, ids, elems);
    WeightedDepth(t, takes, ids, elems);
    CostTotal(ws, ls, zs, ids, Weighted(t, Root(ids, elems)));
    ZeroCost(ws, zs);
    FreqTotal(t, elems, fb);
  }

  lemma {:induction false} ZeroCost(ws: seq<nat>, zs: seq<nat>)
    requires |ws| == |zs| && forall i :: 0 <= i < |zs| ==> zs[i] == 0
    ensures Cost(ws, zs) == 0
  {
    if |ws| > 0 { ZeroCost(ws[1..], zs[1..]); }
  }

  lemma {:induction false} FreqTotal(t: seq<CtData>, elems: nat, fb: seq<nat>)
    requires elems + |fb| <= |t| && forall k :: 0 <= k < |fb| ==> t[elems + k].fc == fb[k]
    ensures Total(Range(elems, |fb|), Freq(t)) == Sum(fb)
  {
    if |fb| > 0 {
      var n := |fb| - 1;
      FreqTotal(t, elems, fb[..n]);
      assert Range(elems, |fb|)[..n] == Range(elems, n);
      assert fb == fb[..n] + [fb[n]];
      SumLast(fb[..n], fb[n]);
    }
  }

  lemma {:induction false} SumLast(s: seq<nat>, x: nat)
    ensures Sum(s + [x]) == Sum(s) + x
  {
    if |s| > 0 {
      SumLast(s[1..], x);
      assert (s + [x])[1..] == s[1..] + [x];
    }
  }

  // ---- the whole routine ----

  /** Lengths as a function; symbols past the end have none. */
  function LenFn(lens: seq<nat>): (f: nat -> nat) { (x: nat) => if x < |lens| then lens[x] else 0 }

  /** The tree describes a complete canonical code of at most m bits, with code lengths lens, in which every symbol that
      occurs in t0 has a code. */
  ghost predicate Built(t0: seq<CtData>, t: seq<CtData>, elems: nat, m: nat, maxCode: int, lens: seq<nat>)
  {
    elems <= |t| == |t0| && 1 <= maxCode < elems && |lens| == maxCode + 1 && Complete(lens) && HasCodes(t, lens) &&
    (forall x :: 0 <= x < |lens| ==> lens[x] <= m) && (forall x :: |lens| <= x < elems ==> t[x].dl == 0) &&
    (forall x :: 0 <= x < elems && t0[x].fc != 0 ==> x <= maxCode && lens[x] > 0)
  }

  /** The coded symbols ids, in ascending order of their weights ws, have the lengths ls. */
  ghost predicate ByWeight(t0: seq<CtData>, lens: seq<nat>, ids: seq<nat>, ws: seq<nat>, ls: seq<nat>)
  {
    |ids| == |ws| == |ls| && Sorted(ws) && NoDup(ids) &&
    (forall i :: 0 <= i < |ids| ==> ids[i] < |lens| && ids[i] < |t0| && lens[ids[i]] == ls[i] > 0) &&
    (forall i :: 0 <= i < |ids| && t0[ids[i]].fc != 0 ==> t0[ids[i]].fc == ws[i]) &&
    (forall x :: Coded(lens, x) ==> x in ids)
  }

  /** A less frequent symbol never gets a shorter code. */
  ghost predicate Monotone(ws: seq<nat>, ls: seq<nat>)
  {
    |ws| == |ls| && forall i, j :: 0 <= i < |ws| && 0 <= j < |ws| && ws[i] < ws[j] ==> ls[i] >= ls[j]
  }

  /** Two different symbols occur. */
  ghost predicate TwoOccur(t: seq<CtData>, elems: nat)
    requires elems <= |t|
  {
    exists x, y :: 0 <= x < y < elems && t[x].fc != 0 && t[y].fc != 0
  }

  /** The frequencies, with 1 for every leaf that is forced, sum up to what fits 16 bits. */
  ghost predicate FitsSum(t: seq<CtData>, elems: nat)
    requires elems <= |t|
  {
    var total := Total(Range(0, elems), Freq(t));
    total < 65535 || (total == 65535 && TwoOccur(t, elems))
  }

  lemma ForcedFits(t0: seq<CtData>, t: seq<CtData>, elems: nat, ids: seq<nat>, forced: seq<nat>)
    requires elems <= |t| == |t0| && NoDup(forced) && |forced| <= 2 && (forced != [] ==> |ids| == 2)
    requires forall i :: 0 <= i < |forced| ==> forced[i] < elems && t0[forced[i]].fc == 0
    requires forall x :: 0 <= x < elems ==> t[x].fc == if x in forced then 1 else t0[x].fc
    requires forall x :: 0 <= x < elems ==> (x in ids <==> t[x].fc != 0)
    requires FitsSum(t0, elems)
    ensures Total(Range(0, elems), Freq(t0)) + |forced| < 65536
  {
    hide Total;
    if |forced| == 1 {
      assert forced[0] in ids;
      assert !TwoOccur(t0, elems) by {
        if x, y :| 0 <= x < y < elems && t0[x].fc != 0 && t0[y].fc != 0 {
          ThreeOfTwo(ids, forced[0], x, y);
        }
      }
    } else if |forced| == 2 {
      assert forced[0] in ids && forced[1] in ids;
      var f0 := Freq(t0);
      forall x: nat | x < elems
        ensures f0(x) == 0
      {
        if f0(x) != 0 { ThreeOfTwo(ids, forced[0], forced[1], x); }
      }
      TotalSupport(elems, [], f0);
      NoTotal(f0);
    }
  }

  lemma ThreeOfTwo(ids: seq<nat>, x: nat, y: nat, z: nat)
    requires |ids| == 2 && x in ids && y in ids && z in ids
    ensures x == y || y == z || x == z
  {
  }

  lemma NoTotal(f: nat -> int)
    ensures Total([], f) == 0
  {
  }

  lemma WeightSum(t0: seq<CtData>, t: seq<CtData>, elems: nat, ws: seq<nat>, ids: seq<nat>, forced: seq<nat>)
    requires Leaves(t, ws, ids, elems) && NoDup(ids) && elems <= |t| == |t0| && NoDup(forced) && |forced| <= 2
    requires forall i :: 0 <= i < |forced| ==> forced[i] < elems && t0[forced[i]].fc == 0
    requires forall x :: 0 <= x < elems ==> t[x].fc == if x in forced then 1 else t0[x].fc
    requires forall x :: 0 <= x < elems && x !in ids ==> t[x].fc == 0
    requires Total(Range(0, elems), Freq(t0)) + |forced| < 65536
    ensures Sum(ws) < 65536
  {
    var f, f0, one := Freq(t), Freq(t0), InForced(forced, (x: nat) => 1);
    assert forall i :: 0 <= i < |ids| ==> f(ids[i]) == ws[i];
    assert forall x: nat :: x < elems ==> f(x) == f0(x) + one(x);
    assert forall x: nat :: x < elems && x !in ids ==> f(x) == 0;
    assert forall x: nat :: x < elems && x !in forced ==> one(x) == 0;
    hide Total, Sum, Freq, InForced;
    SumIsTotal(ws, ids, f);
    TotalSupport(elems, ids, f);
    TotalSum(Range(0, elems), f, f0, one);
    TotalSupport(elems, forced, one);
    ForcedTotal(forced, forced, (x: nat) => 1);
    NegSumOnes(forced, (x: nat) => 1);
  }

  lemma {:induction false} SumIsTotal(ws: seq<nat>, ids: seq<nat>, f: nat -> int)
    requires |ws| == |ids| && forall i :: 0 <= i < |ids| ==> f(ids[i]) == ws[i]
    ensures Sum(ws) == Total(ids, f)
  {
    if |ws| > 0 {
      var n := |ws| - 1;
      SumIsTotal(ws[..n], ids[..n], f);
      assert ws == ws[..n] + [ws[n]];
      SumLast(ws[..n], ws[n]);
    }
  }

  /** The tree before gen_codes: lengths for the leaves, none for the other symbols. */
  ghost predicate Lengthed(tb: seq<CtData>, tc: seq<CtData>, te: seq<CtData>, elems: nat, ids: seq<nat>, ls: seq<nat>)
  {
    elems <= |tb| == |tc| == |te| && |ls| == |ids| && NoDup(ids) &&
    (forall x :: 0 <= x < elems ==> te[x].fc == tc[x].fc) &&
    (forall x :: 0 <= x < elems && x !in ids ==> te[x].dl == 0 && tc[x].fc == 0) &&
    (forall i :: 0 <= i < |ids| ==> ids[i] < elems && te[ids[i]].dl == ls[i] && tc[ids[i]].fc != 0)
  }

  lemma LengthedNow(ta: seq<CtData>, tb: seq<CtData>, tc: seq<CtData>, td: seq<CtData>, te: seq<CtData>, elems: nat,
                    s: seq<nat>, maxCode: int, forced: seq<nat>, ids: seq<nat>, ls: seq<nat>)
    requires Cleared(ta, tb, elems) && Forcing(tb, tc, elems, s, maxCode, forced)
    requires SymbolsKept(tc, td, ids, elems) && HasLengths(td, te, ids, elems, ls)
    requires NoDup(ids) && forall x :: 0 <= x < elems ==> (x in ids <==> tc[x].fc != 0)
    ensures Lengthed(tb, tc, te, elems, ids, ls)
    ensures forall i :: 0 <= i < |ids| ==> ids[i] <= maxCode
  {
    hide IsLeaves;
    assert elems <= |tc| by { ForcingSize(tb, tc, elems, s, maxCode, forced); }
    forall x | 0 <= x < elems && x !in ids
      ensures te[x].dl == 0
    {
      assert tc[x].fc == 0 && x !in forced;
      assert te[x] == td[x] == tc[x] == tb[x];
    }
    forall i | 0 <= i < |ids|
      ensures tc[ids[i]].fc != 0 && ids[i] <= maxCode
    {
      assert ids[i] in ids;
    }
  }

  lemma ForcingSize(tb: seq<CtData>, tc: seq<CtData>, elems: nat, s: seq<nat>, maxCode: int, forced: seq<nat>)
    requires Forcing(tb, tc, elems, s, maxCode, forced)
    ensures 3 <= elems <= |tc| == |tb|
  {
  }

  /** What gen_codes needs: the counts are those of the lengths by symbol, which are complete. */
  lemma ReadyForCodes(tb: seq<CtData>, tc: seq<CtData>, te: seq<CtData>, elems: nat, ids: seq<nat>, ls: seq<nat>,
                      cnt: seq<nat>, m: nat, maxCode: int)
    requires Lengthed(tb, tc, te, elems, ids, ls) && FullCode(ls, m) && Counts(cnt, ls) && m <= MAX_BITS
    requires -1 <= maxCode < elems && forall i :: 0 <= i < |ids| ==> ids[i] <= maxCode
    ensures var lens := Lengths(te, maxCode + 1);
      Complete(lens) && Kraft(lens) && (forall x :: 0 <= x < |lens| ==> lens[x] <= m) &&
      |cnt| == MAX_BITS + 1 && cnt[0] == 0 && forall l :: 1 <= l <= MAX_BITS ==> cnt[l] == Count(lens, l)
  {
    hide Count, KraftSum, Pow2, Below;
    var lens := Lengths(te, maxCode + 1);
    forall x | 0 <= x < |lens|
      ensures lens[x] <= m
    {
      if x in ids { var i :| 0 <= i < |ids| && ids[i] == x; }
    }
    forall l | 1 <= l <= MAX_BITS
      ensures cnt[l] == Count(lens, l)
    {
      CountBySymbol(te, maxCode + 1, ids, ls, l);
    }
    CompleteCode(lens, cnt, ls, m);
    BeyondLimit(cnt, ls, m);
  }

  /** The total over the leaves, corrected for the forced ones, is the total over all occurrences. */
  lemma CorrectedCost(ta: seq<CtData>, tc: seq<CtData>, elems: nat, forced: seq<nat>, ws: seq<nat>, ids: seq<nat>,
                      ls: seq<nat>, len: nat -> nat, extra: nat -> nat)
    requires 3 <= elems <= |tc| == |ta| && NoDup(forced) && Leaves(tc, ws, ids, elems) && NoDup(ids) && |ls| == |ids|
    requires forall i :: 0 <= i < |forced| ==> forced[i] < 3 && ta[forced[i]].fc == 0 && extra(forced[i]) == 0
    requires forall x :: 0 <= x < elems ==> tc[x].fc == if x in forced then 1 else ta[x].fc
    requires forall x :: 0 <= x < elems && x !in ids ==> tc[x].fc == 0
    requires forall i :: 0 <= i < |ids| ==> len(ids[i]) == ls[i]
    ensures BitCost(ws, ls, Map(ids, extra)) + NegSum(forced, len) == BlockBits(ta, elems, len, extra)
  {
    hide Total, NegSum, BitCost, BlockBits, Occupied, Times, Leaves, NoDup, Map;
    var g := Occupied(tc, len, extra);
    LeavesIn(tc, ws, ids, elems);
    forall i | 0 <= i < |ids|
      ensures g(ids[i]) == Times(ws[i], ls[i] + Map(ids, extra)[i])
      ensures g(ids[i]) == Times(tc[ids[i]].fc, len(ids[i]) + extra(ids[i]))
    {
      LeafBits(tc, ids[i], ws[i], ls[i], Map(ids, extra)[i], len, extra);
    }
    CostTotal(ws, ls, Map(ids, extra), ids, g);
    ForcedCancel(ta, tc, elems, forced, ids, len, extra, g);
  }

  lemma LeavesIn(t: seq<CtData>, ws: seq<nat>, ids: seq<nat>, elems: nat)
    requires Leaves(t, ws, ids, elems)
    ensures |ws| == |ids| && elems <= |t| && forall j :: 0 <= j < |ids| ==> ids[j] < elems && t[ids[j]].fc == ws[j]
  {
  }

  lemma LeafBits(t: seq<CtData>, id: nat, w: nat, l: nat, x: nat, len: nat -> nat, extra: nat -> nat)
    requires id < |t| && t[id].fc == w && len(id) == l && extra(id) == x
    ensures Occupied(t, len, extra)(id) == Times(w, l + x) == Times(t[id].fc, len(id) + extra(id))
  {
    hide Times, Occupied;
    OccupiedAt(t, len, extra, id);
  }

  lemma OccupiedAt(t: seq<CtData>, len: nat -> nat, extra: nat -> nat, x: nat)
    requires x < |t|
    ensures Occupied(t, len, extra)(x) == Times(t[x].fc, len(x) + extra(x))
  {
    hide Times, BitsOf;
    BitsOfDef(t, len, extra, x);
  }

  lemma BitsOfDef(t: seq<CtData>, len: nat -> nat, extra: nat -> nat, x: nat)
    requires x < |t|
    ensures BitsOf(t, len, extra, x) == Times(t[x].fc, len(x) + extra(x))
  {
    hide Times;
  }

  lemma FreqsAfterForcing(ta: seq<CtData>, tb: seq<CtData>, tc: seq<CtData>, elems: nat, s: seq<nat>, maxCode: int,
                          forced: seq<nat>)
    requires Cleared(ta, tb, elems) && Forcing(tb, tc, elems, s, maxCode, forced)
    ensures 3 <= elems <= |tc| == |ta| && NoDup(forced) && |forced| <= 2
    ensures forall i :: 0 <= i < |forced| ==> forced[i] < 3 && ta[forced[i]].fc == 0
    ensures forall x :: 0 <= x < elems ==> tc[x].fc == if x in forced then 1 else ta[x].fc
  {
    hide IsLeaf;
  }

  /** The bit totals, with the corrections for the forced leaves cancelled. */
  lemma BuiltCost(ta: seq<CtData>, tb: seq<CtData>, tc: seq<CtData>, te: seq<CtData>, elems: nat, s: seq<nat>,
                  maxCode: int, forced: seq<nat>, ws: seq<nat>, ids: seq<nat>, ls: seq<nat>, lens: seq<nat>, m: nat,
                  extra: nat -> nat, slen: nat -> nat)
    requires Cleared(ta, tb, elems) && Forcing(tb, tc, elems, s, maxCode, forced) && Leaves(tc, ws, ids, elems)
    requires Lengthed(tb, tc, te, elems, ids, ls) && FullCode(ls, m) && (forced != [] ==> |ids| == 2)
    requires -1 <= maxCode < elems && lens == Lengths(te, maxCode + 1)
    requires forall i :: 0 <= i < |ids| ==> ids[i] <= maxCode
    requires extra(0) == extra(1) == extra(2) == 0 && |ws| == |ls|
    ensures BitCost(ws, ls, Map(ids, extra)) - |forced| == BlockBits(ta, elems, LenFn(lens), extra)
    ensures BitCost(ws, Map(ids, slen), Map(ids, extra)) + NegSum(forced, slen) == BlockBits(ta, elems, slen, extra)
  {
    hide Forcing, FullCode, Total, NegSum, BitCost, Leaves, BlockBits, Cleared;
    FreqsAfterForcing(ta, tb, tc, elems, s, maxCode, forced);
    var len := LenFn(lens);
    CorrectedCost(ta, tc, elems, forced, ws, ids, ls, len, extra);
    CorrectedCost(ta, tc, elems, forced, ws, ids, Map(ids, slen), slen, extra);
    if forced != [] {
      TwoCodes(ls, m);
      forall x | x in forced
        ensures len(x) == 1
      {
        assert x in ids by { assert tc[x].fc == 1; }
      }
    }
    NegSumOnes(forced, len);
  }

  lemma BuiltNow(ta: seq<CtData>, tb: seq<CtData>, tc: seq<CtData>, te: seq<CtData>, tf: seq<CtData>, elems: nat,
                 s: seq<nat>, maxCode: int, forced: seq<nat>, ws: seq<nat>, ids: seq<nat>, ls: seq<nat>, lens: seq<nat>,
                 m: nat)
    requires Cleared(ta, tb, elems) && Forcing(tb, tc, elems, s, maxCode, forced) && Leaves(tc, ws, ids, elems)
    requires Lengthed(tb, tc, te, elems, ids, ls) && Sorted(ws) && |ids| >= 2 && |tf| == |te|
    requires -1 <= maxCode < elems && lens == Lengths(te, maxCode + 1) && Complete(lens) && HasCodes(tf, lens)
    requires forall i :: 0 <= i < |ids| ==> ids[i] <= maxCode && ls[i] >= 1
    requires forall x :: 0 <= x < |lens| ==> lens[x] <= m
    requires forall x :: maxCode < x < |te| ==> tf[x] == te[x]
    ensures Built(ta, tf, elems, m, maxCode, lens) && ByWeight(ta, lens, ids, ws, ls)
  {
    hide IsLeaves, Complete, HasCodes;
    ForcingSize(tb, tc, elems, s, maxCode, forced);
    assert maxCode >= 1 by { assert ids[0] != ids[1]; }
    forall x | 0 <= x < elems && ta[x].fc != 0
      ensures x <= maxCode && lens[x] > 0
    {
      assert tc[x].fc != 0 && x in ids;
      var i :| 0 <= i < |ids| && ids[i] == x;
    }
    forall x: nat | Coded(lens, x)
      ensures x in ids
    {
      assert te[x].dl != 0;
    }
    forall x | |lens| <= x < elems
      ensures tf[x].dl == 0
    {
      assert x !in ids;
    }
  }

  /** Construct one Huffman tree and assign the code bit strings and lengths. Returned are the largest code in use
      and the bits that the block takes with this tree and with the static one. */
  method BuildTree(tree: array<CtData>, elems: nat, m: nat, extra: nat -> nat, slen: nat -> nat, leaves: array<nat>,
                   scratch: array<nat>)
    returns (maxCode: int, opt: int, stat: int, ghost lens: seq<nat>, ghost ids: seq<nat>, ghost ws: seq<nat>,
             ghost ls: seq<nat>, ghost depths: seq<nat>)
    requires 3 <= elems && 2 * elems <= tree.Length && 2 * elems <= PQ_NODES && leaves != scratch
    requires elems <= leaves.Length && elems <= scratch.Length
    requires 1 <= m <= MAX_BITS && elems <= Pow2(m)
    requires forall n :: 0 <= n < elems ==> tree[n].fc < 65536
    requires FitsSum(tree[..], elems)
    requires extra(0) == extra(1) == extra(2) == 0
    modifies tree, leaves, scratch
    ensures Built(old(tree[..]), tree[..], elems, m, maxCode, lens)
    ensures opt == BlockBits(old(tree[..]), elems, LenFn(lens), extra)
    ensures stat == BlockBits(old(tree[..]), elems, slen, extra)
    ensures ByWeight(old(tree[..]), lens, ids, ws, ls) && Monotone(ws, ls)
    ensures Optimum(ws, depths) && (AtMost(depths, m) ==> ls == depths) && DeepestFirst(depths, ls, m)
  {
    hide Built, BlockBits, LenFn, ByWeight, Monotone, Collected, Leaves, Queues, Sorted, Sum, Forest, Adds, SymbolsKept,
      HuffCost, Optimum, Pow2, Total, NegSum, PqNode, Freq, FitsSum, DeepestFirst;
    ghost var ta := tree[..];
    var nleaves, fopt, fstat, sorted, internals;
    ghost var tb, forced, s;
    sorted, internals, nleaves, maxCode, fopt, fstat, tb, forced, s, ws,
      ids := Collect(tree, elems, leaves, scratch, slen);
    ghost var tc := tree[..];
    CollectedParts(ta, tb, tc, elems, s, maxCode, forced, ws, ids);
    QueueIds(sorted[..nleaves], internals[..], ws, ids, elems);
    ghost var takes, fb;
    var node;
    node, takes, fb := MergeAll(tree, elems, sorted, nleaves, internals, ws, ids);
    opt, stat, lens, ls, depths := AssignCodes(tree, elems, m, extra, slen, sorted, nleaves, maxCode, ta, tb, tc, s,
                                               forced, ws, ids, takes, fb);
    opt, stat := opt + fopt, stat + fstat;
  }

  /** What is known once the leaves are collected, forced to be two at least, and sorted. */
  ghost predicate Collected(ta: seq<CtData>, tb: seq<CtData>, tc: seq<CtData>, elems: nat, s: seq<nat>, maxCode: int,
                            forced: seq<nat>, ws: seq<nat>, ids: seq<nat>)
  {
    Cleared(ta, tb, elems) && Forcing(tb, tc, elems, s, maxCode, forced) && Leaves(tc, ws, ids, elems) && Sorted(ws) &&
    NoDup(ids) && (forall x :: 0 <= x < elems ==> (x in ids <==> tc[x].fc != 0)) && |ids| >= 2 &&
    (forced != [] ==> |ids| == 2)
  }

  lemma CollectedParts(ta: seq<CtData>, tb: seq<CtData>, tc: seq<CtData>, elems: nat, s: seq<nat>, maxCode: int,
                       forced: seq<nat>, ws: seq<nat>, ids: seq<nat>)
    requires Collected(ta, tb, tc, elems, s, maxCode, forced, ws, ids)
    ensures Leaves(tc, ws, ids, elems) && Sorted(ws) && |ids| == |ws| >= 2 && -1 <= maxCode < elems
  {
  }

  lemma QueueIds(d: seq<nat>, internals: seq<nat>, ws: seq<nat>, ids: seq<nat>, elems: nat)
    requires Queues(d, internals, ws, ids, [], elems)
    ensures |d| == |ids| && forall i :: 0 <= i < |d| ==> PqNode(d[i]) == ids[i]
  {
    forall i | 0 <= i < |d|
      ensures PqNode(d[i]) == ids[i]
    {
      Unpack(ws[i], ids[i]);
    }
  }

  /** The first part of build_tree: collect the leaves, force two codes, and sort. */
  method Collect(tree: array<CtData>, elems: nat, leaves: array<nat>, scratch: array<nat>, slen: nat -> nat)
    returns (sorted: array<nat>, internals: array<nat>, nleaves: nat, maxCode: int, fopt: int, fstat: int,
             ghost tb: seq<CtData>, ghost forced: seq<nat>, ghost s: seq<nat>, ghost ws: seq<nat>, ghost ids: seq<nat>)
    requires 3 <= elems <= tree.Length && elems <= PQ_NODES && leaves != scratch
    requires elems <= leaves.Length && elems <= scratch.Length
    requires forall n :: 0 <= n < elems ==> tree[n].fc < 65536
    requires FitsSum(tree[..], elems)
    modifies tree, leaves, scratch
    ensures (sorted == leaves && internals == scratch) || (sorted == scratch && internals == leaves)
    ensures 2 <= nleaves <= elems && |ws| == |ids| == nleaves && fopt == -|forced| && fstat == NegSum(forced, slen)
    ensures Collected(old(tree[..]), tb, tree[..], elems, s, maxCode, forced, ws, ids) && Sum(ws) < 65536
    ensures Queues(sorted[..nleaves], internals[..], ws, ids, [], elems)
  {
    hide Scanned, Histogram, Cleared, Forcing, SortedAs, Leaves, Queues, Sorted, Sum, Total, NegSum, NodeOrder,
      IsLeaves, Count, Pack, PqNode, PqFreq, Key, Freq, FitsSum;
    ghost var ta := tree[..];
    var nleaves0, maxCode0, countLo, countHi := ScanLeaves(tree, elems, leaves);
    tb := tree[..];
    nleaves, maxCode, fopt, fstat, forced := ForceTwo(tree, elems, leaves, nleaves0, maxCode0, slen);
    s := leaves[..nleaves];
    ForcingParts(tb, tree[..], elems, s, maxCode, forced);
    if nleaves0 >= 2 { ScannedOrder(tb, elems, s, maxCode0); }
    var inScratch := SortEntries(leaves, scratch, nleaves, countLo, countHi);
    sorted, internals := leaves, scratch;
    if inScratch {
      sorted, internals := scratch, leaves;
    }
    ws, ids := CollectedNow(ta, tb, tree[..], elems, s, maxCode, forced, sorted[..nleaves], internals[..]);
  }

  lemma CollectedNow(ta: seq<CtData>, tb: seq<CtData>, tc: seq<CtData>, elems: nat, s: seq<nat>, maxCode: int,
                     forced: seq<nat>, d: seq<nat>, internals: seq<nat>)
    returns (ws: seq<nat>, ids: seq<nat>)
    requires Cleared(ta, tb, elems) && Forcing(tb, tc, elems, s, maxCode, forced) && SortedAs(s, d) && |s| >= 2
    requires forced != [] ==> |s| == 2
    requires elems <= PQ_NODES
    requires elems <= |ta| && FitsSum(ta, elems)
    ensures Collected(ta, tb, tc, elems, s, maxCode, forced, ws, ids) && Sum(ws) < 65536 && |ws| == |ids| == |s|
    ensures Queues(d, internals, ws, ids, [], elems)
  {
    hide Scanned, Cleared, Forcing, Leaves, Queues, Sorted, Sum, Total, NegSum, IsLeaves, Pack, PqNode, PqFreq, Freq,
      FitsSum;
    ws, ids := Weights(d), Nodes(d);
    ForcingParts(tb, tc, elems, s, maxCode, forced);
    SortedLeaves(tc, elems, s, d);
    FreqsAfterForcing(ta, tb, tc, elems, s, maxCode, forced);
    ForcedFits(ta, tc, elems, ids, forced);
    WeightSum(ta, tc, elems, ws, ids, forced);
    QueuesNow(d, internals, ws, ids, elems);
  }

  /** The last part of build_tree: the code lengths, and then the codes. */
  method AssignCodes(tree: array<CtData>, elems: nat, m: nat, extra: nat -> nat, slen: nat -> nat, sorted: array<nat>,
                     nleaves: nat, maxCode: int, ghost ta: seq<CtData>, ghost tb: seq<CtData>, ghost tc: seq<CtData>,
                     ghost s: seq<nat>, ghost forced: seq<nat>, ghost ws: seq<nat>, ghost ids: seq<nat>,
                     ghost takes: seq<nat>, ghost fb: seq<nat>)
    returns (opt: int, stat: int, ghost lens: seq<nat>, ghost ls: seq<nat>, ghost depths: seq<nat>)
    requires Collected(ta, tb, tc, elems, s, maxCode, forced, ws, ids)
    requires Forest(tree[..], takes, ids, elems) && Adds(tree[..], takes, ids, elems) &&
      Leaves(tree[..], ws, ids, elems)
    requires SymbolsKept(tc, tree[..], ids, elems) && Sum(fb) == HuffCost(ws) && |fb| == nleaves - 1
    requires elems + nleaves <= tree.Length && forall k :: 0 <= k < |fb| ==> tree[elems + k].fc == fb[k]
    requires nleaves == |ids| <= sorted.Length && forall i :: 0 <= i < nleaves ==> PqNode(sorted[i]) == ids[i]
    requires 1 <= m <= MAX_BITS && nleaves <= Pow2(m) && extra(0) == extra(1) == extra(2) == 0
    requires -1 <= maxCode < elems && elems <= |ta|
    modifies tree
    ensures Built(ta, tree[..], elems, m, maxCode, lens)
    ensures opt - |forced| == BlockBits(ta, elems, LenFn(lens), extra)
    ensures stat + NegSum(forced, slen) == BlockBits(ta, elems, slen, extra)
    ensures ByWeight(ta, lens, ids, ws, ls) && Monotone(ws, ls)
    ensures Optimum(ws, depths) && (AtMost(depths, m) ==> ls == depths) && DeepestFirst(depths, ls, m)
  {
    hide Built, BlockBits, LenFn, ByWeight, Monotone, Cheapest, Cleared, Forcing, Leaves, Collected, Sorted, Sum,
      Forest, Adds, SymbolsKept, HuffCost, HasLengths, FullCode, Counts, BitCost, Fits, HasCodes, Optimum, Pow2, NegSum,
      DeepestFirst, Count, Complete, Below, PqNode, Depth, NoDup;
    ghost var td := tree[..];
    CollectedParts(ta, tb, tc, elems, s, maxCode, forced, ws, ids);
    ForestSize(td, takes, ids, elems);
    var cnt;
    cnt, opt, stat, ls := GenBitLen.GenBitLen(tree, elems, elems + nleaves - 2, m, sorted, nleaves, extra, slen, takes,
      ws, ids);
    ghost var te := tree[..];
    lens := Lengths(te, maxCode + 1);
    CodesReady(ta, tb, tc, td, te, elems, s, maxCode, forced, ws, ids, ls, cnt, m);
    GenCodes.GenCodes(tree, maxCode, cnt);
    CodesBuilt(ta, tb, tc, td, te, tree[..], elems, s, maxCode, forced, ws, ids, ls, m, extra, slen, lens);
    depths := Quality(td, takes, ws, ids, elems, fb, ls, m);
  }

  lemma CodesReady(ta: seq<CtData>, tb: seq<CtData>, tc: seq<CtData>, td: seq<CtData>, te: seq<CtData>, elems: nat,
                   s: seq<nat>, maxCode: int, forced: seq<nat>, ws: seq<nat>, ids: seq<nat>, ls: seq<nat>,
                   cnt: seq<nat>, m: nat)
    requires Collected(ta, tb, tc, elems, s, maxCode, forced, ws, ids) && SymbolsKept(tc, td, ids, elems)
    requires HasLengths(td, te, ids, elems, ls) && FullCode(ls, m) && Counts(cnt, ls) && m <= MAX_BITS
    requires -1 <= maxCode < elems <= |te|
    ensures var lens := Lengths(te, maxCode + 1);
      Complete(lens) && Kraft(lens) && (forall x :: 0 <= x < |lens| ==> lens[x] <= m) &&
      |cnt| == MAX_BITS + 1 && cnt[0] == 0 && forall l :: 1 <= l <= MAX_BITS ==> cnt[l] == Count(lens, l)
  {
    hide Cleared, Forcing, SymbolsKept, HasLengths, FullCode, Counts, Complete, Count, Lengthed, Leaves, Sorted, NoDup,
      Below;
    LengthedNow(ta, tb, tc, td, te, elems, s, maxCode, forced, ids, ls);
    ReadyForCodes(tb, tc, te, elems, ids, ls, cnt, m, maxCode);
  }

  lemma CodesBuilt(ta: seq<CtData>, tb: seq<CtData>, tc: seq<CtData>, td: seq<CtData>, te: seq<CtData>, tf: seq<CtData>,
                   elems: nat, s: seq<nat>, maxCode: int, forced: seq<nat>, ws: seq<nat>, ids: seq<nat>, ls: seq<nat>,
                   m: nat, extra: nat -> nat, slen: nat -> nat, lens: seq<nat>)
    requires Collected(ta, tb, tc, elems, s, maxCode, forced, ws, ids) && SymbolsKept(tc, td, ids, elems)
    requires HasLengths(td, te, ids, elems, ls) && FullCode(ls, m) && m <= MAX_BITS && |ws| == |ls| && elems <= |ta|
    requires -1 <= maxCode < elems <= |te| && |tf| == |te| && |ls| == |ids| && lens == Lengths(te, maxCode + 1)
    requires Complete(lens) && HasCodes(tf, lens)
    requires forall x :: 0 <= x < |lens| ==> lens[x] <= m
    requires extra(0) == extra(1) == extra(2) == 0
    requires forall x :: maxCode < x < |te| ==> tf[x] == te[x]
    ensures Built(ta, tf, elems, m, maxCode, lens) && ByWeight(ta, lens, ids, ws, ls)
    ensures BitCost(ws, ls, Map(ids, extra)) - |forced| == BlockBits(ta, elems, LenFn(lens), extra)
    ensures BitCost(ws, Map(ids, slen), Map(ids, extra)) + NegSum(forced, slen) == BlockBits(ta, elems, slen, extra)
  {
    hide Cleared, Forcing, SymbolsKept, HasLengths, FullCode, Complete, HasCodes, Lengthed, Leaves, Sorted, NoDup,
      Built, ByWeight, BitCost, BlockBits, LenFn, NegSum;
    LengthedNow(ta, tb, tc, td, te, elems, s, maxCode, forced, ids, ls);
    FullPositive(ls, m);
    BuiltNow(ta, tb, tc, te, tf, elems, s, maxCode, forced, ws, ids, ls, lens, m);
    BuiltCost(ta, tb, tc, te, elems, s, maxCode, forced, ws, ids, ls, lens, m, extra, slen);
  }

  lemma FullPositive(ls: seq<nat>, m: nat)
    requires FullCode(ls, m)
    ensures forall i :: 0 <= i < |ls| ==> ls[i] >= 1
  {
  }

  lemma ForcingParts(tb: seq<CtData>, tc: seq<CtData>, elems: nat, s: seq<nat>, maxCode: int, forced: seq<nat>)
    requires Forcing(tb, tc, elems, s, maxCode, forced)
    ensures IsLeaves(tc, elems, s) && -1 <= maxCode < elems
    ensures forall i :: 0 <= i < |s| ==> PqFreq(s[i]) < 65536
  {
    forall i | 0 <= i < |s|
      ensures PqFreq(s[i]) < 65536
    {
      assert IsLeaf(tc, elems, s[i]);
    }
  }

  lemma ScannedOrder(t: seq<CtData>, elems: nat, s: seq<nat>, maxCode: int)
    requires Scanned(t, elems, s, elems, maxCode)
    ensures NodeOrder(s) && (|s| >= 2 ==> s[0] != s[1])
  {
  }

  lemma QueuesNow(d: seq<nat>, internals: seq<nat>, ws: seq<nat>, ids: seq<nat>, elems: nat)
    requires ws == Weights(d) && ids == Nodes(d) && elems <= PQ_NODES
    requires forall i :: 0 <= i < |d| ==> d[i] == Pack(ws[i], ids[i]) && ids[i] < elems
    ensures Queues(d, internals, ws, ids, [], elems)
  {
  }

  /** The lengths ds make a complete code, and no other code for the weights ws is cheaper. */
  ghost predicate Optimum(ws: seq<nat>, ds: seq<nat>)
  {
    |ws| == |ds| && Cheapest(ws, ds) && exists d: nat :: FullCode(ds, d)
  }

  lemma {:induction false} DepthBound(t: seq<CtData>, root: nat, x: nat)
    requires root < |t|
    ensures Depth(t, root, x) <= root
    ensures x <= root ==> Depth(t, root, x) <= root - x
    decreases root - x
  {
    if x < root && x < t[x].dl <= root { DepthBound(t, root, t[x].dl); }
  }

  lemma DepthsFull(t: seq<CtData>, takes: seq<nat>, ids: seq<nat>, elems: nat, ds: seq<nat>)
    requires Forest(t, takes, ids, elems) && 0 <= Root(ids, elems) < |t|
    requires |ds| == |ids| && forall i :: 0 <= i < |ids| ==> ds[i] == Depth(t, Root(ids, elems), ids[i])
    ensures FullCode(ds, Root(ids, elems))
  {
    hide Depth, Forest, Total, Pow2, KraftSum;
    var root := Root(ids, elems);
    Excess(t, takes, ids, elems, root);
    forall x: nat
      ensures Depth(t, root, x) <= root
    {
      DepthBound(t, root, x);
    }
    ForestSize(t, takes, ids, elems);
    OverZero(t, root, root, ids);
    OverZero(t, root, root, Range(elems, |ids| - 2));
    SharesAreKraft(t, root, root, ids, ds);
    forall i | 0 <= i < |ids|
      ensures 1 <= ds[i]
    {
      HasFather(t, takes, ids, elems, ids[i]);
    }
  }

  /** The depths are the cheapest lengths possible, and are used if they are within the limit; with or without length
      limiting the lengths are monotone. */
  lemma Quality(t: seq<CtData>, takes: seq<nat>, ws: seq<nat>, ids: seq<nat>, elems: nat, fb: seq<nat>, ls: seq<nat>,
                m: nat)
    returns (ds: seq<nat>)
    requires Forest(t, takes, ids, elems) && Adds(t, takes, ids, elems) && Leaves(t, ws, ids, elems)
    requires Sorted(ws) && |fb| == |ids| - 1 && Sum(fb) == HuffCost(ws) && FullCode(ls, m) && |ls| == |ids| == |ws|
    requires forall k :: 0 <= k < |fb| ==> t[elems + k].fc == fb[k]
    requires 0 <= Root(ids, elems) < |t|
    requires Fits(t, Root(ids, elems), m, ids) ==>
      forall i :: 0 <= i < |ids| ==> ls[i] == Depth(t, Root(ids, elems), ids[i])
    requires !Fits(t, Root(ids, elems), m, ids) ==> forall i, j :: 0 <= i < j < |ids| ==> ls[i] >= ls[j]
    requires DeepestFirst(Depths(t, Root(ids, elems), ids), ls, m)
    ensures Monotone(ws, ls) && Optimum(ws, ds) && (AtMost(ds, m) ==> ls == ds) && DeepestFirst(ds, ls, m)
  {
    hide Forest, Adds, Leaves, Sum, HuffCost, Depth, Cheapest, Cost, FullCode, DeepestFirst, Depths;
    var root := Root(ids, elems);
    ds := Depths(t, root, ids);
    DepthsAt(t, root, ids);
    DepthCost(t, takes, ws, ids, elems, fb, ds);
    HuffIsCheapest(ws, ds);
    DepthsFull(t, takes, ids, elems, ds);
    assert AtMost(ds, m) ==> Fits(t, root, m, ids);
    if Fits(t, root, m, ids) {
      FullParts(ls, m);
      assert ls == ds;
      forall i, j | 0 <= i < |ws| && 0 <= j < |ws| && ws[i] < ws[j]
        ensures ls[i] >= ls[j]
      {
        CheapestMonotone(ws, ls, m, i, j);
      }
    }
  }

  lemma FullParts(ls: seq<nat>, m: nat)
    requires FullCode(ls, m)
    ensures AtMost(ls, m) && KraftSum(ls, m) <= Pow2(m)
  {
  }
}
