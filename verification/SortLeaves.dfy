/** trees.c build_tree: collecting the leaves, forcing at least two of them, and sorting them. */
module SortLeaves {
  import opened Counting
  import opened GenCodes
  import opened MergeNodes
  import opened RadixSort
  import opened Permute

  /** s holds the packed entries of exactly the elements of non zero frequency. */
  ghost predicate IsLeaves(t: seq<CtData>, elems: nat, s: seq<nat>)
  {
    elems <= |t| &&
    (forall i :: 0 <= i < |s| ==> IsLeaf(t, elems, s[i])) &&
    (forall n :: 0 <= n < elems && t[n].fc != 0 ==> Pack(t[n].fc, n) in s)
  }

  ghost predicate IsLeaf(t: seq<CtData>, elems: nat, e: nat)
    requires elems <= |t|
  {
    var n := PqNode(e);
    n < elems && t[n].fc != 0 && t[n].fc < 65536 && e == Pack(t[n].fc, n)
  }

  /** The part of IsLeaves about the elements below n. */
  ghost predicate Scanned(t: seq<CtData>, elems: nat, s: seq<nat>, n: nat, maxCode: int)
  {
    elems <= |t| && n <= elems && -1 <= maxCode < n && (maxCode == -1 <==> |s| == 0) && |s| <= n &&
    (forall i :: 0 <= i < |s| ==> IsLeaf(t, elems, s[i]) && PqNode(s[i]) <= maxCode) &&
    (forall k :: 0 <= k < n && t[k].fc != 0 ==> Pack(t[k].fc, k) in s && k <= maxCode) &&
    (maxCode >= 0 ==> t[maxCode].fc != 0) && NodeOrder(s)
  }

  lemma ScanLeaf(t: seq<CtData>, elems: nat, s: seq<nat>, n: nat, maxCode: int)
    requires Scanned(t, elems, s, n, maxCode) && n < elems <= PQ_NODES && 0 != t[n].fc < 65536
    ensures Scanned(t, elems, s + [Pack(t[n].fc, n)], n + 1, n)
  {
    Unpack(t[n].fc, n);
    hide Pack, PqNode;
    var s' := s + [Pack(t[n].fc, n)];
    assert Pack(t[n].fc, n) in s' by { assert s'[|s|] == Pack(t[n].fc, n); }
    forall k | 0 <= k < n + 1 && t[k].fc != 0
      ensures Pack(t[k].fc, k) in s'
    {
      if k < n { assert Pack(t[k].fc, k) in s; }
    }
  }

  lemma SkipLeaf(t: seq<CtData>, t': seq<CtData>, elems: nat, s: seq<nat>, n: nat, maxCode: int)
    requires Scanned(t, elems, s, n, maxCode) && n < elems && t[n].fc == 0 && t' == t[n := t[n].(dl := 0)]
    ensures Scanned(t', elems, s, n + 1, maxCode)
  {
    hide Pack, PqNode;
  }

  lemma HistogramStep(hist: seq<nat>, s: seq<nat>, e: nat, div: nat)
    requires div > 0 && Histogram(hist, Keys(s, div))
    ensures Histogram(hist[Key(e, div) := hist[Key(e, div)] + 1], Keys(s + [e], div))
  {
    hide Key;
    assert Keys(s + [e], div) == Keys(s, div) + [Key(e, div)];
    forall k | 1 <= k <= 256
      ensures Count(Keys(s + [e], div), k) == Count(Keys(s, div), k) + (if Key(e, div) == k then 1 else 0)
    {
      assert (Keys(s, div) + [Key(e, div)])[..|s|] == Keys(s, div);
    }
  }

  lemma KeyOfFreq(f: nat, n: nat)
    requires f < 65536 && n < PQ_NODES
    ensures Key(Pack(f, n), LO) == f % 256 + 1 && Key(Pack(f, n), HI) == f / 256 + 1
  {
    assert Pack(f, n) / LO == f && Pack(f, n) / HI == f / 256;
  }

  /** What the scan does to the tree: unused elements get length 0. */
  ghost predicate Cleared(t: seq<CtData>, t': seq<CtData>, n: nat)
  {
    |t'| == |t| && n <= |t| && forall k :: 0 <= k < |t| ==>
      t'[k] == if k < n && t[k].fc == 0 then t[k].(dl := 0) else t[k]
  }

  /** Collect the leaves in node order, with the histograms of both frequency bytes. */
  method ScanLeaves(tree: array<CtData>, elems: nat, leaves: array<nat>)
    returns (nleaves: nat, maxCode: int, countLo: seq<nat>, countHi: seq<nat>)
    requires elems <= tree.Length && elems <= leaves.Length && elems <= PQ_NODES
    requires forall n :: 0 <= n < elems ==> tree[n].fc < 65536
    modifies tree, leaves
    ensures nleaves <= elems && Scanned(tree[..], elems, leaves[..nleaves], elems, maxCode)
    ensures Histogram(countLo, Keys(leaves[..nleaves], LO)) && Histogram(countHi, Keys(leaves[..nleaves], HI))
    ensures Cleared(old(tree[..]), tree[..], elems)
  {
    hide Pack, PqNode, PqFreq, Key, IsLeaf, Count, Scanned, Histogram, Cleared;
    nleaves, maxCode := 0, -1;
    countLo, countHi := seq(257, i => 0), seq(257, i => 0);
    HistogramEmpty(countLo, LO);
    HistogramEmpty(countHi, HI);
    ghost var s: seq<nat> := [];
    var n := 0;
    ScanStart(tree[..], elems);
    while n < elems
      invariant n <= elems && nleaves == |s| <= n && leaves[..nleaves] == s
      invariant Scanned(tree[..], elems, s, n, maxCode)
      invariant Histogram(countLo, Keys(s, LO)) && Histogram(countHi, Keys(s, HI))
      invariant Cleared(old(tree[..]), tree[..], n)
    {
      ClearedStep(old(tree[..]), tree[..], n);
      var freq := tree[n].fc;
      if freq != 0 {
        HistSize(countLo, Keys(s, LO));
        HistSize(countHi, Keys(s, HI));
        ScanLeaf(tree[..], elems, s, n, maxCode);
        KeyOfFreq(freq, n);
        HistogramStep(countLo, s, Pack(freq, n), LO);
        HistogramStep(countHi, s, Pack(freq, n), HI);
        leaves[nleaves] := Pack(freq, n);
        nleaves := nleaves + 1;
        s := s + [Pack(freq, n)];
        countLo := countLo[freq % 256 + 1 := countLo[freq % 256 + 1] + 1];
        countHi := countHi[freq / 256 + 1 := countHi[freq / 256 + 1] + 1];
        maxCode := n;
      } else {
        SkipLeaf(tree[..], tree[..][n := tree[n].(dl := 0)], elems, s, n, maxCode);
        tree[n] := tree[n].(dl := 0);
      }
      n := n + 1;
    }
  }

  lemma ScanStart(t: seq<CtData>, elems: nat)
    requires elems <= |t|
    ensures Scanned(t, elems, [], 0, -1) && Cleared(t, t, 0)
  {
  }

  lemma ClearedStep(t: seq<CtData>, t': seq<CtData>, n: nat)
    requires Cleared(t, t', n) && n < |t|
    ensures t'[n] == t[n]
    ensures t[n].fc != 0 ==> Cleared(t, t', n + 1)
    ensures t[n].fc == 0 ==> Cleared(t, t'[n := t'[n].(dl := 0)], n + 1)
  {
  }

  lemma HistogramEmpty(hist: seq<nat>, div: nat)
    requires div > 0 && |hist| == 257 && forall k :: 0 <= k < 257 ==> hist[k] == 0
    ensures Histogram(hist, Keys([], div))
  {
  }

  /** The same entries, ascending. */
  ghost predicate SortedAs(s: seq<nat>, d: seq<nat>)
  {
    |d| == |s| && Ascending(d) && forall e :: e in s <==> e in d
  }

  lemma SmallFreqs(s: seq<nat>, hist: seq<nat>)
    requires Histogram(hist, Keys(s, HI)) && hist[1] == |s|
    requires forall i :: 0 <= i < |s| ==> PqFreq(s[i]) < 65536
    ensures forall i :: 0 <= i < |s| ==> PqFreq(s[i]) < 256
  {
    forall i | 0 <= i < |s|
      ensures PqFreq(s[i]) < 256
    {
      if Key(s[i], HI) != 1 {
        CountAll(Keys(s, HI), 1, i);
      }
      assert s[i] / HI == s[i] / LO / 256;
    }
  }

  lemma {:induction false} CountAll(ks: seq<nat>, x: nat, i: nat)
    requires i < |ks| && ks[i] != x
    ensures Count(ks, x) < |ks|
  {
    var n := |ks| - 1;
    if i < n { CountAll(ks[..n], x, i); }
  }

  /** Sort the leaves; the result is in scratch when one pass suffices. */
  method SortEntries(leaves: array<nat>, scratch: array<nat>, nleaves: nat, countLo: seq<nat>, countHi: seq<nat>)
    returns (inScratch: bool)
    requires leaves != scratch && 2 <= nleaves <= leaves.Length && nleaves <= scratch.Length
    requires forall i :: 0 <= i < nleaves ==> PqFreq(leaves[i]) < 65536
    requires nleaves == 2 ==> leaves[0] != leaves[1]
    requires nleaves > 2 ==> NodeOrder(leaves[..nleaves])
    requires nleaves > 2 ==>
      Histogram(countLo, Keys(leaves[..nleaves], LO)) && Histogram(countHi, Keys(leaves[..nleaves], HI))
    modifies leaves, scratch
    ensures SortedAs(old(leaves[..nleaves]), if inScratch then scratch[..nleaves] else leaves[..nleaves])
  {
    hide Pack, PqNode, PqFreq, Key, Histogram, Moved, Count;
    ghost var s := leaves[..nleaves];
    inScratch := false;
    if nleaves == 2 {
      if leaves[0] > leaves[1] {
        leaves[0], leaves[1] := leaves[1], leaves[0];
      }
      assert leaves[..2] == [leaves[0], leaves[1]];
      assert s == [s[0], s[1]];
      return;
    }
    RadixPass(leaves, scratch, nleaves, LO, countLo);
    ghost var d := scratch[..nleaves];
    FirstPass(s, scratch[..]);
    PassElements(s, scratch[..], Keys(s, LO));
    assert scratch[..][..nleaves] == d;
    HistSize(countHi, Keys(s, HI));
    if countHi[1] == nleaves {
      SmallFreqs(s, countHi);
      SameRange(s, d, 256);
      OnePassSorts(d);
      inScratch := true;
    } else {
      SameRange(s, d, 65536);
      SameHistogram(s, d, countHi);
      RadixPass(scratch, leaves, nleaves, HI, countHi);
      SecondPass(d, leaves[..]);
      PassElements(d, leaves[..], Keys(d, HI));
      assert leaves[..][..nleaves] == leaves[..nleaves];
    }
  }

  lemma HistSize(hist: seq<nat>, ks: seq<nat>)
    requires Histogram(hist, ks)
    ensures |hist| == 257
  {
  }

  lemma SameRange(s: seq<nat>, d: seq<nat>, m: nat)
    requires (forall e :: e in s <==> e in d) && forall i :: 0 <= i < |s| ==> PqFreq(s[i]) < m
    ensures forall i :: 0 <= i < |d| ==> PqFreq(d[i]) < m
  {
    hide PqFreq;
    forall i | 0 <= i < |d|
      ensures PqFreq(d[i]) < m
    {
      assert d[i] in s;
    }
  }

  /** The first pass does not change the histogram of the second. */
  lemma SameHistogram(s: seq<nat>, d: seq<nat>, hist: seq<nat>)
    requires NodeOrder(s) && LoOrder(d) && (forall e :: e in s <==> e in d) && Histogram(hist, Keys(s, HI))
    ensures Histogram(hist, Keys(d, HI))
  {
    hide Key, PqNode, Count;
    NoDupSame(s, d);
    var f := (e: nat) => Key(e, HI);
    assert Keys(s, HI) == Map(s, f) && Keys(d, HI) == Map(d, f);
    forall k | 1 <= k <= 256
      ensures Count(Keys(s, HI), k) == Count(Keys(d, HI), k)
    {
      CountPerm(s, d, f, k);
    }
  }
}
