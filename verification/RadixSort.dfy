/** trees.c pq_radix_pass: a stable counting sort on one byte of the packed queue entries. */
module RadixSort {
  import opened Counting
  import opened SortedCode
  import opened Canonical
  import opened MergeNodes

  const LO: nat := 1024
  const HI: nat := 262144

  /** The digit that a pass looks at, plus one: (e >> shift) & 0xff with div = 2^shift. */
  function Key(e: nat, div: nat): (k: nat)
    requires div > 0
    ensures 1 <= k <= 256
  {
    e / div % 256 + 1
  }

  function Keys(s: seq<nat>, div: nat): (ks: seq<nat>)
    requires div > 0
    ensures |ks| == |s| && forall i :: 0 <= i < |s| ==> ks[i] == Key(s[i], div)
  {
    seq(|s|, i requires 0 <= i < |s| => Key(s[i], div))
  }

  /** The digit histogram, at offset +1. */
  ghost predicate Histogram(count: seq<nat>, ks: seq<nat>)
  {
    |count| == 257 && count[0] == 0 && forall k :: 1 <= k <= 256 ==> count[k] == Count(ks, k)
  }

  /** The running positions when the first i entries have been moved. */
  ghost predicate Starts(count: seq<nat>, ks: seq<nat>, i: nat)
    requires i <= |ks|
  {
    |count| == 257 && forall k :: 1 <= k <= 256 ==> count[k - 1] == Offs(ks, k) + Count(ks[..i], k)
  }

  /** Entry i of src has been moved to its rank, for all i below n. */
  ghost predicate Moved(src: seq<nat>, dst: seq<nat>, ks: seq<nat>, n: nat)
  {
    |src| == |ks| <= |dst| && n <= |src| &&
    forall i :: 0 <= i < n ==> Coded(ks, i) && Rank(ks, i) < |src| && dst[Rank(ks, i)] == src[i]
  }

  lemma {:induction false} OffsAll(ks: seq<nat>, m: nat)
    requires forall i :: 0 <= i < |ks| ==> 1 <= ks[i] < m
    ensures Offs(ks, m) == |ks|
  {
    if |ks| > 0 {
      var front := ks[..|ks| - 1];
      OffsAll(front, m);
      OffsSnoc(front, ks[|ks| - 1], m);
      assert ks == front + [ks[|ks| - 1]];
    } else {
      OffsEmpty(m);
    }
  }

  lemma RankFits(ks: seq<nat>, i: nat)
    requires i < |ks| && forall j :: 0 <= j < |ks| ==> 1 <= ks[j] <= 256
    ensures Coded(ks, i) && Rank(ks, i) < |ks|
  {
    RankRange(ks, i);
    OffsBound(ks, ks[i] + 1);
  }

  lemma MoveNext(src: seq<nat>, dst: seq<nat>, ks: seq<nat>, count: seq<nat>, i: nat)
    requires Moved(src, dst, ks, i) && i < |src| && Starts(count, ks, i)
    requires forall j :: 0 <= j < |ks| ==> 1 <= ks[j] <= 256
    ensures count[ks[i] - 1] == Rank(ks, i) < |src|
    ensures Moved(src, dst[Rank(ks, i) := src[i]], ks, i + 1)
    ensures Starts(count[ks[i] - 1 := count[ks[i] - 1] + 1], ks, i + 1)
  {
    hide Rank;
    RankFits(ks, i);
    RankDef(ks, i);
    forall j | 0 <= j < i
      ensures Rank(ks, j) != Rank(ks, i)
    {
      if Rank(ks, j) == Rank(ks, i) { RankInjective(ks, j, i); }
    }
    forall k | 1 <= k <= 256
      ensures Count(ks[..i + 1], k) == Count(ks[..i], k) + (if ks[i] == k then 1 else 0)
    {
      CountStep(ks, i, k);
    }
  }

  lemma RankDef(ks: seq<nat>, i: nat)
    requires Coded(ks, i)
    ensures Rank(ks, i) == Offs(ks, ks[i]) + Count(ks[..i], ks[i])
  {
  }

  /** Turn the histogram into running start positions. */
  method Positions(hist: seq<nat>, ghost ks: seq<nat>) returns (count: seq<nat>)
    requires Histogram(hist, ks)
    ensures Starts(count, ks, 0)
  {
    hide Count;
    count := hist;
    for i := 1 to 257
      invariant |count| == 257
      invariant forall k :: 0 <= k < i ==> count[k] == Offs(ks, k + 1)
      invariant forall k :: i <= k <= 256 ==> count[k] == Count(ks, k)
    {
      count := count[i := count[i] + count[i - 1]];
    }
    CountNone(ks);
  }

  lemma CountNone(ks: seq<nat>)
    ensures forall k :: Count(ks[..0], k) == 0
  {
  }

  /** One stable counting-sort pass. */
  method RadixPass(src: array<nat>, dst: array<nat>, n: nat, div: nat, hist: seq<nat>)
    requires src != dst && n <= src.Length && n <= dst.Length && div > 0
    requires Histogram(hist, Keys(src[..n], div))
    modifies dst
    ensures Moved(src[..n], dst[..], Keys(src[..n], div), n)
  {
    hide Count, Offs, Rank, Key;
    ghost var s, ks := src[..n], Keys(src[..n], div);
    var count := Positions(hist, ks);
    for i := 0 to n
      invariant src[..n] == s
      invariant Moved(s, dst[..], ks, i) && Starts(count, ks, i)
    {
      MoveNext(s, dst[..], ks, count, i);
      var k := Key(src[i], div) - 1;
      dst[count[k]] := src[i];
      count := count[k := count[k] + 1];
    }
  }

  /** A pass is stable: earlier places hold smaller digits, or equal digits in the order of src. */
  lemma PassOrder(src: seq<nat>, dst: seq<nat>, ks: seq<nat>, p: nat, q: nat) returns (i: nat, j: nat)
    requires Moved(src, dst, ks, |src|) && p < q < |src| && forall j :: 0 <= j < |ks| ==> 1 <= ks[j] <= 256
    ensures i < |src| && j < |src| && dst[p] == src[i] && dst[q] == src[j]
    ensures ks[i] < ks[j] || (ks[i] == ks[j] && i < j)
  {
    hide Rank;
    OffsAll(ks, 257);
    i := FindRankBelow(ks, p, 257);
    j := FindRankBelow(ks, q, 257);
    if ks[j] < ks[i] || (ks[j] == ks[i] && j < i) { RankOrder(ks, j, i); }
  }

  /** A pass moves every entry and invents none. */
  lemma PassElements(src: seq<nat>, dst: seq<nat>, ks: seq<nat>)
    requires Moved(src, dst, ks, |src|) && forall j :: 0 <= j < |ks| ==> 1 <= ks[j] <= 256
    ensures forall e :: e in src <==> e in dst[..|src|]
  {
    hide Rank;
    forall e | e in src
      ensures e in dst[..|src|]
    {
      var i :| 0 <= i < |src| && src[i] == e;
      assert dst[..|src|][Rank(ks, i)] == e;
    }
    forall e | e in dst[..|src|]
      ensures e in src
    {
      var p :| 0 <= p < |src| && dst[p] == e;
      OffsAll(ks, 257);
      var i := FindRankBelow(ks, p, 257);
      assert src[i] == e;
    }
  }

  /** Strictly ascending packed entries. */
  ghost predicate Ascending(s: seq<nat>) { forall i, j :: 0 <= i < j < |s| ==> s[i] < s[j] }

  ghost predicate NodeOrder(s: seq<nat>) { forall i, j :: 0 <= i < j < |s| ==> PqNode(s[i]) < PqNode(s[j]) }

  /** Ordered by the low frequency byte, then by node. */
  ghost predicate LoOrder(s: seq<nat>)
  {
    forall i, j :: 0 <= i < j < |s| ==>
      Key(s[i], LO) < Key(s[j], LO) || (Key(s[i], LO) == Key(s[j], LO) && PqNode(s[i]) < PqNode(s[j]))
  }

  lemma FirstPass(src: seq<nat>, dst: seq<nat>)
    requires Moved(src, dst, Keys(src, LO), |src|) && NodeOrder(src) && |src| <= |dst|
    ensures LoOrder(dst[..|src|])
  {
    hide Moved, Key, PqNode;
    var n := |src|;
    var d := dst[..n];
    forall p, q | 0 <= p < q < n
      ensures Key(d[p], LO) < Key(d[q], LO) || (Key(d[p], LO) == Key(d[q], LO) && PqNode(d[p]) < PqNode(d[q]))
    {
      var i, j := PassOrder(src, dst, Keys(src, LO), p, q);
    }
  }

  /** With frequencies below 256 one pass sorts; PqFreq(e) is then the low byte. */
  lemma OnePassSorts(s: seq<nat>)
    requires LoOrder(s) && forall i :: 0 <= i < |s| ==> PqFreq(s[i]) < 256
    ensures Ascending(s)
  {
  }

  lemma SecondPass(src: seq<nat>, dst: seq<nat>)
    requires Moved(src, dst, Keys(src, HI), |src|) && LoOrder(src) && |src| <= |dst|
    requires forall i :: 0 <= i < |src| ==> PqFreq(src[i]) < 65536
    ensures Ascending(dst[..|src|])
  {
    hide Moved, Key, PqNode, PqFreq;
    var n := |src|;
    var d := dst[..n];
    forall p, q | 0 <= p < q < n
      ensures d[p] < d[q]
    {
      var i, j := PassOrder(src, dst, Keys(src, HI), p, q);
      Bytes(src[i], src[j]);
    }
  }

  lemma Bytes(a: nat, b: nat)
    requires PqFreq(a) < 65536 && PqFreq(b) < 65536
    ensures Key(a, HI) < Key(b, HI) ==> a < b
    ensures Key(a, HI) == Key(b, HI) && Key(a, LO) < Key(b, LO) ==> a < b
    ensures Key(a, HI) == Key(b, HI) && Key(a, LO) == Key(b, LO) && PqNode(a) < PqNode(b) ==> a < b
  {
    assert a / HI == a / LO / 256 && b / HI == b / LO / 256;
  }
}
