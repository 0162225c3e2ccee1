/** The tree that build_tree leaves in the Dad fields, and the three sums over it that matter: the weighted depth, the
    Kraft sum of the clipped depths, and the number of clipped nodes. */
module TreeShape {
  import opened Arith
  import opened Bits
  import opened GenCodes

  /** takes merges the sequences a and b, keeping the order of each. */
  ghost predicate Interleave(takes: seq<nat>, a: seq<nat>, b: seq<nat>)
  {
    |takes| == |a| + |b| &&
    if |takes| == 0 then true
    else
      var x, rest := takes[|takes| - 1], takes[..|takes| - 1];
      (|a| > 0 && x == a[|a| - 1] && Interleave(rest, a[..|a| - 1], b)) ||
      (|b| > 0 && x == b[|b| - 1] && Interleave(rest, a, b[..|b| - 1]))
  }

  function Range(from: nat, n: nat): (s: seq<nat>)
    ensures |s| == n && forall i :: 0 <= i < n ==> s[i] == from + i
  {
    seq(n, i => from + i)
  }

  /** The sum of g over a sequence of nodes. */
  function Total(s: seq<nat>, g: nat -> int): (r: int)
  {
    if |s| == 0 then 0 else Total(s[..|s| - 1], g) + g(s[|s| - 1])
  }

  lemma {:induction false} TotalInterleave(takes: seq<nat>, a: seq<nat>, b: seq<nat>, g: nat -> int)
    requires Interleave(takes, a, b)
    ensures Total(takes, g) == Total(a, g) + Total(b, g)
  {
    if |takes| > 0 {
      var x, rest := takes[|takes| - 1], takes[..|takes| - 1];
      if |a| > 0 && x == a[|a| - 1] && Interleave(rest, a[..|a| - 1], b) {
        TotalInterleave(rest, a[..|a| - 1], b, g);
      } else {
        TotalInterleave(rest, a, b[..|b| - 1], g);
      }
    }
  }

  /** The merge loop has made the nodes elems, elems + 1, ..., each the father of two nodes taken from the leaves ids,
      in order, and the internal nodes, in order. */
  ghost predicate Forest(t: seq<CtData>, takes: seq<nat>, ids: seq<nat>, elems: nat)
  {
    |ids| >= 2 && |takes| == 2 * (|ids| - 1) && elems + |ids| - 1 <= |t| &&
    Interleave(takes, ids, Range(elems, |ids| - 2)) &&
    (forall k :: 0 <= k < |takes| ==> takes[k] < elems + k / 2 && t[takes[k]].dl == elems + k / 2)
  }

  /** The weight of a father is the sum of the weights of its sons. */
  ghost predicate Adds(t: seq<CtData>, takes: seq<nat>, ids: seq<nat>, elems: nat)
    requires Forest(t, takes, ids, elems)
  {
    forall k :: 0 <= k < |ids| - 1 ==> t[takes[2 * k]].fc + t[takes[2 * k + 1]].fc == t[elems + k].fc
  }

  function Root(ids: seq<nat>, elems: nat): (r: int) { elems + |ids| - 2 }

  /** The depth of node x below root, by the father links. */
  function Depth(t: seq<CtData>, root: nat, x: nat): (d: nat)
    requires root < |t|
    decreases root - x
  {
    if x < root && x < t[x].dl <= root then 1 + Depth(t, root, t[x].dl) else 0
  }

  lemma SonDepth(t: seq<CtData>, takes: seq<nat>, ids: seq<nat>, elems: nat, k: nat)
    requires Forest(t, takes, ids, elems) && k < |takes|
    ensures Depth(t, Root(ids, elems), takes[k]) == 1 + Depth(t, Root(ids, elems), elems + k / 2)
  {
  }

  lemma RootDepth(t: seq<CtData>, root: nat)
    requires root < |t|
    ensures Depth(t, root, root) == 0
  {
  }

  /** If g of two sons adds up to g of the father plus h, then over the whole tree the leaves add up to the root plus
      all h. */
  lemma {:induction false} PairTotal(takes: seq<nat>, elems: nat, n: nat, g: nat -> int, h: nat -> int)
    requires 2 * n <= |takes|
    requires forall k :: 0 <= k < n ==> g(takes[2 * k]) + g(takes[2 * k + 1]) == g(elems + k) + h(elems + k)
    ensures Total(takes[..2 * n], g) == Total(Range(elems, n), g) + Total(Range(elems, n), h)
  {
    if n > 0 {
      PairTotal(takes, elems, n - 1, g, h);
      assert takes[..2 * n][..2 * n - 1][..2 * n - 2] == takes[..2 * (n - 1)];
      assert takes[..2 * n][..2 * n - 1][2 * n - 2] == takes[2 * (n - 1)];
      assert Total(takes[..2 * n][..2 * n - 1], g) == Total(takes[..2 * (n - 1)], g) + g(takes[2 * (n - 1)]);
      assert Range(elems, n)[..n - 1] == Range(elems, n - 1);
    }
  }

  lemma LeafTotal(t: seq<CtData>, takes: seq<nat>, ids: seq<nat>, elems: nat, g: nat -> int, h: nat -> int)
    requires Forest(t, takes, ids, elems)
    requires forall k :: 0 <= k < |ids| - 1 ==> g(takes[2 * k]) + g(takes[2 * k + 1]) == g(elems + k) + h(elems + k)
    ensures Total(ids, g) == g(Root(ids, elems)) + Total(Range(elems, |ids| - 1), h)
    ensures Total(takes, g) == Total(Range(elems, |ids| - 1), g) + Total(Range(elems, |ids| - 1), h)
  {
    hide Interleave;
    var n := |ids| - 1;
    PairTotal(takes, elems, n, g, h);
    assert takes[..2 * n] == takes;
    TotalInterleave(takes, ids, Range(elems, n - 1), g);
    assert Range(elems, n)[..n - 1] == Range(elems, n - 1);
  }

  // ---- the order of the depths ----

  /** Where the elements i and j of b stand in the merged sequence. */
  lemma {:induction false} InOrder(takes: seq<nat>, a: seq<nat>, b: seq<nat>, i: nat, j: nat) returns (p: nat, q: nat)
    requires Interleave(takes, a, b) && i < j < |b|
    ensures p < q < |takes| && takes[p] == b[i] && takes[q] == b[j]
    decreases |takes|
  {
    var n := |takes| - 1;
    if |b| > 0 && takes[n] == b[|b| - 1] && Interleave(takes[..n], a, b[..|b| - 1]) {
      if j == |b| - 1 {
        p := PlaceOf(takes[..n], a, b[..j], i);
        q := n;
      } else {
        p, q := InOrder(takes[..n], a, b[..|b| - 1], i, j);
      }
    } else {
      p, q := InOrder(takes[..n], a[..|a| - 1], b, i, j);
    }
  }

  lemma {:induction false} PlaceOf(takes: seq<nat>, a: seq<nat>, b: seq<nat>, i: nat) returns (p: nat)
    requires Interleave(takes, a, b) && i < |b|
    ensures p < |takes| && takes[p] == b[i]
    decreases |takes|
  {
    var n := |takes| - 1;
    if |b| > 0 && takes[n] == b[|b| - 1] && Interleave(takes[..n], a, b[..|b| - 1]) {
      if i == |b| - 1 { p := n; } else { p := PlaceOf(takes[..n], a, b[..|b| - 1], i); }
    } else {
      p := PlaceOf(takes[..n], a[..|a| - 1], b, i);
    }
  }

  lemma {:induction false} InterleaveSwap(takes: seq<nat>, a: seq<nat>, b: seq<nat>)
    requires Interleave(takes, a, b)
    ensures Interleave(takes, b, a)
    decreases |takes|
  {
    if |takes| > 0 {
      var n := |takes| - 1;
      if |a| > 0 && takes[n] == a[|a| - 1] && Interleave(takes[..n], a[..|a| - 1], b) {
        InterleaveSwap(takes[..n], a[..|a| - 1], b);
      } else {
        InterleaveSwap(takes[..n], a, b[..|b| - 1]);
      }
    }
  }

  /** An internal node that is made later is not deeper. */
  lemma {:induction false} InnerOrder(t: seq<CtData>, takes: seq<nat>, ids: seq<nat>, elems: nat, i: nat, j: nat)
    requires Forest(t, takes, ids, elems) && i <= j < |ids| - 1
    ensures Depth(t, Root(ids, elems), elems + i) >= Depth(t, Root(ids, elems), elems + j)
    decreases |ids| - j
  {
    hide Depth, Interleave;
    if j == |ids| - 2 {
      RootDepth(t, Root(ids, elems));
    } else if i < j {
      var p, q := InOrder(takes, ids, Range(elems, |ids| - 2), i, j);
      SonDepth(t, takes, ids, elems, p);
      SonDepth(t, takes, ids, elems, q);
      InnerOrder(t, takes, ids, elems, p / 2, q / 2);
    }
  }

  /** A leaf that is taken later is not deeper. */
  lemma LeafOrder(t: seq<CtData>, takes: seq<nat>, ids: seq<nat>, elems: nat, i: nat, j: nat)
    requires Forest(t, takes, ids, elems) && i < j < |ids|
    ensures Depth(t, Root(ids, elems), ids[i]) >= Depth(t, Root(ids, elems), ids[j])
  {
    hide Depth, Interleave;
    InterleaveSwap(takes, ids, Range(elems, |ids| - 2));
    var p, q := InOrder(takes, Range(elems, |ids| - 2), ids, i, j);
    SonDepth(t, takes, ids, elems, p);
    SonDepth(t, takes, ids, elems, q);
    InnerOrder(t, takes, ids, elems, p / 2, q / 2);
  }

  // ---- weighted depth ----

  function Weighted(t: seq<CtData>, root: nat): (g: nat -> int)
    requires root < |t|
  {
    (x: nat) => if x < |t| then t[x].fc * Depth(t, root, x) else 0
  }

  function Freq(t: seq<CtData>): (g: nat -> int) { (x: nat) => if x < |t| then t[x].fc else 0 }

  /** The weighted depth of the leaves is the sum of all merged weights. */
  lemma WeightedDepth(t: seq<CtData>, takes: seq<nat>, ids: seq<nat>, elems: nat)
    requires Forest(t, takes, ids, elems) && Adds(t, takes, ids, elems)
    ensures Total(ids, Weighted(t, Root(ids, elems))) == Total(Range(elems, |ids| - 1), Freq(t))
  {
    var root := Root(ids, elems);
    var g, h := Weighted(t, root), Freq(t);
    forall k | 0 <= k < |ids| - 1
      ensures g(takes[2 * k]) + g(takes[2 * k + 1]) == g(elems + k) + h(elems + k)
    {
      hide Depth, Interleave;
      SonDepth(t, takes, ids, elems, 2 * k);
      SonDepth(t, takes, ids, elems, 2 * k + 1);
      AddDepth(t[takes[2 * k]].fc, t[takes[2 * k + 1]].fc, Depth(t, root, elems + k));
    }
    hide Depth, Interleave, Total;
    LeafTotal(t, takes, ids, elems, g, h);
    RootDepth(t, root);
  }

  lemma AddDepth(a: nat, b: nat, d: nat)
    ensures a * (1 + d) + b * (1 + d) == (a + b) * d + (a + b)
  {
    Distrib(a, b, 1 + d);
  }

  // ---- clipped depths ----

  function Clip(d: nat, m: nat): (r: nat) { if d <= m then d else m }

  /** 2^(m - clipped depth): the share of a node in units of 2^-m. */
  function Share(t: seq<CtData>, root: nat, m: nat): (g: nat -> int)
    requires root < |t|
  {
    (x: nat) => Pow2(m - Clip(Depth(t, root, x), m))
  }

  /** 1 for a node whose depth is clipped. */
  function Over(t: seq<CtData>, root: nat, m: nat): (g: nat -> int)
    requires root < |t|
  {
    (x: nat) => if Depth(t, root, x) > m then 1 else 0
  }

  /** 1 for a node at or below the limit, whose sons are clipped. */
  function AtLimit(t: seq<CtData>, root: nat, m: nat): (g: nat -> int)
    requires root < |t|
  {
    (x: nat) => if Depth(t, root, x) >= m then 1 else 0
  }

  lemma SharesAdd(d: nat, m: nat)
    ensures 2 * Pow2(m - Clip(d + 1, m)) == Pow2(m - Clip(d, m)) + (if d >= m then 1 else 0)
  {
  }

  /** What the sons of a node add to its own clipped count. */
  function SonsOver(t: seq<CtData>, root: nat, m: nat): (g: nat -> int)
    requires root < |t|
  {
    (x: nat) => if Depth(t, root, x) >= m then (if Depth(t, root, x) > m then 1 else 2) else 0
  }

  lemma ShareStep(t: seq<CtData>, takes: seq<nat>, ids: seq<nat>, elems: nat, m: nat, k: nat)
    requires Forest(t, takes, ids, elems) && k < |ids| - 1
    ensures var root := Root(ids, elems);
      Share(t, root, m)(takes[2 * k]) + Share(t, root, m)(takes[2 * k + 1]) ==
      Share(t, root, m)(elems + k) + AtLimit(t, root, m)(elems + k)
  {
    hide Depth, Interleave, Pow2;
    SonDepth(t, takes, ids, elems, 2 * k);
    SonDepth(t, takes, ids, elems, 2 * k + 1);
    SharesAdd(Depth(t, Root(ids, elems), elems + k), m);
  }

  lemma LimitShares(t: seq<CtData>, takes: seq<nat>, ids: seq<nat>, elems: nat, m: nat)
    requires Forest(t, takes, ids, elems)
    ensures Total(ids, Share(t, Root(ids, elems), m)) ==
            Pow2(m) + Total(Range(elems, |ids| - 1), AtLimit(t, Root(ids, elems), m))
  {
    hide Depth, Interleave, Total, Pow2;
    var root := Root(ids, elems);
    forall k | 0 <= k < |ids| - 1
      ensures Share(t, root, m)(takes[2 * k]) + Share(t, root, m)(takes[2 * k + 1]) ==
              Share(t, root, m)(elems + k) + AtLimit(t, root, m)(elems + k)
    {
      ShareStep(t, takes, ids, elems, m, k);
    }
    LeafTotal(t, takes, ids, elems, Share(t, root, m), AtLimit(t, root, m));
    RootDepth(t, root);
  }

  lemma {:induction false} SplitLimit(t: seq<CtData>, root: nat, m: nat, s: seq<nat>)
    requires root < |t|
    ensures Total(s, Over(t, root, m)) + Total(s, SonsOver(t, root, m)) == 2 * Total(s, AtLimit(t, root, m))
  {
    hide Depth;
    if |s| > 0 { SplitLimit(t, root, m, s[..|s| - 1]); }
  }

  /** Every clipped son has a father at or below the limit, and that father has two clipped sons. */
  lemma LimitCount(t: seq<CtData>, takes: seq<nat>, ids: seq<nat>, elems: nat, m: nat)
    requires Forest(t, takes, ids, elems)
    ensures Total(takes, Over(t, Root(ids, elems), m)) ==
            2 * Total(Range(elems, |ids| - 1), AtLimit(t, Root(ids, elems), m))
  {
    var root := Root(ids, elems);
    var g, h := Over(t, root, m), SonsOver(t, root, m);
    forall k | 0 <= k < |ids| - 1
      ensures g(takes[2 * k]) + g(takes[2 * k + 1]) == g(elems + k) + h(elems + k)
    {
      hide Depth, Interleave;
      SonDepth(t, takes, ids, elems, 2 * k);
      SonDepth(t, takes, ids, elems, 2 * k + 1);
    }
    hide Depth, Interleave, Total;
    LeafTotal(t, takes, ids, elems, g, h);
    SplitLimit(t, root, m, Range(elems, |ids| - 1));
  }

  /** The excess of the clipped Kraft sum is half the number of clipped nodes. */
  lemma Excess(t: seq<CtData>, takes: seq<nat>, ids: seq<nat>, elems: nat, m: nat)
    requires Forest(t, takes, ids, elems)
    ensures 2 * (Total(ids, Share(t, Root(ids, elems), m)) - Pow2(m)) ==
            Total(ids, Over(t, Root(ids, elems), m)) + Total(Range(elems, |ids| - 2), Over(t, Root(ids, elems), m))
  {
    LimitShares(t, takes, ids, elems, m);
    LimitCount(t, takes, ids, elems, m);
    TotalInterleave(takes, ids, Range(elems, |ids| - 2), Over(t, Root(ids, elems), m));
  }
}
