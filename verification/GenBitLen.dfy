/** trees.c gen_bitlen: code lengths from the tree, limited to max_length. */
module GenBitLen {
  import opened Arith
  import opened Bits
  import opened Counting
  import opened Canonical
  import opened GenCodes
  import opened Huffman
  import opened TreeShape
  import opened Permute
  import opened MergeNodes
  import opened LengthCounts

  // ---- what the father links say ----

  lemma {:induction false} InA(takes: seq<nat>, a: seq<nat>, b: seq<nat>, i: nat) returns (k: nat)
    requires Interleave(takes, a, b) && i < |a|
    ensures k < |takes| && takes[k] == a[i]
  {
    var n := |takes| - 1;
    if |a| > 0 && takes[n] == a[|a| - 1] && Interleave(takes[..n], a[..|a| - 1], b) {
      if i == |a| - 1 { k := n; } else { k := InA(takes[..n], a[..|a| - 1], b, i); }
    } else {
      k := InA(takes[..n], a, b[..|b| - 1], i);
    }
  }

  lemma {:induction false} InB(takes: seq<nat>, a: seq<nat>, b: seq<nat>, i: nat) returns (k: nat)
    requires Interleave(takes, a, b) && i < |b|
    ensures k < |takes| && takes[k] == b[i]
  {
    var n := |takes| - 1;
    if |a| > 0 && takes[n] == a[|a| - 1] && Interleave(takes[..n], a[..|a| - 1], b) {
      k := InB(takes[..n], a[..|a| - 1], b, i);
    } else {
      if i == |b| - 1 { k := n; } else { k := InB(takes[..n], a, b[..|b| - 1], i); }
    }
  }

  /** Every node but the root has a father, created after it. */
  lemma HasFather(t: seq<CtData>, takes: seq<nat>, ids: seq<nat>, elems: nat, x: nat)
    requires Forest(t, takes, ids, elems) && (x in ids || elems <= x < Root(ids, elems))
    ensures x < |t| && x < t[x].dl <= Root(ids, elems) && elems <= t[x].dl
    ensures Depth(t, Root(ids, elems), x) == 1 + Depth(t, Root(ids, elems), t[x].dl)
  {
    hide Interleave, Depth;
    var k: nat;
    if x in ids {
      var i :| 0 <= i < |ids| && ids[i] == x;
      k := InA(takes, ids, Range(elems, |ids| - 2), i);
    } else {
      k := InB(takes, ids, Range(elems, |ids| - 2), x - elems);
    }
    Father(t, takes, ids, elems, k);
  }

  lemma Father(t: seq<CtData>, takes: seq<nat>, ids: seq<nat>, elems: nat, k: nat)
    requires Forest(t, takes, ids, elems) && k < |takes|
    ensures takes[k] < |t| && takes[k] < t[takes[k]].dl <= Root(ids, elems) && elems <= t[takes[k]].dl
    ensures Depth(t, Root(ids, elems), takes[k]) == 1 + Depth(t, Root(ids, elems), t[takes[k]].dl)
  {
    hide Interleave, Depth;
    SonDepth(t, takes, ids, elems, k);
  }

  // ---- sums of the leaves ----

  /** ls are the clipped depths of the leaves ids. */
  ghost predicate Clipped(t: seq<CtData>, root: nat, m: nat, ids: seq<nat>, ls: seq<nat>)
    requires root < |t|
  {
    |ls| == |ids| && forall i :: 0 <= i < |ids| ==> ls[i] == Clip(Depth(t, root, ids[i]), m)
  }

  lemma {:induction false} SharesAreKraft(t: seq<CtData>, root: nat, m: nat, ids: seq<nat>, ls: seq<nat>)
    requires root < |t| && Clipped(t, root, m, ids, ls)
    ensures AtMost(ls, m) && Total(ids, Share(t, root, m)) == KraftSum(ls, m)
  {
    hide Depth, Pow2;
    if |ids| > 0 {
      var n := |ids| - 1;
      SharesAreKraft(t, root, m, ids[..n], ls[..n]);
      assert ls == ls[..n] + [ls[n]];
      KraftConcat(ls[..n], [ls[n]], m);
      KraftOne(ls[n], m);
    }
  }

  lemma KraftOne(l: nat, m: nat)
    requires l <= m
    ensures KraftSum([l], m) == Pow2(m - l)
  {
  }

  lemma {:induction false} ClippedCount(t: seq<CtData>, root: nat, m: nat, ids: seq<nat>, ls: seq<nat>)
    requires root < |t| && Clipped(t, root, m, ids, ls)
    ensures Total(ids, Over(t, root, m)) <= Count(ls, m)
  {
    hide Depth;
    if |ids| > 0 {
      var n := |ids| - 1;
      ClippedCount(t, root, m, ids[..n], ls[..n]);
    }
  }

  lemma {:induction false} OverAtMostLimit(t: seq<CtData>, root: nat, m: nat, s: seq<nat>)
    requires root < |t|
    ensures 0 <= Total(s, Over(t, root, m)) <= Total(s, AtLimit(t, root, m))
  {
    hide Depth;
    if |s| > 0 { OverAtMostLimit(t, root, m, s[..|s| - 1]); }
  }

  /** At least half of the clipped nodes are leaves. */
  lemma ClippedLeaves(t: seq<CtData>, takes: seq<nat>, ids: seq<nat>, elems: nat, m: nat)
    requires Forest(t, takes, ids, elems)
    ensures Total(ids, Over(t, Root(ids, elems), m)) >=
            Total(Range(elems, |ids| - 2), Over(t, Root(ids, elems), m)) >= 0
  {
    hide Depth, Interleave;
    var root, n := Root(ids, elems), |ids| - 1;
    LimitCount(t, takes, ids, elems, m);
    TotalInterleave(takes, ids, Range(elems, n - 1), Over(t, root, m));
    assert Range(elems, n)[..n - 1] == Range(elems, n - 1);
    OverAtMostLimit(t, root, m, Range(elems, n - 1));
    assert Total(Range(elems, n), AtLimit(t, root, m)) ==
           Total(Range(elems, n - 1), AtLimit(t, root, m)) + AtLimit(t, root, m)(elems + n - 1);
  }

  /** The counts of lengths have the Kraft sum and the size of the lengths. */
  lemma {:induction false} CountsKraft(cnt: seq<nat>, ls: seq<nat>, m: nat)
    requires Counts(cnt, ls) && AtMost(ls, m) && m <= MAX_BITS && forall i :: 0 <= i < |ls| ==> 1 <= ls[i]
    ensures CountKraft(cnt, m, m) == KraftSum(ls, m) && CountSum(cnt, m) == |ls|
    decreases |ls|
  {
    if |ls| == 0 {
      NoneShorter(cnt, m, m);
    } else {
      var n := |ls| - 1;
      var front, l := ls[..n], ls[n];
      var c := cnt[l := cnt[l] - 1];
      CountsKraft(c, front, m);
      hide CountKraft, CountSum, Count, Pow2;
      KraftUpdate(cnt, m, m, l, cnt[l] - 1);
      SumUpdate(cnt, m, l, cnt[l] - 1);
      Distrib(cnt[l] - 1, 1, Pow2(m - l));
      assert ls == front + [l];
      KraftConcat(front, [l], m);
      KraftOne(l, m);
    }
  }

  // ---- the first pass ----

  /** The tree while lengths replace father links: nodes above n have their clipped depth. */
  ghost predicate Descended(t: seq<CtData>, t': seq<CtData>, root: nat, m: nat, n: nat)
    requires root < |t|
  {
    |t'| == |t| && n < |t| &&
    forall x :: 0 <= x < |t| ==>
      t'[x] == if n <= x <= root then t[x].(dl := Clip(Depth(t, root, x), m)) else t[x]
  }

  lemma {:induction false} RangeFront(from: nat, n: nat, g: nat -> int)
    requires n > 0
    ensures Total(Range(from, n), g) == g(from) + Total(Range(from + 1, n - 1), g)
  {
    assert Range(from, n) == [from] + Range(from + 1, n - 1);
    TotalConcat([from], Range(from + 1, n - 1), g);
    assert Total([from], g) == g(from) by { assert [from][..0] == []; }
  }

  lemma DescendStep(t: seq<CtData>, t': seq<CtData>, takes: seq<nat>, ids: seq<nat>, elems: nat, m: nat, x: nat)
    requires Forest(t, takes, ids, elems) && (x in ids || elems <= x < Root(ids, elems))
    requires Descended(t, t', Root(ids, elems), m, elems) || Descended(t, t', Root(ids, elems), m, x + 1)
    requires x < |t'| && t'[x].dl == t[x].dl
    ensures x < t'[x].dl < |t'|
    ensures Clip(t'[t'[x].dl].dl + 1, m) == Clip(Depth(t, Root(ids, elems), x), m)
    ensures t'[t'[x].dl].dl + 1 > m <==> Depth(t, Root(ids, elems), x) > m
  {
    hide Depth, Forest;
    HasFather(t, takes, ids, elems, x);
    ForestSize(t, takes, ids, elems);
  }

  lemma ForestSize(t: seq<CtData>, takes: seq<nat>, ids: seq<nat>, elems: nat)
    requires Forest(t, takes, ids, elems)
    ensures elems <= Root(ids, elems) < |t| && |ids| >= 2
  {
  }

  /** Dads are created after their sons, so a descending walk visits each dad first. */
  method InternalLengths(tree: array<CtData>, elems: nat, root: nat, m: nat, ghost takes: seq<nat>, ghost ids: seq<nat>)
    returns (overflow: nat)
    requires Forest(tree[..], takes, ids, elems) && root == Root(ids, elems)
    modifies tree
    ensures root < tree.Length && Descended(old(tree[..]), tree[..], root, m, elems)
    ensures overflow == Total(Range(elems, |ids| - 2), Over(old(tree[..]), root, m))
  {
    hide Depth, Forest, Total, Clip;
    ghost var t := tree[..];
    ForestSize(t, takes, ids, elems);
    RootDepth(t, root);
    ClipZero(m);
    tree[root] := tree[root].(dl := 0);
    overflow := 0;
    var n: int := root - 1;
    NoNodes(Over(t, root, m));
    assert Range(root, 0) == [];
    while n >= elems
      invariant elems - 1 <= n < root && Descended(t, tree[..], root, m, n + 1)
      invariant overflow == Total(Range(n + 1, root - 1 - n), Over(t, root, m))
    {
      DescendStep(t, tree[..], takes, ids, elems, m, n);
      RangeFront(n, root - n, Over(t, root, m));
      var bits := tree[tree[n].dl].dl + 1;
      ClipDef(bits, m);
      if bits > m {
        bits := m;
        overflow := overflow + 1;
      }
      tree[n] := tree[n].(dl := bits);
      n := n - 1;
    }
  }

  lemma ClipZero(m: nat)
    ensures Clip(0, m) == 0
  {
  }

  lemma ClipDef(d: nat, m: nat)
    ensures Clip(d, m) == if d > m then m else d
  {
  }

  lemma NoNodes(g: nat -> int)
    ensures Total([], g) == 0
  {
  }

  // ---- the leaves ----

  lemma {:induction false} CostSnoc(ws: seq<nat>, ls: seq<nat>, i: nat)
    requires |ws| == |ls| && i < |ws|
    ensures Cost(ws[..i + 1], ls[..i + 1]) == Cost(ws[..i], ls[..i]) + ws[i] * ls[i]
  {
    assert ws[..i + 1] == ws[..i] + [ws[i]] && ls[..i + 1] == ls[..i] + [ls[i]];
    CostConcat(ws[..i], [ws[i]], ls[..i], [ls[i]]);
    assert Cost([ws[i]], [ls[i]]) == ws[i] * ls[i];
  }

  /** The tree when the first i leaves have their lengths. */
  ghost predicate LeavesDone(t: seq<CtData>, t': seq<CtData>, ids: seq<nat>, elems: nat, root: nat, ls: seq<nat>,
                             i: nat)
  {
    |t'| == |t| && root < |t| && i == |ls| <= |ids| && elems <= root &&
    (forall x :: 0 <= x < |t| ==> t'[x].fc == t[x].fc) &&
    (forall x :: 0 <= x < elems && x !in ids[..i] ==> t'[x] == t[x]) &&
    (forall j :: 0 <= j < i ==> ids[j] < elems && t'[ids[j]].dl == ls[j])
  }

  /** One step of the leaf loop: the length of the leaf of rank i, and what it adds to the counts. */
  lemma LeafStep(t: seq<CtData>, t1: seq<CtData>, t2: seq<CtData>, ws: seq<nat>, ids: seq<nat>, elems: nat, root: nat,
                 m: nat, ls: seq<nat>, i: nat)
    requires root < |t| && elems <= root && Leaves(t, ws, ids, elems) && i < |ids| && Descended(t, t1, root, m, elems)
    requires LeavesDone(t1, t2, ids, elems, root, ls, i)
    requires forall x :: elems <= x <= root ==> t2[x] == t1[x]
    ensures ids[i] < elems && t2[ids[i]] == t[ids[i]] && t[ids[i]].fc == ws[i] && |t2| == |t|
    ensures forall l :: LeavesDone(t1, t2[ids[i] := t2[ids[i]].(dl := l)], ids, elems, root, ls + [l], i + 1)
  {
    hide Depth;
    assert forall x :: x in ids[..i + 1] <==> x in ids[..i] || x == ids[i] by {
      assert ids[..i + 1] == ids[..i] + [ids[i]];
    }
    assert ids[i] !in ids[..i];
  }

  /** The bits that n occurrences with lengths ls and extra bits take. */
  function BitCost(ws: seq<nat>, ls: seq<nat>, xs: seq<nat>): (r: nat)
    requires |ws| == |ls| == |xs|
  {
    Cost(ws, ls) + Cost(ws, xs)
  }

  lemma BitsSnoc(ws: seq<nat>, ls: seq<nat>, xs: seq<nat>, i: nat, l: nat)
    requires |ws| == |xs| && i == |ls| < |ws|
    ensures BitCost(ws[..i + 1], ls + [l], xs[..i + 1]) == BitCost(ws[..i], ls, xs[..i]) + ws[i] * (l + xs[i])
  {
    hide Cost;
    var z := ls + [l] + Repeat0(|ws| - i - 1);
    CostSnoc(ws, z, i);
    CostSnoc(ws, xs, i);
    assert z[..i + 1] == ls + [l] && z[..i] == ls;
    DistribLeft(ws[i], l, xs[i]);
  }

  function Repeat0(n: nat): (s: seq<nat>)
    ensures |s| == n && forall i :: 0 <= i < n ==> s[i] == 0
  {
    seq(n, i => 0)
  }

  lemma CountsStep(cnt: seq<nat>, ls: seq<nat>, l: nat)
    requires Counts(cnt, ls) && l <= MAX_BITS
    ensures Counts(cnt[l := cnt[l] + 1], ls + [l])
  {
    assert (ls + [l])[..|ls|] == ls;
  }

  /** The values that the leaf loop computes for the first i leaves. */
  ghost predicate LeafSums(t: seq<CtData>, root: nat, m: nat, ws: seq<nat>, ids: seq<nat>, xs: seq<nat>, ss: seq<nat>,
                           i: nat, ls: seq<nat>, cnt: seq<nat>, over: int, opt: int, stat: int)
    requires root < |t|
  {
    |ws| == |ids| == |xs| == |ss| && i == |ls| <= |ids| && Clipped(t, root, m, ids[..i], ls) && Counts(cnt, ls) &&
    over == Total(ids[..i], Over(t, root, m)) &&
    opt == BitCost(ws[..i], ls, xs[..i]) && stat == BitCost(ws[..i], ss[..i], xs[..i])
  }

  lemma LeafSumsStep(t: seq<CtData>, root: nat, m: nat, ws: seq<nat>, ids: seq<nat>, xs: seq<nat>, ss: seq<nat>, i: nat,
                     ls: seq<nat>, cnt: seq<nat>, over: int, opt: int, stat: int, l: nat)
    requires root < |t| && LeafSums(t, root, m, ws, ids, xs, ss, i, ls, cnt, over, opt, stat) && i < |ids|
    requires l == Clip(Depth(t, root, ids[i]), m) <= MAX_BITS
    ensures |cnt| == MAX_BITS + 1
    ensures LeafSums(t, root, m, ws, ids, xs, ss, i + 1, ls + [l], cnt[l := cnt[l] + 1],
                     over + (if Depth(t, root, ids[i]) > m then 1 else 0),
                     opt + ws[i] * (l + xs[i]), stat + ws[i] * (ss[i] + xs[i]))
  {
    hide Depth, BitCost, Counts;
    CountsStep(cnt, ls, l);
    CountsSize(cnt, ls);
    BitsSnoc(ws, ls, xs, i, l);
    BitsSnoc(ws, ss[..i], xs, i, ss[i]);
    assert ss[..i + 1] == ss[..i] + [ss[i]];
    assert ids[..i + 1][..i] == ids[..i];
  }

  lemma CountsSize(cnt: seq<nat>, ls: seq<nat>)
    requires Counts(cnt, ls)
    ensures |cnt| == MAX_BITS + 1
  {
  }

  /** Give every leaf its clipped depth and add up the counts, the overflow and the bit lengths. */
  method LeafLengths(tree: array<CtData>, elems: nat, root: nat, m: nat, sorted: array<nat>, nleaves: nat,
                     extra: nat -> nat, slen: nat -> nat, ghost t: seq<CtData>, ghost takes: seq<nat>,
                     ghost ws: seq<nat>, ghost ids: seq<nat>)
    returns (overflow: nat, cnt: seq<nat>, opt: int, stat: int, ghost ls: seq<nat>)
    requires Forest(t, takes, ids, elems) && root == Root(ids, elems) && Leaves(t, ws, ids, elems)
    requires root < |t| && Descended(t, tree[..], root, m, elems) && m <= MAX_BITS
    requires nleaves == |ids| <= sorted.Length && forall i :: 0 <= i < nleaves ==> PqNode(sorted[i]) == ids[i]
    modifies tree
    ensures LeavesDone(old(tree[..]), tree[..], ids, elems, root, ls, nleaves)
    ensures LeafSums(t, root, m, ws, ids, Map(ids, extra), Map(ids, slen), nleaves, ls, cnt, overflow, opt, stat)
  {
    hide Depth, Forest, Total, Clip, LeafSums, Leaves, LeavesDone, PqNode;
    ghost var t1 := tree[..];
    ghost var xs, ss := Map(ids, extra), Map(ids, slen);
    overflow, opt, stat, ls := 0, 0, 0, [];
    cnt := seq(MAX_BITS + 1, i => 0);
    ForestSize(t, takes, ids, elems);
    LeafStart(t, t1, root, m, ws, ids, xs, ss, cnt, elems);
    for i := 0 to nleaves
      invariant i == |ls| && |tree[..]| == |t|
      invariant LeavesDone(t1, tree[..], ids, elems, root, ls, i)
      invariant LeafSums(t, root, m, ws, ids, xs, ss, i, ls, cnt, overflow, opt, stat)
      invariant forall x :: elems <= x <= root ==> tree[x] == t1[x]
    {
      LeafStep(t, t1, tree[..], ws, ids, elems, root, m, ls, i);
      var n := PqNode(sorted[i]);
      LeafFather(t, t1, tree[..], takes, ids, elems, m, n);
      var bits := tree[tree[n].dl].dl + 1;
      ClipDef(bits, m);
      LeafSumsStep(t, root, m, ws, ids, xs, ss, i, ls, cnt, overflow, opt, stat, if bits > m then m else bits);
      if bits > m {
        bits := m;
        overflow := overflow + 1;
      }
      var f := tree[n].fc;
      tree[n] := tree[n].(dl := bits);
      cnt := cnt[bits := cnt[bits] + 1];
      opt := opt + f * (bits + extra(n));
      stat := stat + f * (slen(n) + extra(n));
      ls := ls + [bits];
    }
  }

  lemma LeafStart(t: seq<CtData>, t1: seq<CtData>, root: nat, m: nat, ws: seq<nat>, ids: seq<nat>, xs: seq<nat>,
                  ss: seq<nat>, cnt: seq<nat>, elems: nat)
    requires root < |t| && elems <= root && |t1| == |t| && Leaves(t, ws, ids, elems) && |xs| == |ss| == |ids|
    requires |cnt| == MAX_BITS + 1 && forall l :: 0 <= l <= MAX_BITS ==> cnt[l] == 0
    ensures LeafSums(t, root, m, ws, ids, xs, ss, 0, [], cnt, 0, 0, 0)
    ensures LeavesDone(t1, t1, ids, elems, root, [], 0)
  {
  }

  lemma LeafFather(t: seq<CtData>, t1: seq<CtData>, t2: seq<CtData>, takes: seq<nat>, ids: seq<nat>, elems: nat, m: nat,
                   x: nat)
    requires Forest(t, takes, ids, elems) && x in ids && x < elems && Root(ids, elems) < |t| == |t2|
    requires Descended(t, t1, Root(ids, elems), m, elems) && t2[x].dl == t[x].dl
    requires forall y :: elems <= y <= Root(ids, elems) ==> t2[y] == t1[y]
    ensures t2[x].dl < |t2|
    ensures Clip(t2[t2[x].dl].dl + 1, m) == Clip(Depth(t, Root(ids, elems), x), m)
    ensures t2[t2[x].dl].dl + 1 > m <==> Depth(t, Root(ids, elems), x) > m
  {
    hide Depth, Forest;
    HasFather(t, takes, ids, elems, x);
  }

  // ---- the second pass ----

  /** The lengths b, ..., 1, each as often as the counts say. */
  function Blocks(cnt: seq<nat>, b: nat): (s: seq<nat>)
    requires b < |cnt|
  {
    if b == 0 then [] else Repeat(b, cnt[b]) + Blocks(cnt, b - 1)
  }

  lemma {:induction false} BlocksShape(cnt: seq<nat>, b: nat)
    requires b < |cnt|
    ensures |Blocks(cnt, b)| == CountSum(cnt, b)
    ensures forall i :: 0 <= i < |Blocks(cnt, b)| ==> 1 <= Blocks(cnt, b)[i] <= b
    ensures forall i, j :: 0 <= i < j < |Blocks(cnt, b)| ==> Blocks(cnt, b)[i] >= Blocks(cnt, b)[j]
  {
    if b > 0 { BlocksShape(cnt, b - 1); }
  }

  lemma {:induction false} BlocksCount(cnt: seq<nat>, b: nat, x: nat)
    requires b < |cnt|
    ensures Count(Blocks(cnt, b), x) == if 1 <= x <= b then cnt[x] else 0
  {
    if b > 0 {
      BlocksCount(cnt, b - 1, x);
      CountRepeat(b, cnt[b], x);
      CountConcat(Repeat(b, cnt[b]), Blocks(cnt, b - 1), x);
    }
  }

  /** The tree and the cost when the first i leaves have their new lengths ls' and the others still ls. */
  ghost predicate Reassigned(t: seq<CtData>, t': seq<CtData>, ws: seq<nat>, ids: seq<nat>, elems: nat, ls: seq<nat>,
                             ls': seq<nat>, i: nat, opt: int, opt': int)
  {
    |t'| == |t| && |ids| == |ws| == |ls| == |ls'| && i <= |ids| && elems <= |t| &&
    (forall x :: 0 <= x < |t| ==> t'[x].fc == t[x].fc && (x !in ids ==> t'[x] == t[x])) &&
    (forall j :: 0 <= j < |ids| ==> ids[j] < elems && t'[ids[j]].dl == if j < i then ls'[j] else ls[j]) &&
    opt' - opt == Cost(ws, ls'[..i] + ls[i..]) - Cost(ws, ls)
  }

  lemma ReassignStep(t: seq<CtData>, t': seq<CtData>, ws: seq<nat>, ids: seq<nat>, elems: nat, ls: seq<nat>,
                     ls': seq<nat>, i: nat, opt: int, opt': int)
    requires Reassigned(t, t', ws, ids, elems, ls, ls', i, opt, opt') && Leaves(t, ws, ids, elems) && i < |ids|
    ensures ids[i] < |t'| && t'[ids[i]].fc == ws[i] && t'[ids[i]].dl == ls[i]
    ensures Reassigned(t, t'[ids[i] := t'[ids[i]].(dl := ls'[i])], ws, ids, elems, ls, ls', i + 1, opt,
                       opt' + ls'[i] * ws[i] - ls[i] * ws[i])
  {
    hide Cost;
    var a, b := ls'[..i] + ls[i..], ls'[..i + 1] + ls[i + 1..];
    assert b == a[i := ls'[i]];
    CostSet(ws, a, i, ls'[i]);
  }

  /** The inner loop: the next n leaves get length bits. */
  method ReassignRun(tree: array<CtData>, sorted: array<nat>, i0: nat, bits: nat, n0: nat, opt0: int,
                     ghost t: seq<CtData>, ghost elems: nat, ghost ws: seq<nat>, ghost ids: seq<nat>,
                     ghost ls: seq<nat>, ghost ls': seq<nat>, ghost opt: int, ghost rest: seq<nat>)
    returns (i: nat, opt': int)
    requires Leaves(t, ws, ids, elems) && |ids| == |ls'| <= sorted.Length && i0 <= |ids|
    requires forall i :: 0 <= i < |ids| ==> PqNode(sorted[i]) == ids[i]
    requires Reassigned(t, tree[..], ws, ids, elems, ls, ls', i0, opt, opt0) && ls'[i0..] == Repeat(bits, n0) + rest
    modifies tree
    ensures i <= |ids| && Reassigned(t, tree[..], ws, ids, elems, ls, ls', i, opt, opt') && ls'[i..] == rest
  {
    hide Leaves, PqNode, Reassigned;
    i, opt' := i0, opt0;
    var n := n0;
    while n != 0
      invariant i <= |ids| && ls'[i..] == Repeat(bits, n) + rest
      invariant Reassigned(t, tree[..], ws, ids, elems, ls, ls', i, opt, opt')
    {
      assert ls'[i..][0] == bits && |ls'[i..]| > 0;
      ReassignStep(t, tree[..], ws, ids, elems, ls, ls', i, opt, opt');
      opt' := Relength(tree, PqNode(sorted[i]), bits, opt');
      RunStep(ls', i, bits, n, rest);
      i := i + 1;
      n := n - 1;
    }
    assert Repeat(bits, 0) + rest == rest;
  }

  /** Recompute all bit lengths, scanning in increasing frequency. */
  method Reassign(tree: array<CtData>, elems: nat, sorted: array<nat>, nleaves: nat, cnt: seq<nat>, m: nat, opt: int,
                  ghost t: seq<CtData>, ghost ws: seq<nat>, ghost ids: seq<nat>, ghost ls: seq<nat>)
    returns (opt': int, ghost ls': seq<nat>)
    requires Leaves(t, ws, ids, elems) && nleaves == |ids| == |ls| <= sorted.Length && m < |cnt|
    requires forall i :: 0 <= i < nleaves ==> PqNode(sorted[i]) == ids[i]
    requires t == tree[..] && forall j :: 0 <= j < nleaves ==> t[ids[j]].dl == ls[j]
    requires CountSum(cnt, m) == nleaves
    modifies tree
    ensures ls' == Blocks(cnt, m) && Reassigned(t, tree[..], ws, ids, elems, ls, ls', nleaves, opt, opt')
  {
    hide Leaves, PqNode, Reassigned, Blocks, CountSum, Repeat;
    ls' := Blocks(cnt, m);
    BlocksShape(cnt, m);
    opt' := opt;
    ReassignStart(t, ws, ids, elems, ls, ls', opt);
    var i: nat, bits: nat := 0, m;
    assert ls'[0..] == ls';
    while bits != 0
      invariant 0 <= bits <= m && i <= nleaves && ls'[i..] == Blocks(cnt, bits)
      invariant Reassigned(t, tree[..], ws, ids, elems, ls, ls', i, opt, opt')
    {
      BlocksStep(cnt, bits);
      i, opt' := ReassignRun(tree, sorted, i, bits, cnt[bits], opt', t, elems, ws, ids, ls, ls', opt,
        Blocks(cnt, bits - 1));
      bits := bits - 1;
    }
    NoBlocks(cnt);
  }

  /** Change the length of one leaf and correct the bit length by the difference. */
  method Relength(tree: array<CtData>, node: nat, bits: nat, opt: int) returns (opt': int)
    requires node < tree.Length
    modifies tree
    ensures tree[..] == old(tree[..])[node := old(tree[node]).(dl := bits)]
    ensures opt' == opt + bits * old(tree[node]).fc - old(tree[node]).dl * old(tree[node]).fc
  {
    opt' := opt;
    if tree[node].dl != bits {
      opt' := opt' + bits * tree[node].fc;
      opt' := opt' - tree[node].dl * tree[node].fc;
      tree[node] := tree[node].(dl := bits);
    }
  }

  lemma RunStep(s: seq<nat>, i: nat, l: nat, n: nat, rest: seq<nat>)
    requires i < |s| && n > 0 && s[i..] == Repeat(l, n) + rest
    ensures s[i + 1..] == Repeat(l, n - 1) + rest
  {
    assert s[i + 1..] == s[i..][1..];
  }

  lemma NoBlocks(cnt: seq<nat>)
    requires 0 < |cnt|
    ensures Blocks(cnt, 0) == []
  {
  }

  lemma BlocksStep(cnt: seq<nat>, b: nat)
    requires 0 < b < |cnt|
    ensures Blocks(cnt, b) == Repeat(b, cnt[b]) + Blocks(cnt, b - 1)
  {
  }

  lemma ReassignStart(t: seq<CtData>, ws: seq<nat>, ids: seq<nat>, elems: nat, ls: seq<nat>, ls': seq<nat>, opt: int)
    requires Leaves(t, ws, ids, elems) && |ids| == |ls| == |ls'|
    requires forall j :: 0 <= j < |ids| ==> t[ids[j]].dl == ls[j]
    ensures Reassigned(t, t, ws, ids, elems, ls, ls', 0, opt, opt)
  {
    assert ls'[..0] + ls[0..] == ls;
  }

  // ---- the leaves that keep their depth ----

  /** The moves that the leaves of the lengths from b on can make, as far as they have fewer than m bits. */
  function SlackOf(ls: seq<nat>, m: nat, b: nat): (n: nat)
  {
    if |ls| == 0 then 0
    else
      var l := ls[|ls| - 1];
      SlackOf(ls[..|ls| - 1], m, b) + if b <= l < m then Pow2(m - l) - 1 else 0
  }

  lemma {:induction false} NoSlack(cnt: seq<nat>, m: nat, b: nat, j: nat)
    requires j <= m < |cnt| && forall i :: b <= i < j ==> cnt[i] == 0
    ensures Slack(cnt, m, b, j) == 0
    decreases j
  {
    if j > b {
      NoSlack(cnt, m, b, j - 1);
      assert 0 * (Pow2(m - (j - 1)) - 1) == 0;
    }
  }

  /** Counted by length and leaf by leaf it is the same. */
  lemma {:induction false} CountsSlack(cnt: seq<nat>, ls: seq<nat>, m: nat, b: nat)
    requires Counts(cnt, ls) && AtMost(ls, m) && m <= MAX_BITS
    ensures Slack(cnt, m, b, m) == SlackOf(ls, m, b)
    decreases |ls|
  {
    hide Pow2, Slack;
    if |ls| == 0 {
      NoSlack(cnt, m, b, m);
    } else {
      var n := |ls| - 1;
      var l := ls[n];
      CountLast(cnt, ls);
      CountsSlack(cnt[l := cnt[l] - 1], ls[..n], m, b);
      SlackUpdate(cnt, m, b, m, l, cnt[l] - 1);
      if b <= l < m { Distrib(cnt[l] - 1, 1, Pow2(m - l) - 1); }
    }
  }

  lemma CountLast(cnt: seq<nat>, ls: seq<nat>)
    requires Counts(cnt, ls) && |ls| > 0 && ls[|ls| - 1] <= MAX_BITS
    ensures var l := ls[|ls| - 1]; cnt[l] > 0 && Counts(cnt[l := cnt[l] - 1], ls[..|ls| - 1])
  {
    var l := ls[|ls| - 1];
    CountStep(ls, |ls| - 1, l);
    assert ls[..|ls|] == ls;
  }

  /** Two descending sequences with the same number of each element below b agree on those. */
  lemma {:induction false} SameLow(x: seq<nat>, y: seq<nat>, b: nat)
    requires |x| == |y| && Descending(x) && Descending(y) && forall l: nat :: l < b ==> Count(x, l) == Count(y, l)
    ensures forall i :: 0 <= i < |x| && x[i] < b ==> y[i] == x[i]
    decreases |x|
  {
    if |x| > 0 && x[|x| - 1] < b {
      var n := |x| - 1;
      CountPositive(x, x[n]);
      CountPositive(y, x[n]);
      CountPositive(x, y[n]);
      CountPositive(y, y[n]);
      assert x[n] == y[n];
      forall l: nat | l < b
        ensures Count(x[..n], l) == Count(y[..n], l)
      {
        CountStep(x, n, l);
        CountStep(y, n, l);
        assert x[..n + 1] == x && y[..n + 1] == y;
      }
      SameLow(x[..n], y[..n], b);
      assert forall i :: 0 <= i < n ==> x[..n][i] == x[i];
    }
  }

  predicate Descending(s: seq<nat>) { forall i, j :: 0 <= i < j < |s| ==> s[i] >= s[j] }

  /** The depths ds, none above m. */
  function ClippedAll(ds: seq<nat>, m: nat): (ls: seq<nat>)
    ensures |ls| == |ds| && AtMost(ls, m)
  {
    seq(|ds|, i requires 0 <= i < |ds| => Clip(ds[i], m))
  }

  /** No leaf gets another length as long as those below it suffice: if the leaves of the depths from b on can make room
      for all by which the depths, none above m, are over-subscribed, all leaves of a smaller depth keep it. */
  ghost predicate DeepestFirst(ds: seq<nat>, ls: seq<nat>, m: nat)
  {
    |ds| == |ls| &&
    forall b: nat, i: nat :: i < |ds| && ds[i] < b <= m && Suffice(ClippedAll(ds, m), m, b) ==> ls[i] == ds[i]
  }

  ghost predicate Suffice(ls: seq<nat>, m: nat, b: nat)
    requires AtMost(ls, m)
  {
    KraftSum(ls, m) <= Pow2(m) + SlackOf(ls, m, b)
  }

  /** The depths of the leaves. */
  function Depths(t: seq<CtData>, root: nat, ids: seq<nat>): (ds: seq<nat>)
    requires root < |t|
    ensures |ds| == |ids| && forall i :: 0 <= i < |ids| ==> ds[i] == Depth(t, root, ids[i])
  {
    seq(|ids|, i requires 0 <= i < |ids| => Depth(t, root, ids[i]))
  }

  lemma DepthsDescend(t: seq<CtData>, takes: seq<nat>, ids: seq<nat>, elems: nat, m: nat)
    requires Forest(t, takes, ids, elems) && 0 <= Root(ids, elems) < |t|
    ensures Descending(ClippedAll(Depths(t, Root(ids, elems), ids), m))
  {
    hide Depth, Interleave;
    var root := Root(ids, elems);
    forall i, j | 0 <= i < j < |ids|
      ensures Depth(t, root, ids[i]) >= Depth(t, root, ids[j])
    {
      LeafOrder(t, takes, ids, elems, i, j);
    }
  }

  /** The repaired counts, given out in descending order. */
  lemma RepairedDeepest(ds: seq<nat>, cnt: seq<nat>, cnt': seq<nat>, ls: seq<nat>, ls': seq<nat>, m: nat, n: nat)
    requires ls == ClippedAll(ds, m) && Descending(ls) && Descending(ls') && |ls'| == |ls| && m <= MAX_BITS
    requires Counts(cnt, ls) && Counts(cnt', ls') && Spared(cnt, cnt', m, n) && KraftSum(ls, m) == Pow2(m) + n
    ensures DeepestFirst(ds, ls', m)
  {
    hide Slack, SlackOf, KraftSum, Pow2, Count;
    forall b: nat, i: nat | i < |ds| && ds[i] < b <= m && Suffice(ClippedAll(ds, m), m, b)
      ensures ls'[i] == ds[i]
    {
      CountsSlack(cnt, ls, m, b);
      forall l: nat | l < b
        ensures Count(ls, l) == Count(ls', l)
      {
        assert cnt'[l] == cnt[l];
      }
      SameLow(ls, ls', b);
      assert ls[i] == ds[i];
    }
  }

  // ---- the whole routine ----

  lemma {:induction false} OverZero(t: seq<CtData>, root: nat, m: nat, s: seq<nat>)
    requires root < |t|
    ensures Total(s, Over(t, root, m)) >= 0
    ensures Total(s, Over(t, root, m)) == 0 <==> forall i :: 0 <= i < |s| ==> Depth(t, root, s[i]) <= m
  {
    hide Depth;
    if |s| > 0 {
      var n := |s| - 1;
      OverZero(t, root, m, s[..n]);
      assert forall i :: 0 <= i < n ==> s[..n][i] == s[i];
    }
  }

  /** No leaf is deeper than the limit. */
  ghost predicate Fits(t: seq<CtData>, root: nat, m: nat, ids: seq<nat>)
    requires root < |t|
  {
    forall i :: 0 <= i < |ids| ==> Depth(t, root, ids[i]) <= m
  }

  /** ls are lengths of a complete code of at most m bits, all in use. */
  ghost predicate FullCode(ls: seq<nat>, m: nat)
  {
    AtMost(ls, m) && (forall i :: 0 <= i < |ls| ==> 1 <= ls[i]) && KraftSum(ls, m) == Pow2(m)
  }

  /** The state of the counts after the leaf loop. */
  lemma AfterLeaves(t: seq<CtData>, takes: seq<nat>, ws: seq<nat>, ids: seq<nat>, elems: nat, m: nat, xs: seq<nat>,
                    ss: seq<nat>, ls: seq<nat>, cnt: seq<nat>, inner: nat, leafOver: int, opt: int, stat: int)
    requires Forest(t, takes, ids, elems) && 1 <= m <= MAX_BITS && |ids| <= Pow2(m) && Root(ids, elems) < |t|
    requires inner == Total(Range(elems, |ids| - 2), Over(t, Root(ids, elems), m))
    requires LeafSums(t, Root(ids, elems), m, ws, ids, xs, ss, |ids|, ls, cnt, leafOver, opt, stat)
    ensures leafOver >= 0 && Repairing(cnt, m, inner + leafOver, |ids|)
    ensures AtMost(ls, m) && forall i :: 0 <= i < |ls| ==> 1 <= ls[i]
    ensures KraftSum(ls, m) == CountKraft(cnt, m, m) == Pow2(m) + (inner + leafOver) / 2
    ensures ls == ClippedAll(Depths(t, Root(ids, elems), ids), m)
    ensures inner + leafOver == 0 <==> Fits(t, Root(ids, elems), m, ids)
    ensures inner + leafOver == 0 ==> forall i :: 0 <= i < |ids| ==> ls[i] == Depth(t, Root(ids, elems), ids[i])
  {
    hide Depth, Forest, Total, Pow2, KraftSum, CountKraft, CountSum, Interleave, Count, Repairing, Share, Over, BitCost;
    var root := Root(ids, elems);
    assert ids[..|ids|] == ids;
    Excess(t, takes, ids, elems, m);
    ClippedLeaves(t, takes, ids, elems, m);
    SharesAreKraft(t, root, m, ids, ls);
    ClippedCount(t, root, m, ids, ls);
    OverZero(t, root, m, ids);
    forall i | 0 <= i < |ids|
      ensures 1 <= ls[i] <= m
    {
      HasFather(t, takes, ids, elems, ids[i]);
    }
    CountsKraft(cnt, ls, m);
    BeyondLimit(cnt, ls, m);
    RepairingNow(cnt, m, inner, leafOver, |ids|, KraftSum(ls, m));
  }

  lemma RepairingNow(cnt: seq<nat>, m: nat, inner: nat, leafOver: nat, n: nat, k: nat)
    requires 1 <= m <= MAX_BITS && |cnt| == MAX_BITS + 1 && cnt[0] == 0 && forall l :: m < l <= MAX_BITS ==> cnt[l] == 0
    requires CountKraft(cnt, m, m) == k && 2 * (k - Pow2(m)) == leafOver + inner && inner <= leafOver <= cnt[m]
    requires CountSum(cnt, m) == n <= Pow2(m)
    ensures Repairing(cnt, m, inner + leafOver, n)
  {
    hide Pow2, CountKraft, CountSum;
  }

  lemma BeyondLimit(cnt: seq<nat>, ls: seq<nat>, m: nat)
    requires Counts(cnt, ls) && m <= MAX_BITS && forall i :: 0 <= i < |ls| ==> 1 <= ls[i] <= m
    ensures cnt[0] == 0 && forall l :: m < l <= MAX_BITS ==> cnt[l] == 0
  {
    hide Count;
    CountPositive(ls, 0);
    forall l | m < l <= MAX_BITS
      ensures cnt[l] == 0
    {
      CountPositive(ls, l);
    }
  }

  lemma RepairedCode(cnt: seq<nat>, m: nat, n: nat, ls: seq<nat>)
    requires Repairing(cnt, m, 0, n) && ls == Blocks(cnt, m)
    ensures |ls| == n && FullCode(ls, m) && Counts(cnt, ls)
    ensures forall i, j :: 0 <= i < j < |ls| ==> ls[i] >= ls[j]
  {
    hide Blocks, Pow2, CountSum, CountKraft, KraftSum, Count;
    BlocksShape(cnt, m);
    forall l | 0 <= l <= MAX_BITS
      ensures cnt[l] == Count(ls, l)
    {
      BlocksCount(cnt, m, l);
    }
    CountsKraft(cnt, ls, m);
  }

  /** What gen_bitlen leaves behind. */
  ghost predicate HasLengths(t: seq<CtData>, t': seq<CtData>, ids: seq<nat>, elems: nat, ls: seq<nat>)
  {
    |t'| == |t| && |ls| == |ids| && elems <= |t| &&
    (forall x :: 0 <= x < elems ==> t'[x].fc == t[x].fc && (x !in ids ==> t'[x] == t[x])) &&
    (forall j :: 0 <= j < |ids| ==> ids[j] < elems && t'[ids[j]].dl == ls[j])
  }

  lemma LengthsAfterLeaves(t: seq<CtData>, t1: seq<CtData>, t2: seq<CtData>, ids: seq<nat>, elems: nat, root: nat,
                           m: nat, ls: seq<nat>)
    requires root < |t| && elems <= root && Descended(t, t1, root, m, elems) &&
      LeavesDone(t1, t2, ids, elems, root, ls, |ids|)
    ensures HasLengths(t, t2, ids, elems, ls)
  {
    hide Depth;
    assert ids[..|ids|] == ids;
  }

  lemma LengthsAfterRepair(t: seq<CtData>, t2: seq<CtData>, t3: seq<CtData>, ws: seq<nat>, ids: seq<nat>, elems: nat,
                           ls: seq<nat>, ls': seq<nat>, opt: int, opt': int)
    requires HasLengths(t, t2, ids, elems, ls) && Reassigned(t2, t3, ws, ids, elems, ls, ls', |ids|, opt, opt')
    ensures HasLengths(t, t3, ids, elems, ls') && opt' - opt == Cost(ws, ls') - Cost(ws, ls)
  {
    assert ls'[..|ids|] + ls[|ids|..] == ls';
  }

  lemma LeavesKept(t: seq<CtData>, t2: seq<CtData>, ws: seq<nat>, ids: seq<nat>, elems: nat, ls: seq<nat>)
    requires Leaves(t, ws, ids, elems) && HasLengths(t, t2, ids, elems, ls)
    ensures Leaves(t2, ws, ids, elems)
  {
  }

  lemma SumsDone(t: seq<CtData>, root: nat, m: nat, ws: seq<nat>, ids: seq<nat>, xs: seq<nat>, ss: seq<nat>,
                 ls: seq<nat>, cnt: seq<nat>, over: int, opt: int, stat: int)
    requires root < |t| && LeafSums(t, root, m, ws, ids, xs, ss, |ids|, ls, cnt, over, opt, stat)
    ensures |ws| == |ids| == |ls| == |xs| == |ss| && Counts(cnt, ls)
    ensures opt == BitCost(ws, ls, xs) && stat == BitCost(ws, ss, xs)
  {
    assert ws[..|ids|] == ws && xs[..|ids|] == xs && ss[..|ids|] == ss;
  }

  /** Compute the optimal bit lengths for a tree, limit them to m bits, and return the counts of each length and the
      total bit lengths of the block with these and with the static codes. */
  method GenBitLen(tree: array<CtData>, elems: nat, root: nat, m: nat, sorted: array<nat>, nleaves: nat,
                   extra: nat -> nat, slen: nat -> nat, ghost takes: seq<nat>, ghost ws: seq<nat>, ghost ids: seq<nat>)
    returns (cnt: seq<nat>, opt: int, stat: int, ghost ls: seq<nat>)
    requires Forest(tree[..], takes, ids, elems) && root == Root(ids, elems) && Leaves(tree[..], ws, ids, elems)
    requires 1 <= m <= MAX_BITS && nleaves == |ids| <= Pow2(m) && nleaves <= sorted.Length
    requires forall i :: 0 <= i < nleaves ==> PqNode(sorted[i]) == ids[i]
    requires root < tree.Length
    modifies tree
    ensures HasLengths(old(tree[..]), tree[..], ids, elems, ls) && FullCode(ls, m) && Counts(cnt, ls)
    ensures |ws| == |ls| && opt == BitCost(ws, ls, Map(ids, extra)) &&
      stat == BitCost(ws, Map(ids, slen), Map(ids, extra))
    ensures Fits(old(tree[..]), root, m, ids) ==>
      forall i :: 0 <= i < nleaves ==> ls[i] == Depth(old(tree[..]), root, ids[i])
    ensures !Fits(old(tree[..]), root, m, ids) ==> forall i, j :: 0 <= i < j < nleaves ==> ls[i] >= ls[j]
    ensures DeepestFirst(Depths(old(tree[..]), root, ids), ls, m)
  {
    hide Depth, Forest, Total, Clip, LeafSums, Leaves, LeavesDone, PqNode, Descended, Repairing, HasLengths, Fits,
      Counts, Blocks, Reassigned, Pow2, KraftSum, Cost, CountKraft, CountSum, DeepestFirst, Depths, ClippedAll, Spared,
      Descending;
    ghost var t := tree[..];
    ForestSize(t, takes, ids, elems);
    ghost var xs, ss := Map(ids, extra), Map(ids, slen);
    var inner := InternalLengths(tree, elems, root, m, takes, ids);
    ghost var t1 := tree[..];
    var over;
    over, cnt, opt, stat, ls := LeafLengths(tree, elems, root, m, sorted, nleaves, extra, slen, t, takes, ws, ids);
    LengthsAfterLeaves(t, t1, tree[..], ids, elems, root, m, ls);
    AfterLeaves(t, takes, ws, ids, elems, m, xs, ss, ls, cnt, inner, over, opt, stat);
    SumsDone(t, root, m, ws, ids, xs, ss, ls, cnt, over, opt, stat);
    var overflow := inner + over;
    ghost var ds := Depths(t, root, ids);
    if overflow == 0 {
      ExactKraft(cnt, m, nleaves);
      KeptAllDepths(ds, ls, m) by { DepthsAt(t, root, ids); }
      return;
    }
    ghost var cnt0 := cnt;
    cnt := Repair(cnt, m, overflow, nleaves);
    ghost var t2, ls1, opt1 := tree[..], ls, opt;
    LeavesKept(t, t2, ws, ids, elems, ls1);
    SizeAndSum(cnt, m, nleaves);
    LengthsAt(t, t2, ids, elems, ls1);
    opt, ls := Reassign(tree, elems, sorted, nleaves, cnt, m, opt, t2, ws, ids, ls1);
    RepairedCode(cnt, m, nleaves, ls);
    LengthsAfterRepair(t, t2, tree[..], ws, ids, elems, ls1, ls, opt1, opt);
    DepthsDescend(t, takes, ids, elems, m);
    InDescent(ls);
    RepairedDeepest(ds, cnt0, cnt, ls1, ls, m, overflow / 2);
  }

  lemma InDescent(s: seq<nat>)
    requires forall i, j :: 0 <= i < j < |s| ==> s[i] >= s[j]
    ensures Descending(s)
  {
  }

  lemma DepthsAt(t: seq<CtData>, root: nat, ids: seq<nat>)
    requires root < |t|
    ensures |Depths(t, root, ids)| == |ids|
    ensures forall i :: 0 <= i < |ids| ==> Depths(t, root, ids)[i] == Depth(t, root, ids[i])
  {
    hide Depth;
  }

  lemma KeptAllDepths(ds: seq<nat>, ls: seq<nat>, m: nat)
    requires ls == ds
    ensures DeepestFirst(ds, ls, m)
  {
    hide Suffice;
  }

  lemma ExactKraft(cnt: seq<nat>, m: nat, n: nat)
    requires Repairing(cnt, m, 0, n)
    ensures m < |cnt| && CountKraft(cnt, m, m) == Pow2(m)
  {
  }

  lemma SizeAndSum(cnt: seq<nat>, m: nat, n: nat)
    requires Repairing(cnt, m, 0, n)
    ensures m < |cnt| && CountSum(cnt, m) == n
  {
  }

  lemma LengthsAt(t: seq<CtData>, t2: seq<CtData>, ids: seq<nat>, elems: nat, ls: seq<nat>)
    requires HasLengths(t, t2, ids, elems, ls)
    ensures |ls| == |ids| && forall j :: 0 <= j < |ids| ==> ids[j] < |t2| && t2[ids[j]].dl == ls[j]
  {
  }
}
