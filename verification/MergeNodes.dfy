/** trees.c build_tree: the loop that constructs the Huffman tree by combining the least two frequent nodes. */
module MergeNodes {
  import opened GenCodes
  import opened Huffman
  import opened TwoQueue
  import opened TreeShape

  const PQ_NODES: nat := 1024

  /** Queue entries pack the frequency above the node index. */
  function Pack(freq: nat, node: nat): (e: nat) { freq * PQ_NODES + node }
  function PqNode(e: nat): (n: nat) { e % PQ_NODES }
  function PqFreq(e: nat): (f: nat) { e / PQ_NODES }

  lemma Unpack(f: nat, n: nat)
    requires n < PQ_NODES
    ensures PqNode(Pack(f, n)) == n && PqFreq(Pack(f, n)) == f
  {
  }

  /** Which queue head was taken: a leaf or an internal node, with node index x and weight w. A leaf goes first if both
      have the same weight. */
  ghost predicate Took(ws: seq<nat>, ids: seq<nat>, fb: seq<nat>, elems: nat, li: nat, ihead: nat, li': nat,
                       ihead': nat, x: nat, w: nat)
  {
    |ids| == |ws| && li <= |ws| && ihead <= |fb| &&
    if li' == li + 1 then
      ihead' == ihead && li < |ws| && x == ids[li] && w == ws[li] && (ihead == |fb| || ws[li] <= fb[ihead])
    else
      li' == li && ihead' == ihead + 1 && ihead < |fb| && x == elems + ihead && w == fb[ihead] &&
      (li == |ws| || fb[ihead] < ws[li])
  }

  /** What the two queues hold. */
  ghost predicate Queues(leaves: seq<nat>, internals: seq<nat>, ws: seq<nat>, ids: seq<nat>, fb: seq<nat>, elems: nat)
  {
    |leaves| == |ws| == |ids| && |fb| <= |internals| && elems + |fb| <= PQ_NODES &&
    (forall j :: 0 <= j < |ws| ==> leaves[j] == Pack(ws[j], ids[j]) && ids[j] < elems) &&
    (forall j :: 0 <= j < |fb| ==> internals[j] == Pack(fb[j], elems + j))
  }

  /** pq_take: take the smaller of the two queue heads. */
  method PqTake(leaves: array<nat>, li: nat, nleaves: nat, internals: array<nat>, ihead: nat, itail: nat,
                ghost ws: seq<nat>, ghost ids: seq<nat>, ghost fb: seq<nat>, ghost elems: nat)
    returns (e: nat, li': nat, ihead': nat)
    requires li <= nleaves == |ws| <= leaves.Length && ihead <= itail == |fb| && (li < nleaves || ihead < itail)
    requires Queues(leaves[..nleaves], internals[..], ws, ids, fb, elems)
    ensures li' + ihead' == li + ihead + 1
    ensures Took(ws, ids, fb, elems, li, ihead, li', ihead', PqNode(e), PqFreq(e))
  {
    if li < nleaves && (ihead == itail || leaves[li] < internals[ihead]) {
      e, li', ihead' := leaves[li], li + 1, ihead;
      Unpack(ws[li], ids[li]);
    } else {
      e, li', ihead' := internals[ihead], li, ihead + 1;
      Unpack(fb[ihead], elems + ihead);
    }
  }

  lemma TookWeight(ws: seq<nat>, ids: seq<nat>, fb: seq<nat>, elems: nat, li: nat, ihead: nat, li': nat, ihead': nat,
                   x: nat, w: nat, live: seq<nat>)
    requires Took(ws, ids, fb, elems, li, ihead, li', ihead', x, w) && Live(ws, fb, li, ihead, live)
    ensures |live| > 0 && live[0] == w && Live(ws, fb, li', ihead', live[1..])
  {
    hide Live;
    if li' == li + 1 { TakeLeaf(ws, fb, li, ihead, live); } else { TakeInternal(ws, fb, li, ihead, live); }
  }

  lemma TookOrder(ws: seq<nat>, ids: seq<nat>, fb: seq<nat>, elems: nat, li: nat, ihead: nat, li': nat, ihead': nat,
                  x: nat, w: nat, takes: seq<nat>)
    requires Took(ws, ids, fb, elems, li, ihead, li', ihead', x, w)
    requires Interleave(takes, ids[..li], Range(elems, ihead))
    ensures li' <= |ids| && Interleave(takes + [x], ids[..li'], Range(elems, ihead'))
  {
    assert (takes + [x])[..|takes|] == takes;
    if li' == li + 1 {
      assert ids[..li'][..li] == ids[..li];
    } else {
      assert Range(elems, ihead')[..ihead] == Range(elems, ihead);
    }
  }

  /** The sorted leaves as tree elements. */
  ghost predicate Leaves(t: seq<CtData>, ws: seq<nat>, ids: seq<nat>, elems: nat)
  {
    |ws| == |ids| && elems <= |t| &&
    (forall j :: 0 <= j < |ids| ==> ids[j] < elems && t[ids[j]].fc == ws[j]) &&
    (forall i, j :: 0 <= i < j < |ids| ==> ids[i] != ids[j])
  }

  /** A node that has been taken is a leaf before li or an internal node before ihead. */
  ghost predicate Before(x: nat, ids: seq<nat>, elems: nat, li: nat, ihead: nat)
    requires li <= |ids|
  {
    (exists j :: 0 <= j < li && ids[j] == x) || elems <= x < elems + ihead
  }

  /** The links made so far. */
  ghost predicate Linked(t: seq<CtData>, ids: seq<nat>, fb: seq<nat>, elems: nat, li: nat, ihead: nat, takes: seq<nat>)
  {
    li <= |ids| && ihead <= |fb| && (|fb| > 0 ==> ihead < |fb|) &&
    |takes| == li + ihead == 2 * |fb| && elems + |fb| <= |t| &&
    Interleave(takes, ids[..li], Range(elems, ihead)) &&
    (forall j :: 0 <= j < |fb| ==> t[elems + j].fc == fb[j]) &&
    (forall k :: 0 <= k < |takes| ==>
      Before(takes[k], ids, elems, li, ihead) && takes[k] < elems + k / 2 && t[takes[k]].dl == elems + k / 2) &&
    (forall k :: 0 <= k < |fb| ==> t[takes[2 * k]].fc + t[takes[2 * k + 1]].fc == fb[k])
  }

  /** Node x of weight w is next: it is live, not taken before. */
  lemma TookNew(t: seq<CtData>, ws: seq<nat>, ids: seq<nat>, fb: seq<nat>, elems: nat, li: nat, ihead: nat, li': nat,
                ihead': nat, x: nat, w: nat)
    requires Took(ws, ids, fb, elems, li, ihead, li', ihead', x, w) && Leaves(t, ws, ids, elems)
    requires elems + |fb| <= |t| && forall j :: 0 <= j < |fb| ==> t[elems + j].fc == fb[j]
    ensures li' <= |ids| && ihead' <= |fb| && !Before(x, ids, elems, li, ihead) && Before(x, ids, elems, li', ihead')
    ensures x < elems + |fb| && t[x].fc == w
    ensures forall y :: Before(y, ids, elems, li, ihead) ==> Before(y, ids, elems, li', ihead')
  {
  }

  /** One merge: node x and node y get the new father elems + |fb|. */
  function Link(t: seq<CtData>, node: nat, f: nat, x: nat, y: nat): (t': seq<CtData>)
    requires node < |t| && x < node && y < node
  {
    var t1 := t[node := t[node].(fc := f)];
    var t2 := t1[x := t1[x].(dl := node)];
    t2[y := t2[y].(dl := node)]
  }

  lemma LinkKeeps(t: seq<CtData>, ws: seq<nat>, ids: seq<nat>, fb: seq<nat>, elems: nat, li: nat, ihead: nat,
                  takes: seq<nat>, li1: nat, ihead1: nat, x: nat, wx: nat, li2: nat, ihead2: nat, y: nat, wy: nat)
    requires Linked(t, ids, fb, elems, li, ihead, takes) && Leaves(t, ws, ids, elems) && elems + |fb| < |t|
    requires Took(ws, ids, fb, elems, li, ihead, li1, ihead1, x, wx)
    requires Took(ws, ids, fb, elems, li1, ihead1, li2, ihead2, y, wy)
    ensures x < elems + |fb| && y < elems + |fb| && x != y
    ensures var t' := Link(t, elems + |fb|, wx + wy, x, y);
      Leaves(t', ws, ids, elems) && Linked(t', ids, fb + [wx + wy], elems, li2, ihead2, takes + [x, y])
  {
    hide Interleave;
    TookNew(t, ws, ids, fb, elems, li, ihead, li1, ihead1, x, wx);
    TookNew(t, ws, ids, fb, elems, li1, ihead1, li2, ihead2, y, wy);
    TookOrder(ws, ids, fb, elems, li, ihead, li1, ihead1, x, wx, takes);
    TookOrder(ws, ids, fb, elems, li1, ihead1, li2, ihead2, y, wy, takes + [x]);
    assert takes + [x] + [y] == takes + [x, y];
    hide Took;
    LinkedAfter(t, ws, ids, fb, elems, li, ihead, takes, x, wx, y, wy, li2, ihead2);
  }

  lemma LinkedAfter(t: seq<CtData>, ws: seq<nat>, ids: seq<nat>, fb: seq<nat>, elems: nat, li: nat, ihead: nat,
                    takes: seq<nat>, x: nat, wx: nat, y: nat, wy: nat, li2: nat, ihead2: nat)
    requires Linked(t, ids, fb, elems, li, ihead, takes) && Leaves(t, ws, ids, elems) && elems + |fb| < |t|
    requires x < elems + |fb| && y < elems + |fb| && x != y && t[x].fc == wx && t[y].fc == wy
    requires !Before(x, ids, elems, li, ihead) && !Before(y, ids, elems, li, ihead)
    requires li2 <= |ids| && ihead2 <= |fb| && li2 + ihead2 == li + ihead + 2
    requires Before(x, ids, elems, li2, ihead2) && Before(y, ids, elems, li2, ihead2)
    requires forall z :: Before(z, ids, elems, li, ihead) ==> Before(z, ids, elems, li2, ihead2)
    requires Interleave(takes + [x, y], ids[..li2], Range(elems, ihead2))
    ensures var t' := Link(t, elems + |fb|, wx + wy, x, y);
      Leaves(t', ws, ids, elems) && Linked(t', ids, fb + [wx + wy], elems, li2, ihead2, takes + [x, y])
  {
    hide Interleave, Before, Leaves;
    var node := elems + |fb|;
    var t' := Link(t, node, wx + wy, x, y);
    LeavesAfter(t, ws, ids, elems, node, wx + wy, x, y);
    SonsAfter(t, t', ids, elems, li, ihead, takes, node, x, y, li2, ihead2);
    AddsAfter(t, t', fb, takes, node, x, y);
    WeightsAfter(t, fb, elems, wx + wy, x, y);
    hide Link;
  }

  lemma WeightsAfter(t: seq<CtData>, fb: seq<nat>, elems: nat, w: nat, x: nat, y: nat)
    requires elems + |fb| < |t| && x < elems + |fb| && y < elems + |fb| && forall j :: 0 <= j < |fb| ==>
      t[elems + j].fc == fb[j]
    ensures |Link(t, elems + |fb|, w, x, y)| == |t|
    ensures forall j :: 0 <= j < |fb + [w]| ==> Link(t, elems + |fb|, w, x, y)[elems + j].fc == (fb + [w])[j]
  {
  }

  lemma LeavesAfter(t: seq<CtData>, ws: seq<nat>, ids: seq<nat>, elems: nat, node: nat, f: nat, x: nat, y: nat)
    requires Leaves(t, ws, ids, elems) && elems <= node < |t| && x < node && y < node
    ensures Leaves(Link(t, node, f, x, y), ws, ids, elems)
  {
  }

  lemma SonsAfter(t: seq<CtData>, t': seq<CtData>, ids: seq<nat>, elems: nat, li: nat, ihead: nat, takes: seq<nat>,
                  node: nat, x: nat, y: nat, li2: nat, ihead2: nat)
    requires li <= |ids| && li2 <= |ids| && |takes| == 2 * (node - elems) && elems <= node < |t| && x < node && y < node
    requires t' == Link(t, node, t[x].fc + t[y].fc, x, y)
    requires forall k :: 0 <= k < |takes| ==>
      Before(takes[k], ids, elems, li, ihead) && takes[k] < elems + k / 2 && t[takes[k]].dl == elems + k / 2
    requires !Before(x, ids, elems, li, ihead) && !Before(y, ids, elems, li, ihead)
    requires Before(x, ids, elems, li2, ihead2) && Before(y, ids, elems, li2, ihead2)
    requires forall z :: Before(z, ids, elems, li, ihead) ==> Before(z, ids, elems, li2, ihead2)
    ensures var takes' := takes + [x, y];
      forall k :: 0 <= k < |takes'| ==>
        Before(takes'[k], ids, elems, li2, ihead2) && takes'[k] < elems + k / 2 && t'[takes'[k]].dl == elems + k / 2
  {
    hide Before;
    var takes' := takes + [x, y];
    forall k | 0 <= k < |takes'|
      ensures Before(takes'[k], ids, elems, li2, ihead2) && takes'[k] < elems + k / 2 &&
        t'[takes'[k]].dl == elems + k / 2
    {
      if k < |takes| {
        assert takes'[k] == takes[k] && Before(takes[k], ids, elems, li, ihead);
        assert takes[k] != x && takes[k] != y && takes[k] != node;
      }
    }
  }

  lemma AddsAfter(t: seq<CtData>, t': seq<CtData>, fb: seq<nat>, takes: seq<nat>, node: nat, x: nat, y: nat)
    requires |takes| == 2 * |fb| && x < node && y < node < |t| == |t'|
    requires forall k :: 0 <= k < |takes| ==> takes[k] < node
    requires forall z :: 0 <= z < node ==> t'[z].fc == t[z].fc
    requires forall k :: 0 <= k < |fb| ==> t[takes[2 * k]].fc + t[takes[2 * k + 1]].fc == fb[k]
    ensures var takes', fb' := takes + [x, y], fb + [t[x].fc + t[y].fc];
      forall k :: 0 <= k < |fb'| ==> t'[takes'[2 * k]].fc + t'[takes'[2 * k + 1]].fc == fb'[k]
  {
    var takes', fb' := takes + [x, y], fb + [t[x].fc + t[y].fc];
    forall k | 0 <= k < |fb'|
      ensures t'[takes'[2 * k]].fc + t'[takes'[2 * k + 1]].fc == fb'[k]
    {
      if k < |fb| {
        assert takes'[2 * k] == takes[2 * k] && takes'[2 * k + 1] == takes[2 * k + 1];
      }
    }
  }

  /** The weights, the links and the queues after |fb| merges. */
  ghost predicate Merging(t: seq<CtData>, leaves: seq<nat>, internals: seq<nat>, ws: seq<nat>, ids: seq<nat>,
                          fb: seq<nat>, elems: nat, li: nat, ihead: nat, takes: seq<nat>, live: seq<nat>)
  {
    Queues(leaves, internals, ws, ids, fb, elems) && Leaves(t, ws, ids, elems) &&
    Linked(t, ids, fb, elems, li, ihead, takes) && Optimal(ws, fb, li, ihead, live) && |live| + |fb| == |ws|
  }

  lemma TwoLeft(ws: seq<nat>, fb: seq<nat>, li: nat, ihead: nat, live: seq<nat>)
    requires Live(ws, fb, li, ihead, live) && |live| >= 1
    ensures li < |ws| || ihead < |fb|
  {
    LiveSize(ws, fb, li, ihead, live);
  }

  /** The effect of one merge on everything the loop maintains. */
  lemma MergeStep(t: seq<CtData>, leaves: seq<nat>, internals: seq<nat>, ws: seq<nat>, ids: seq<nat>, fb: seq<nat>,
                  elems: nat, li: nat, ihead: nat, takes: seq<nat>, live: seq<nat>, li1: nat, ihead1: nat, x: nat,
                  wx: nat, li2: nat, ihead2: nat, y: nat, wy: nat)
    requires Merging(t, leaves, internals, ws, ids, fb, elems, li, ihead, takes, live) && |live| >= 2
    requires elems + |fb| < |t| && elems + |fb| < PQ_NODES && |fb| < |internals|
    requires Took(ws, ids, fb, elems, li, ihead, li1, ihead1, x, wx)
    requires Took(ws, ids, fb, elems, li1, ihead1, li2, ihead2, y, wy)
    ensures x < elems + |fb| && y < elems + |fb| && x != y && wx + wy <= Sum(ws)
    ensures Merging(Link(t, elems + |fb|, wx + wy, x, y), leaves, internals[|fb| := Pack(wx + wy, elems + |fb|)],
                    ws, ids, fb + [wx + wy], elems, li2, ihead2, takes + [x, y], Insert(wx + wy, live[2..]))
  {
    hide Linked, Leaves, Link, Optimal, Took, Live;
    LinkKeeps(t, ws, ids, fb, elems, li, ihead, takes, li1, ihead1, x, wx, li2, ihead2, y, wy);
    OptimalLive(ws, fb, li, ihead, live);
    TookWeight(ws, ids, fb, elems, li, ihead, li1, ihead1, x, wx, live);
    TookWeight(ws, ids, fb, elems, li1, ihead1, li2, ihead2, y, wy, live[1..]);
    assert live[1..][1..] == live[2..];
    MergeTwo(ws, fb, li, ihead, li2, ihead2, live);
  }

  lemma OptimalLive(ws: seq<nat>, fb: seq<nat>, li: nat, ihead: nat, live: seq<nat>)
    requires Optimal(ws, fb, li, ihead, live)
    ensures Live(ws, fb, li, ihead, live)
  {
  }

  lemma MergingParts(t: seq<CtData>, leaves: seq<nat>, internals: seq<nat>, ws: seq<nat>, ids: seq<nat>, fb: seq<nat>,
                     elems: nat, li: nat, ihead: nat, takes: seq<nat>, live: seq<nat>)
    requires Merging(t, leaves, internals, ws, ids, fb, elems, li, ihead, takes, live)
    ensures Queues(leaves, internals, ws, ids, fb, elems) && Live(ws, fb, li, ihead, live) && |live| + |fb| == |ws|
    ensures li <= |ws| && ihead <= |fb|
  {
  }

  lemma MergingDone(t: seq<CtData>, leaves: seq<nat>, internals: seq<nat>, ws: seq<nat>, ids: seq<nat>, fb: seq<nat>,
                    elems: nat, li: nat, ihead: nat, takes: seq<nat>, live: seq<nat>)
    requires Merging(t, leaves, internals, ws, ids, fb, elems, li, ihead, takes, live) && |live| == 1 && |ws| >= 2
    ensures Forest(t, takes, ids, elems) && Adds(t, takes, ids, elems) && Leaves(t, ws, ids, elems)
    ensures |fb| == |ids| - 1 && Sum(fb) == HuffCost(ws)
    ensures forall k :: 0 <= k < |fb| ==> t[elems + k].fc == fb[k]
  {
    hide Interleave, HuffCost, Sum, Live, Linked, Adds, Forest;
    LiveSize(ws, fb, li, ihead, live);
    DoneOptimal(ws, fb, li, ihead, live);
    LinkedForest(t, ids, fb, elems, li, ihead, takes);
  }

  lemma LinkedForest(t: seq<CtData>, ids: seq<nat>, fb: seq<nat>, elems: nat, li: nat, ihead: nat, takes: seq<nat>)
    requires Linked(t, ids, fb, elems, li, ihead, takes) && |ids| == |fb| + 1 >= 2
    requires (|ids| - li) + (|fb| - ihead) == 1
    ensures Forest(t, takes, ids, elems) && Adds(t, takes, ids, elems)
    ensures forall k :: 0 <= k < |fb| ==> t[elems + k].fc == fb[k]
  {
    hide Interleave, Before;
    assert ids[..li] == ids;
  }

  lemma MergingStart(t: seq<CtData>, leaves: seq<nat>, internals: seq<nat>, ws: seq<nat>, ids: seq<nat>, elems: nat)
    requires Leaves(t, ws, ids, elems) && Queues(leaves, internals, ws, ids, [], elems) && Sorted(ws)
    ensures Merging(t, leaves, internals, ws, ids, [], elems, 0, 0, [], ws)
  {
    StartOptimal(ws);
    assert Interleave([], ids[..0], Range(elems, 0));
  }

  /** Unused elements keep their fields and no symbol loses its frequency. */
  ghost predicate SymbolsKept(t: seq<CtData>, t': seq<CtData>, ids: seq<nat>, elems: nat)
  {
    |t'| == |t| && elems <= |t| &&
    forall x :: 0 <= x < elems ==> t'[x].fc == t[x].fc && (x !in ids ==> t'[x] == t[x])
  }

  lemma KeptStep(t: seq<CtData>, t': seq<CtData>, ws: seq<nat>, ids: seq<nat>, fb: seq<nat>, elems: nat, li: nat,
                 ihead: nat, li1: nat, ihead1: nat, x: nat, wx: nat, li2: nat, ihead2: nat, y: nat, wy: nat)
    requires SymbolsKept(t, t', ids, elems) && elems + |fb| < |t| && x < elems + |fb| && y < elems + |fb|
    requires Took(ws, ids, fb, elems, li, ihead, li1, ihead1, x, wx)
    requires Took(ws, ids, fb, elems, li1, ihead1, li2, ihead2, y, wy)
    ensures SymbolsKept(t, Link(t', elems + |fb|, wx + wy, x, y), ids, elems)
  {
  }

  /** Construct the Huffman tree. Freq is a uint16_t, which the sum of the frequencies must fit. */
  method MergeAll(tree: array<CtData>, elems: nat, sorted: array<nat>, nleaves: nat, internals: array<nat>,
                  ghost ws: seq<nat>, ghost ids: seq<nat>)
    returns (node: nat, ghost takes: seq<nat>, ghost fb: seq<nat>)
    requires 2 <= nleaves == |ws| <= sorted.Length && nleaves <= internals.Length && sorted != internals
    requires elems + nleaves <= tree.Length && elems + nleaves <= PQ_NODES
    requires Leaves(tree[..], ws, ids, elems) && Sorted(ws) && Sum(ws) < 0x1_0000
    requires Queues(sorted[..nleaves], internals[..], ws, ids, [], elems)
    modifies tree, internals
    ensures node == elems + nleaves - 1 && |fb| == nleaves - 1
    ensures Forest(tree[..], takes, ids, elems) && Adds(tree[..], takes, ids, elems)
    ensures Leaves(tree[..], ws, ids, elems) && SymbolsKept(old(tree[..]), tree[..], ids, elems)
    ensures Sum(fb) == HuffCost(ws) && forall k :: 0 <= k < nleaves - 1 ==> tree[elems + k].fc == fb[k]
  {
    hide Linked, Leaves, Link, Optimal, Took, Live, Merging, Queues, Sum, HuffCost, Interleave, Sorted, SymbolsKept,
      Adds, Insert;
    var li, ihead, itail := 0, 0, 0;
    node := elems;
    takes, fb := [], [];
    ghost var live := ws;
    ghost var t0 := tree[..];
    MergingStart(tree[..], sorted[..nleaves], internals[..], ws, ids, elems);
    KeptStart(t0, ws, ids, elems);
    var merges := nleaves - 1;
    while merges > 0
      invariant merges == nleaves - 1 - itail && node == elems + itail && itail == |fb|
      invariant Merging(tree[..], sorted[..nleaves], internals[..], ws, ids, fb, elems, li, ihead, takes, live)
      invariant SymbolsKept(t0, tree[..], ids, elems) && |live| + |fb| == |ws|
      invariant sorted[..nleaves] == old(sorted[..nleaves])
    {
      MergingParts(tree[..], sorted[..nleaves], internals[..], ws, ids, fb, elems, li, ihead, takes, live);
      TwoLeft(ws, fb, li, ihead, live);
      var en, li1, ihead1 := PqTake(sorted, li, nleaves, internals, ihead, itail, ws, ids, fb, elems);
      TookWeight(ws, ids, fb, elems, li, ihead, li1, ihead1, PqNode(en), PqFreq(en), live);
      TwoLeft(ws, fb, li1, ihead1, live[1..]);
      TookBounds(ws, ids, fb, elems, li, ihead, li1, ihead1, PqNode(en), PqFreq(en));
      var em, li2, ihead2 := PqTake(sorted, li1, nleaves, internals, ihead1, itail, ws, ids, fb, elems);
      var n, m := PqNode(en), PqNode(em);
      MergeStep(tree[..], sorted[..nleaves], internals[..], ws, ids, fb, elems, li, ihead, takes, live,
                li1, ihead1, n, PqFreq(en), li2, ihead2, m, PqFreq(em));
      KeptStep(t0, tree[..], ws, ids, fb, elems, li, ihead, li1, ihead1, n, PqFreq(en), li2, ihead2, m, PqFreq(em));
      var f := (PqFreq(en) + PqFreq(em)) % 0x1_0000;
      SetFather(tree, node, f, n, m);
      internals[itail] := Pack(f, node);
      takes, fb, live := takes + [n, m], fb + [f], Insert(f, live[2..]);
      li, ihead, itail, node, merges := li2, ihead2, itail + 1, node + 1, merges - 1;
    }
    MergingDone(tree[..], sorted[..nleaves], internals[..], ws, ids, fb, elems, li, ihead, takes, live);
  }

  lemma TookBounds(ws: seq<nat>, ids: seq<nat>, fb: seq<nat>, elems: nat, li: nat, ihead: nat, li': nat, ihead': nat,
                   x: nat, w: nat)
    requires Took(ws, ids, fb, elems, li, ihead, li', ihead', x, w)
    ensures li' <= |ws| && ihead' <= |fb|
  {
  }

  lemma KeptStart(t: seq<CtData>, ws: seq<nat>, ids: seq<nat>, elems: nat)
    requires Leaves(t, ws, ids, elems)
    ensures SymbolsKept(t, t, ids, elems)
  {
  }

  /** Create a new node father of n and m. */
  method SetFather(tree: array<CtData>, node: nat, f: nat, n: nat, m: nat)
    requires node < tree.Length && n < node && m < node
    modifies tree
    ensures tree[..] == Link(old(tree[..]), node, f, n, m)
  {
    tree[node] := tree[node].(fc := f);
    tree[n] := tree[n].(dl := node);
    tree[m] := tree[m].(dl := node);
  }
}
