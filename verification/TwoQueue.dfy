/** trees.c pq_take and the merge loop of build_tree, seen as weights: two ascending queues deliver the nodes in
    ascending order, so every merge takes the two smallest live weights. */
module TwoQueue {
  import opened Huffman

  /** live is what is left in the two queues, in ascending order. */
  ghost predicate Live(ws: seq<nat>, fb: seq<nat>, li: nat, ihead: nat, live: seq<nat>)
  {
    li <= |ws| && ihead <= |fb| && Sorted(ws) && Sorted(fb) && Sorted(live) &&
    multiset(live) == multiset(ws[li..]) + multiset(fb[ihead..])
  }

  lemma LiveSize(ws: seq<nat>, fb: seq<nat>, li: nat, ihead: nat, live: seq<nat>)
    requires Live(ws, fb, li, ihead, live)
    ensures |live| == (|ws| - li) + (|fb| - ihead)
  {
    assert |multiset(live)| == |multiset(ws[li..])| + |multiset(fb[ihead..])|;
  }

  lemma {:induction false} MinFirst(live: seq<nat>, x: nat)
    requires Sorted(live) && x in multiset(live) && forall y :: y in multiset(live) ==> x <= y
    ensures |live| > 0 && live[0] == x
  {
    var i :| 0 <= i < |live| && live[i] == x;
    assert live[0] in multiset(live);
  }

  lemma Split(s: seq<nat>, i: nat)
    requires i < |s|
    ensures multiset(s[i..]) == multiset{s[i]} + multiset(s[i + 1..])
  {
    assert s[i..] == [s[i]] + s[i + 1..];
  }

  lemma AllAbove(s: seq<nat>, i: nat, y: nat)
    requires Sorted(s) && i < |s| && y in multiset(s[i..])
    ensures s[i] <= y
  {
    var k :| 0 <= k < |s[i..]| && s[i..][k] == y;
  }

  /** Taking the head of the leaf queue when the other queue has nothing smaller. */
  lemma TakeLeaf(ws: seq<nat>, fb: seq<nat>, li: nat, ihead: nat, live: seq<nat>)
    requires Live(ws, fb, li, ihead, live) && li < |ws| && (ihead == |fb| || ws[li] <= fb[ihead])
    ensures |live| > 0 && live[0] == ws[li] && Live(ws, fb, li + 1, ihead, live[1..])
  {
    hide Sorted;
    Split(ws, li);
    forall y | y in multiset(live)
      ensures ws[li] <= y
    {
      if y in multiset(ws[li..]) { AllAbove(ws, li, y); } else { AllAbove(fb, ihead, y); }
    }
    MinFirst(live, ws[li]);
    Rest(live);
    assert multiset(live[1..]) == multiset(live) - multiset{ws[li]};
  }

  lemma TakeInternal(ws: seq<nat>, fb: seq<nat>, li: nat, ihead: nat, live: seq<nat>)
    requires Live(ws, fb, li, ihead, live) && ihead < |fb| && (li == |ws| || fb[ihead] <= ws[li])
    ensures |live| > 0 && live[0] == fb[ihead] && Live(ws, fb, li, ihead + 1, live[1..])
  {
    hide Sorted;
    Split(fb, ihead);
    forall y | y in multiset(live)
      ensures fb[ihead] <= y
    {
      if y in multiset(ws[li..]) { AllAbove(ws, li, y); } else { AllAbove(fb, ihead, y); }
    }
    MinFirst(live, fb[ihead]);
    Rest(live);
    assert multiset(live[1..]) == multiset(live) - multiset{fb[ihead]};
  }

  lemma Rest(live: seq<nat>)
    requires Sorted(live) && |live| > 0
    ensures Sorted(live[1..]) && multiset(live) == multiset{live[0]} + multiset(live[1..])
  {
    assert live == [live[0]] + live[1..];
  }

  /** The weights of the merge loop: all merges so far cost Sum(fb), the rest will cost HuffCost(live), the last merged
      weight is at most twice the smallest live one, and no weight is lost. */
  ghost predicate Optimal(ws: seq<nat>, fb: seq<nat>, li: nat, ihead: nat, live: seq<nat>)
  {
    Live(ws, fb, li, ihead, live) &&
    HuffCost(live) + Sum(fb) == HuffCost(ws) && Sum(live) == Sum(ws) &&
    (|fb| > 0 && |live| > 0 ==> fb[|fb| - 1] <= 2 * live[0])
  }

  lemma {:induction false} SumConcat(a: seq<nat>, b: seq<nat>)
    ensures Sum(a + b) == Sum(a) + Sum(b)
  {
    if |a| == 0 {
      assert a + b == b;
    } else {
      SumConcat(a[1..], b);
      assert (a + b)[1..] == a[1..] + b;
    }
  }

  lemma SumInsert(x: nat, s: seq<nat>)
    ensures Sum(Insert(x, s)) == Sum(s) + x
  {
    var k := Place(x, s);
    assert s == s[..k] + s[k..];
    SumConcat(s[..k], s[k..]);
    SumConcat(s[..k] + [x], s[k..]);
    SumConcat(s[..k], [x]);
  }

  lemma AscendingAppend(fb: seq<nat>, f: nat)
    requires Sorted(fb) && (|fb| > 0 ==> fb[|fb| - 1] <= f)
    ensures Sorted(fb + [f])
  {
  }

  lemma MergeLive(ws: seq<nat>, fb: seq<nat>, li: nat, ihead: nat, live: seq<nat>, f: nat)
    requires Live(ws, fb, li, ihead, live) && (|fb| > 0 ==> fb[|fb| - 1] <= f)
    ensures Live(ws, fb + [f], li, ihead, Insert(f, live))
  {
    hide Sorted, Insert;
    InsertSorted(f, live);
    AscendingAppend(fb, f);
    assert (fb + [f])[ihead..] == fb[ihead..] + [f];
  }

  lemma MergeCost(live: seq<nat>)
    requires |live| >= 2
    ensures HuffCost(live) == live[0] + live[1] + HuffCost(Insert(live[0] + live[1], live[2..]))
    ensures Sum(Insert(live[0] + live[1], live[2..])) == Sum(live) >= live[0] + live[1]
  {
    hide Insert;
    SumInsert(live[0] + live[1], live[2..]);
    assert live[1..][1..] == live[2..];
  }

  /** Appending the merged weight keeps the queue ascending and the rest optimal. */
  lemma MergeTwo(ws: seq<nat>, fb: seq<nat>, li: nat, ihead: nat, li': nat, ihead': nat, live: seq<nat>)
    requires Optimal(ws, fb, li, ihead, live) && |live| >= 2
    requires Live(ws, fb, li', ihead', live[2..])
    ensures live[0] + live[1] <= Sum(ws)
    ensures Optimal(ws, fb + [live[0] + live[1]], li', ihead', Insert(live[0] + live[1], live[2..]))
  {
    hide Insert, HuffCost, Sum;
    var f := live[0] + live[1];
    MergeLive(ws, fb, li', ihead', live[2..], f);
    MergeCost(live);
    SumSnoc(fb, f);
    InsertBound(f, live[2..], live[1]);
  }

  lemma SumSnoc(fb: seq<nat>, f: nat)
    ensures Sum(fb + [f]) == Sum(fb) + f
  {
    SumConcat(fb, [f]);
  }

  lemma InsertBound(f: nat, s: seq<nat>, y: nat)
    requires y <= f && forall i :: 0 <= i < |s| ==> y <= s[i]
    ensures forall i :: 0 <= i < |Insert(f, s)| ==> y <= Insert(f, s)[i]
  {
  }

  lemma StartOptimal(ws: seq<nat>)
    requires Sorted(ws)
    ensures Optimal(ws, [], 0, 0, ws)
  {
    assert ws[0..] == ws;
  }

  lemma DoneOptimal(ws: seq<nat>, fb: seq<nat>, li: nat, ihead: nat, live: seq<nat>)
    requires Optimal(ws, fb, li, ihead, live) && |live| == 1
    ensures Sum(fb) == HuffCost(ws)
  {
  }
}
