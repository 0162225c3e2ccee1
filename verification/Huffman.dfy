/** The theory of minimum-redundancy codes that trees.c build_tree relies on: repeatedly merging the two smallest
    weights reaches the least weighted code length that the Kraft inequality allows. */
module Huffman {
  import opened Arith
  import opened Bits

  ghost predicate Sorted(ws: seq<nat>) { forall i, j :: 0 <= i < j < |ws| ==> ws[i] <= ws[j] }

  function Sum(ws: seq<nat>): (r: nat) { if |ws| == 0 then 0 else ws[0] + Sum(ws[1..]) }

  /** The total length of a text in which symbol i occurs ws[i] times with a code of ls[i] bits. */
  function Cost(ws: seq<nat>, ls: seq<nat>): (r: nat)
    requires |ws| == |ls|
  {
    if |ws| == 0 then 0 else ws[0] * ls[0] + Cost(ws[1..], ls[1..])
  }

  predicate AtMost(ls: seq<nat>, m: nat) { forall i :: 0 <= i < |ls| ==> ls[i] <= m }

  /** The Kraft sum in units of 2^-m. */
  function KraftSum(ls: seq<nat>, m: nat): (r: nat)
    requires AtMost(ls, m)
  {
    if |ls| == 0 then 0 else Pow2(m - ls[0]) + KraftSum(ls[1..], m)
  }

  /** Where x belongs in a sorted sequence. */
  function Place(x: nat, ws: seq<nat>): (k: nat)
    ensures k <= |ws|
    ensures forall i :: 0 <= i < k ==> ws[i] < x
    ensures k < |ws| ==> ws[k] >= x
  {
    if |ws| == 0 || x <= ws[0] then 0 else 1 + Place(x, ws[1..])
  }

  function InsertAt(s: seq<nat>, k: nat, x: nat): (r: seq<nat>)
    requires k <= |s|
    ensures |r| == |s| + 1
  {
    s[..k] + [x] + s[k..]
  }

  function Insert(x: nat, ws: seq<nat>): (r: seq<nat>)
    ensures |r| == |ws| + 1
  {
    InsertAt(ws, Place(x, ws), x)
  }

  lemma InsertSorted(x: nat, ws: seq<nat>)
    requires Sorted(ws)
    ensures Sorted(Insert(x, ws)) && multiset(Insert(x, ws)) == multiset(ws) + multiset{x}
  {
    hide Place;
    var k := Place(x, ws);
    assert ws == ws[..k] + ws[k..];
    SortedInsert(x, ws, k);
  }

  lemma SortedInsert(x: nat, ws: seq<nat>, k: nat)
    requires Sorted(ws) && k <= |ws| && (forall i :: 0 <= i < k ==> ws[i] < x) && (k < |ws| ==> ws[k] >= x)
    ensures Sorted(InsertAt(ws, k, x))
  {
    var r := InsertAt(ws, k, x);
    forall i, j | 0 <= i < j < |r|
      ensures r[i] <= r[j]
    {
      assert r[i] == if i < k then ws[i] else if i == k then x else ws[i - 1];
      assert r[j] == if j < k then ws[j] else if j == k then x else ws[j - 1];
      assert k < j ==> ws[k] <= ws[j - 1];
    }
  }

  /** What merging the two smallest weights until one is left costs: the sum of all merged weights. */
  function HuffCost(ws: seq<nat>): (r: nat)
    decreases |ws|
  {
    if |ws| <= 1 then 0
    else ws[0] + ws[1] + HuffCost(Insert(ws[0] + ws[1], ws[2..]))
  }

  // ---- sums under updates ----

  lemma {:induction false} CostConcat(a: seq<nat>, b: seq<nat>, la: seq<nat>, lb: seq<nat>)
    requires |a| == |la| && |b| == |lb|
    ensures Cost(a + b, la + lb) == Cost(a, la) + Cost(b, lb)
  {
    if |a| == 0 {
      assert a + b == b && la + lb == lb;
    } else {
      CostConcat(a[1..], b, la[1..], lb);
      assert (a + b)[1..] == a[1..] + b && (la + lb)[1..] == la[1..] + lb;
    }
  }

  lemma {:induction false} KraftConcat(a: seq<nat>, b: seq<nat>, m: nat)
    requires AtMost(a, m) && AtMost(b, m)
    ensures AtMost(a + b, m) && KraftSum(a + b, m) == KraftSum(a, m) + KraftSum(b, m)
  {
    if |a| == 0 {
      assert a + b == b;
    } else {
      KraftConcat(a[1..], b, m);
      assert (a + b)[1..] == a[1..] + b;
    }
  }

  lemma {:induction false} CostSet(ws: seq<nat>, ls: seq<nat>, i: nat, v: nat)
    requires |ws| == |ls| && i < |ws|
    ensures Cost(ws, ls[i := v]) + ws[i] * ls[i] == Cost(ws, ls) + ws[i] * v
  {
    if i > 0 {
      CostSet(ws[1..], ls[1..], i - 1, v);
      assert ls[i := v][1..] == ls[1..][i - 1 := v];
    } else {
      assert ls[i := v][1..] == ls[1..];
    }
  }

  lemma {:induction false} KraftSet(ls: seq<nat>, i: nat, v: nat, m: nat)
    requires AtMost(ls, m) && i < |ls| && v <= m
    ensures AtMost(ls[i := v], m) && KraftSum(ls[i := v], m) + Pow2(m - ls[i]) == KraftSum(ls, m) + Pow2(m - v)
  {
    if i > 0 {
      KraftSet(ls[1..], i - 1, v, m);
      assert ls[i := v][1..] == ls[1..][i - 1 := v];
    } else {
      assert ls[i := v][1..] == ls[1..];
    }
  }

  lemma InsertCost(ws: seq<nat>, ls: seq<nat>, k: nat, w: nat, l: nat)
    requires |ws| == |ls| && k <= |ws|
    ensures Cost(InsertAt(ws, k, w), InsertAt(ls, k, l)) == Cost(ws, ls) + w * l
  {
    CostConcat(ws[..k], ws[k..], ls[..k], ls[k..]);
    assert ws == ws[..k] + ws[k..] && ls == ls[..k] + ls[k..];
    CostConcat(ws[..k] + [w], ws[k..], ls[..k] + [l], ls[k..]);
    CostConcat(ws[..k], [w], ls[..k], [l]);
  }

  lemma InsertKraft(ls: seq<nat>, k: nat, l: nat, m: nat)
    requires AtMost(ls, m) && k <= |ls| && l <= m
    ensures AtMost(InsertAt(ls, k, l), m) && KraftSum(InsertAt(ls, k, l), m) == KraftSum(ls, m) + Pow2(m - l)
  {
    KraftConcat(ls[..k], ls[k..], m);
    assert ls == ls[..k] + ls[k..];
    KraftConcat(ls[..k] + [l], ls[k..], m);
    KraftConcat(ls[..k], [l], m);
  }

  // ---- the exchange argument ----

  lemma ExchangeArith(a: nat, b: nat, x: nat, y: nat)
    requires a <= b && x <= y
    ensures a * y + b * x <= a * x + b * y
  {
    var d := y - x;
    assert a * y == a * x + a * d && b * y == b * x + b * d;
    assert a * d <= b * d;
  }

  /** Giving the longer of two codes to the lighter symbol costs nothing. */
  lemma Swap(ws: seq<nat>, ls: seq<nat>, i: nat, j: nat, m: nat) returns (ls': seq<nat>)
    requires |ws| == |ls| && i <= j < |ws| && ws[i] <= ws[j] && ls[i] <= ls[j] && AtMost(ls, m)
    ensures ls' == ls[i := ls[j]][j := ls[i]]
    ensures Cost(ws, ls') <= Cost(ws, ls) && AtMost(ls', m) && KraftSum(ls', m) == KraftSum(ls, m)
  {
    hide Cost, KraftSum, Pow2;
    ls' := ls[i := ls[j]][j := ls[i]];
    if i < j {
      CostSet(ws, ls, i, ls[j]);
      CostSet(ws, ls[i := ls[j]], j, ls[i]);
      KraftSet(ls, i, ls[j], m);
      KraftSet(ls[i := ls[j]], j, ls[i], m);
      ExchangeArith(ws[i], ws[j], ls[i], ls[j]);
    } else {
      assert ls' == ls;
    }
  }

  lemma {:induction false} MaxFrom(ls: seq<nat>, i: nat) returns (j: nat)
    requires i < |ls|
    ensures i <= j < |ls| && forall k :: i <= k < |ls| ==> ls[k] <= ls[j]
    decreases |ls| - i
  {
    j := i;
    if i + 1 < |ls| {
      var k := MaxFrom(ls, i + 1);
      if ls[k] > ls[i] { j := k; }
    }
  }

  /** Arrange that the two lightest symbols have the two longest codes. */
  lemma LongestFirst(ws: seq<nat>, ls: seq<nat>, m: nat) returns (ls': seq<nat>)
    requires |ws| == |ls| >= 2 && Sorted(ws) && AtMost(ls, m)
    ensures |ls'| == |ws| && AtMost(ls', m) && KraftSum(ls', m) == KraftSum(ls, m) && Cost(ws, ls') <= Cost(ws, ls)
    ensures ls'[0] >= ls'[1] && forall k :: 1 <= k < |ls'| ==> ls'[k] <= ls'[1]
  {
    hide Cost, KraftSum;
    var j := MaxFrom(ls, 0);
    var l1 := Swap(ws, ls, 0, j, m);
    var k := MaxFrom(l1, 1);
    ls' := Swap(ws, l1, 1, k, m);
  }

  lemma {:induction false} KraftScale(ls: seq<nat>, k: nat, m: nat)
    requires AtMost(ls, k) && k <= m
    ensures AtMost(ls, m) && KraftSum(ls, m) == Pow2(m - k) * KraftSum(ls, k)
  {
    hide Pow2;
    if |ls| > 0 {
      KraftScale(ls[1..], k, m);
      Pow2Add(m - k, k - ls[0]);
      DistribLeft(Pow2(m - k), Pow2(k - ls[0]), KraftSum(ls[1..], k));
    }
  }

  /** A single longest code can be cut down to the next longest length. */
  lemma Shorten(ls: seq<nat>, m: nat) returns (ls': seq<nat>)
    requires |ls| >= 2 && AtMost(ls, m) && KraftSum(ls, m) <= Pow2(m)
    requires ls[0] >= ls[1] && forall k :: 1 <= k < |ls| ==> ls[k] <= ls[1]
    ensures ls' == ls[0 := ls[1]] && AtMost(ls', m) && KraftSum(ls', m) <= Pow2(m)
  {
    hide Pow2;
    ls' := ls[0 := ls[1]];
    var rest, k := ls[1..], ls[1];
    assert ls'[1..] == rest && AtMost(rest, k);
    KraftScale(rest, k, m);
    Pow2Add(m - k, k);
    RoomForOne(Pow2(m - k), KraftSum(rest, k), Pow2(k), Pow2(m - ls[0]));
  }

  lemma RoomForOne(z: nat, a: nat, b: nat, e: nat)
    requires e > 0 && e + z * a <= z * b
    ensures z + z * a <= z * b
  {
    if a >= b {
      MulLe(b, a, z);
    } else {
      MulLt(a, b, z);
    }
  }

  lemma LongestPositive(ls: seq<nat>, m: nat)
    requires |ls| >= 2 && AtMost(ls, m) && KraftSum(ls, m) <= Pow2(m) && ls[0] == ls[1]
    ensures ls[0] >= 1
  {
    assert KraftSum(ls, m) >= Pow2(m - ls[0]) + Pow2(m - ls[1]) by {
      assert KraftSum(ls[1..], m) == Pow2(m - ls[1]) + KraftSum(ls[1..][1..], m);
    }
  }

  /** Merging two codes of equal length gives a shorter code for the rest. */
  lemma Merge(ws: seq<nat>, ls: seq<nat>, m: nat) returns (ls': seq<nat>)
    requires |ws| == |ls| >= 2 && AtMost(ls, m) && KraftSum(ls, m) <= Pow2(m) && ls[0] == ls[1] >= 1
    ensures |ls'| == |ws| - 1 && AtMost(ls', m) && KraftSum(ls', m) <= Pow2(m)
    ensures Cost(Insert(ws[0] + ws[1], ws[2..]), ls') + ws[0] + ws[1] == Cost(ws, ls)
  {
    hide Pow2;
    var w, l := ws[0] + ws[1], ls[0];
    var k := Place(w, ws[2..]);
    ls' := InsertAt(ls[2..], k, l - 1);
    InsertCost(ws[2..], ls[2..], k, w, l - 1);
    InsertKraft(ls[2..], k, l - 1, m);
    Pow2Double(m - l);
    assert ls[1..][1..] == ls[2..] && ws[1..][1..] == ws[2..];
    assert KraftSum(ls, m) == Pow2(m - l) + Pow2(m - l) + KraftSum(ls[2..], m);
    assert Cost(ws, ls) == ws[0] * l + (ws[1] * l + Cost(ws[2..], ls[2..]));
    MergeArith(ws[0], ws[1], l);
  }

  lemma MergeArith(a: nat, b: nat, l: nat)
    requires l >= 1
    ensures a * l + b * l == (a + b) * (l - 1) + a + b
  {
    Distrib(a, b, l);
  }

  lemma Pow2Double(n: nat)
    ensures Pow2(n + 1) == 2 * Pow2(n)
  {
  }

  lemma SortedRest(ws: seq<nat>)
    requires Sorted(ws) && |ws| >= 2
    ensures Sorted(ws[2..])
  {
    var t := ws[2..];
    forall i, j | 0 <= i <= j < |t|
      ensures t[i] <= t[j]
    {
      assert t[i] == ws[i + 2] && t[j] == ws[j + 2];
    }
  }

  /** No code lengths that meet the Kraft inequality cost less than merging the two smallest weights. */
  lemma {:induction false} LowerBound(ws: seq<nat>, ls: seq<nat>, m: nat)
    requires |ws| == |ls| && Sorted(ws) && AtMost(ls, m) && KraftSum(ls, m) <= Pow2(m)
    ensures HuffCost(ws) <= Cost(ws, ls)
    decreases |ws|
  {
    hide Cost, KraftSum, Pow2, Sorted, Insert, AtMost;
    if |ws| >= 2 {
      var l1 := LongestFirst(ws, ls, m);
      var l2 := Shorten(l1, m);
      ShorterCost(ws, l1);
      LongestPositive(l2, m);
      var l3 := Merge(ws, l2, m);
      SortedRest(ws);
      InsertSorted(ws[0] + ws[1], ws[2..]);
      LowerBound(Insert(ws[0] + ws[1], ws[2..]), l3, m);
    }
  }

  lemma ShorterCost(ws: seq<nat>, ls: seq<nat>)
    requires |ws| == |ls| >= 2 && ls[0] >= ls[1]
    ensures Cost(ws, ls[0 := ls[1]]) <= Cost(ws, ls)
  {
    CostSet(ws, ls, 0, ls[1]);
    MulLe(ls[1], ls[0], ws[0]);
  }

  /** ls are the cheapest lengths for the weights ws among all that meet the Kraft inequality. */
  ghost predicate Cheapest(ws: seq<nat>, ls: seq<nat>)
    requires |ws| == |ls|
  {
    forall alt: seq<nat>, m: nat {:trigger KraftSum(alt, m)} ::
      |alt| == |ws| && AtMost(alt, m) && KraftSum(alt, m) <= Pow2(m) ==> Cost(ws, ls) <= Cost(ws, alt)
  }

  lemma HuffIsCheapest(ws: seq<nat>, ls: seq<nat>)
    requires |ws| == |ls| && Sorted(ws) && Cost(ws, ls) == HuffCost(ws)
    ensures Cheapest(ws, ls)
  {
    hide Cost, KraftSum, Pow2, HuffCost, Sorted;
    forall alt: seq<nat>, m: nat | |alt| == |ws| && AtMost(alt, m) && KraftSum(alt, m) <= Pow2(m)
      ensures Cost(ws, ls) <= Cost(ws, alt)
    {
      LowerBound(ws, alt, m);
    }
  }

  lemma StrictExchange(a: nat, b: nat, x: nat, y: nat)
    requires a < b && x < y
    ensures a * y + b * x < a * x + b * y
  {
    var d := y - x;
    assert a * y == a * x + a * d && b * y == b * x + b * d;
    assert a * d < b * d;
  }

  /** With the cheapest lengths a less frequent symbol never has a shorter code. */
  lemma CheapestMonotone(ws: seq<nat>, ls: seq<nat>, m: nat, i: nat, j: nat)
    requires |ws| == |ls| && Cheapest(ws, ls) && AtMost(ls, m) && KraftSum(ls, m) <= Pow2(m)
    requires i < |ws| && j < |ws| && ws[i] < ws[j]
    ensures ls[i] >= ls[j]
  {
    hide Cost, KraftSum, Pow2, Cheapest;
    if ls[i] < ls[j] {
      var l1 := ls[i := ls[j]];
      var l2 := l1[j := ls[i]];
      CostSet(ws, ls, i, ls[j]);
      CostSet(ws, l1, j, ls[i]);
      KraftSet(ls, i, ls[j], m);
      KraftSet(l1, j, ls[i], m);
      StrictExchange(ws[i], ws[j], ls[i], ls[j]);
      CheapestThan(ws, ls, l2, m);
    }
  }

  lemma CheapestThan(ws: seq<nat>, ls: seq<nat>, alt: seq<nat>, m: nat)
    requires |ws| == |ls| == |alt| && Cheapest(ws, ls) && AtMost(alt, m) && KraftSum(alt, m) <= Pow2(m)
    ensures Cost(ws, ls) <= Cost(ws, alt)
  {
  }
}
