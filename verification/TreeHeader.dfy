/** trees.c build_bl_tree and send_all_trees: the description of the two dynamic trees in front of the block data. */
module TreeHeader {
  import opened Bits
  import opened Canonical
  import opened GenCodes
  import opened BitWriter
  import opened EmitCode
  import opened RunLength
  import opened ScanTree

  /** bl_order. */
  const BL_ORDER: seq<nat> := [16, 17, 18, 0, 8, 7, 9, 6, 10, 5, 11, 4, 12, 3, 13, 2, 14, 1, 15]

  lemma OrderBounds()
    ensures forall r :: 0 <= r < 19 ==> BL_ORDER[r] < 19
  {
  }

  /** Every code length symbol has a place in the order, and no two places agree. */
  lemma OrderOnce(r: nat, q: nat)
    requires r < 19 && q < 19 && BL_ORDER[r] == BL_ORDER[q]
    ensures r == q
  {
  }

  /** Section 3.2.7 of RFC 1951: first the repeats and the length 0, and then the lengths from the middle outwards, the
      greater ones from 8 upwards and the smaller ones from 7 downwards in turn. */
  lemma OrderShape()
    ensures |BL_ORDER| == 19
    ensures BL_ORDER[0] == 16 && BL_ORDER[1] == 17 && BL_ORDER[2] == 18 && BL_ORDER[3] == 0
    ensures forall k :: 0 <= k < 8 ==> BL_ORDER[4 + 2 * k] == 8 + k
    ensures forall k :: 1 <= k <= 7 ==> BL_ORDER[3 + 2 * k] == 8 - k
  {
  }

  /** The place of s in the order. */
  function RankOf(s: nat): (r: nat)
    requires s < 19
    ensures r < 19
  {
    if s >= 16 then s - 16 else if s == 0 then 3 else if s >= 8 then 4 + 2 * (s - 8) else 3 + 2 * (8 - s)
  }

  lemma OrderAll(s: nat) returns (r: nat)
    requires s < 19
    ensures r == RankOf(s) && BL_ORDER[r] == s
  {
    hide BL_ORDER;
    OrderShape();
    r := RankOf(s);
    if 8 <= s < 16 {
      assert BL_ORDER[4 + 2 * (s - 8)] == 8 + (s - 8);
    } else if 1 <= s < 8 {
      assert BL_ORDER[3 + 2 * (8 - s)] == 8 - (8 - s);
    }
  }

  /** The length of s, or 0 past the end. */
  function LenOr0(lens: seq<nat>, s: nat): (l: nat) { if s < |lens| then lens[s] else 0 }

  /** The lengths of the code length codes with ranks from r to n, three bits each. */
  function OrderBits(bl: seq<nat>, r: nat, n: nat): (b: Bits)
    requires n <= 19
    decreases n - r
  {
    if r >= n then [] else ToBits(LenOr0(bl, BL_ORDER[r]), 3) + OrderBits(bl, r + 1, n)
  }

  lemma {:induction false} OrderBitsLength(bl: seq<nat>, r: nat, n: nat)
    requires r <= n <= 19
    ensures |OrderBits(bl, r, n)| == 3 * (n - r)
    decreases n - r
  {
    if r < n { OrderBitsLength(bl, r + 1, n); }
  }

  /** The header of a dynamic block for code lengths ll and dl, described by the code length code bl, of whose
      lengths the first blcodes in order are sent. */
  function HeaderBits(ll: seq<nat>, dl: seq<nat>, bl: seq<nat>, blcodes: nat): (b: Bits)
    requires 257 <= |ll| && 1 <= |dl| && 4 <= blcodes <= 19
  {
    ToBits(|ll| - 257, 5) + ToBits(|dl| - 1, 5) + ToBits(blcodes - 4, 4) + OrderBits(bl, 0, blcodes) +
    (ClBits(bl, Rle(ll)) + ClBits(bl, Rle(dl)))
  }

  ghost predicate AllZero(s: seq<nat>) { forall i :: 0 <= i < |s| ==> s[i] == 0 }

  /** Without a symbol for a single length only zero lengths can be described. */
  lemma {:induction false} OnlyRepeats(syms: seq<ClSym>, acc: seq<nat>, limit: nat)
    requires AllZero(acc) && forall i :: 0 <= i < |syms| ==> syms[i].code >= 16
    ensures Unrle(syms, acc, limit).Lens? ==> AllZero(Unrle(syms, acc, limit).lens)
    decreases |syms|
  {
    if |syms| > 0 && Apply(syms[0], acc, limit).Lens? {
      OnlyRepeats(syms[1..], Apply(syms[0], acc, limit).lens, limit);
    }
  }

  /** A set of lengths in use is described with at least one plain length. */
  lemma PlainLength(lens: seq<nat>) returns (k: nat)
    requires (forall i :: 0 <= i < |lens| ==> lens[i] < 16) && !AllZero(lens)
    ensures k < |Rle(lens)| && Rle(lens)[k].code < 16
  {
    hide RleFrom, Unrle;
    RoundTrip(lens, []);
    assert Rle([]) == [] by { RleNone(); }
    assert Rle(lens) + [] == Rle(lens) && lens + [] == lens;
    if forall i :: 0 <= i < |Rle(lens)| ==> Rle(lens)[i].code >= 16 {
      OnlyRepeats(Rle(lens), [], |lens|);
      assert false;
    }
    k :| 0 <= k < |Rle(lens)| && Rle(lens)[k].code < 16;
  }

  lemma RleNone()
    ensures Rle([]) == []
  {
  }

  /** The loop of build_bl_tree: the last rank whose length is not zero. It stops at 3 because a plain length is in use
      and these have the ranks from 3 on. */
  method LastRank(blTree: seq<CtData>, ghost bl: seq<nat>, ghost plain: nat) returns (maxBlindex: nat)
    requires |bl| <= 19 <= |blTree| && forall s :: 0 <= s < 19 ==> blTree[s].dl == LenOr0(bl, s)
    requires plain < 16 && LenOr0(bl, plain) != 0
    ensures 3 <= maxBlindex <= 18 && LenOr0(bl, BL_ORDER[maxBlindex]) != 0
    ensures forall r :: maxBlindex < r < 19 ==> LenOr0(bl, BL_ORDER[r]) == 0
  {
    OrderBounds();
    ghost var rank := OrderAll(plain);
    if rank < 3 { FirstRanks(rank); }
    hide LenOr0;
    maxBlindex := 18;
    while maxBlindex >= 3
      invariant rank <= maxBlindex <= 18 && forall r :: maxBlindex < r < 19 ==> LenOr0(bl, BL_ORDER[r]) == 0
    {
      if blTree[BL_ORDER[maxBlindex]].dl != 0 { break; }
      maxBlindex := maxBlindex - 1;
    }
  }

  lemma FirstRanks(r: nat)
    requires r < 3
    ensures BL_ORDER[r] >= 16
  {
  }

  /** Send the lengths of the code length codes. */
  method SendOrder(w: BitWriter, blTree: seq<CtData>, blcodes: nat, ghost bl: seq<nat>)
    requires w.Valid() && |bl| <= 19 <= |blTree| && blcodes <= 19
    requires forall s :: 0 <= s < 19 ==> blTree[s].dl == LenOr0(bl, s) < 8
    modifies w
    ensures w.Valid() && w.Stream() == old(w.Stream()) + OrderBits(bl, 0, blcodes)
  {
    hide LenOr0, OrderBits, Pow2;
    OrderBounds();
    ghost var s0 := w.Stream();
    SmallPowers();
    for rank := 0 to blcodes
      invariant w.Valid() && w.Stream() + OrderBits(bl, rank, blcodes) == s0 + OrderBits(bl, 0, blcodes)
    {
      OrderStep(bl, rank, blcodes);
      ghost var s1, len := w.Stream(), blTree[BL_ORDER[rank]].dl;
      SendValue(w, blTree[BL_ORDER[rank]].dl, 3);
      assert s1 + (ToBits(len, 3) + OrderBits(bl, rank + 1, blcodes)) ==
        s1 + ToBits(len, 3) + OrderBits(bl, rank + 1, blcodes);
    }
    OrderNone(bl, blcodes);
    assert w.Stream() + [] == w.Stream();
  }

  lemma OrderStep(bl: seq<nat>, r: nat, n: nat)
    requires r < n <= 19
    ensures OrderBits(bl, r, n) == ToBits(LenOr0(bl, BL_ORDER[r]), 3) + OrderBits(bl, r + 1, n)
  {
  }

  lemma OrderNone(bl: seq<nat>, n: nat)
    requires n <= 19
    ensures OrderBits(bl, n, n) == []
  {
  }

  lemma SmallPowers()
    ensures Pow2(3) == 8 && Pow2(4) == 16 && Pow2(5) == 32
  {
    Pow2Table();
  }

  /** A tree of maxCode + 1 lengths behind which scan_tree has left its guard. */
  ghost predicate Guarded(tree: seq<CtData>, lens: seq<nat>)
  {
    0 < |lens| < |tree| && Lengths(tree, |lens|) == lens && tree[|lens|].dl == GUARD &&
    forall i :: 0 <= i < |lens| ==> lens[i] < 16
  }

  /** Send the counts, the lengths of the code length codes, and both trees. */
  method SendAllTrees(w: BitWriter, ltree: seq<CtData>, dtree: seq<CtData>, blTree: seq<CtData>, lcodes: nat,
                      dcodes: nat, blcodes: nat, ghost ll: seq<nat>, ghost dl: seq<nat>, ghost bl: seq<nat>)
    requires w.Valid() && 257 <= lcodes == |ll| <= 286 && 1 <= dcodes == |dl| <= 30 && 4 <= blcodes <= 19
    requires Guarded(ltree, ll) && Guarded(dtree, dl) && |bl| <= 19 <= |blTree|
    requires HasCodes(blTree, bl) && Kraft(bl) && forall s :: 0 <= s < 19 ==> blTree[s].dl == LenOr0(bl, s) < 8
    requires AllCoded(bl, Rle(ll)) && AllCoded(bl, Rle(dl))
    modifies w
    ensures w.Valid() && w.Stream() == old(w.Stream()) + HeaderBits(ll, dl, bl, blcodes)
  {
    hide OrderBits, HasCodes, Kraft, AllCoded, Pow2, ToBits, RleFrom, ClBits, LenOr0;
    SmallPowers();
    SendValue(w, lcodes - 257, 5);
    SendValue(w, dcodes - 1, 5);
    SendValue(w, blcodes - 4, 4);
    SendOrder(w, blTree, blcodes, bl);
    SendTree(w, ltree, lcodes - 1, blTree, bl);
    SendTree(w, dtree, dcodes - 1, blTree, bl);
  }
}
