/** trees.c zng_tr_flush_block, first half, and build_bl_tree: the three trees of a dynamic block and the exact
    number of bits that the block would take with them and with the fixed codes. */
module DynamicTrees {
  import opened Bits
  import opened Counting
  import opened Canonical
  import opened GenCodes
  import opened Huffman
  import opened TreeShape
  import opened BuildTree
  import opened RunLength
  import opened ScanTree
  import opened TreeHeader
  import opened Tokens
  import opened BlockCost
  import opened FixedCodes

  // ---- the run-length symbols ----

  lemma EmitShape(cur: nat, prev: nat, count: nat)
    requires cur < 16 && count > 0
    ensures |Emit(cur, prev, count)| <= count
    ensures forall i :: 0 <= i < |Emit(cur, prev, count)| ==> Emit(cur, prev, count)[i].code < 19
  {
    if count < MinCount(cur, prev) { LiteralsAre(cur, count); }
  }

  lemma {:induction false} RleShape(lens: seq<nat>, n: nat, prev: nat, count: nat)
    requires n <= |lens| && forall i :: 0 <= i < |lens| ==> lens[i] < 16
    ensures |RleFrom(lens, n, prev, count)| <= count + |lens| - n
    ensures forall i :: 0 <= i < |RleFrom(lens, n, prev, count)| ==> RleFrom(lens, n, prev, count)[i].code < 19
    decreases |lens| - n
  {
    hide Emit;
    if n < |lens| {
      var cur, next := lens[n], NextLen(lens, n + 1);
      if count + 1 < MaxCount(cur, prev) && cur == next {
        RleShape(lens, n + 1, prev, count + 1);
      } else {
        EmitShape(cur, prev, count + 1);
        RleShape(lens, n + 1, cur, 0);
      }
    }
  }

  lemma ScannedCounts(b0: seq<CtData>, b2: seq<CtData>, syms: seq<ClSym>)
    requires 19 <= |b0| && Counted(b0, b2, syms) && forall c :: 0 <= c < 19 ==> b0[c].fc == 0
    requires forall i :: 0 <= i < |syms| ==> syms[i].code < 19
    ensures CountsOf(b2, 19, Codes(syms))
  {
    hide Count;
  }

  // ---- preparing build_tree ----

  lemma TreeReady(t: seq<CtData>, n: nat, s: seq<nat>)
    requires CountsOf(t, n, s) && |s| < 65534
    ensures n <= |t| && (forall x :: 0 <= x < n ==> t[x].fc < 65536) && FitsSum(t, n)
  {
    hide Total;
    CountsSum(s, n, t);
  }

  lemma {:induction false} SymsSize(toks: seq<Token>)
    ensures |LSyms(toks)| == |toks| && |DSyms(toks)| <= |toks|
  {
    hide LSym, DSym;
    if |toks| > 0 { SymsSize(toks[..|toks| - 1]); }
  }

  lemma {:induction false} SymsCover(toks: seq<Token>, i: nat)
    requires i < |toks|
    ensures LSym(toks[i]) in LSyms(toks) && (toks[i].Match? ==> DSym(toks[i]) in DSyms(toks))
  {
    hide LSym, DSym;
    if i < |toks| - 1 { SymsCover(toks[..|toks| - 1], i); }
  }

  /** Every token can be sent with codes that cover all symbols that occur. */
  lemma BuiltCodable(lt: seq<CtData>, dt: seq<CtData>, ll: seq<nat>, dl: seq<nat>, toks: seq<Token>)
    requires Tallied(lt, dt, toks) && forall i :: 0 <= i < |toks| ==> ValidToken(toks[i])
    requires forall x :: 0 <= x < 286 && lt[x].fc != 0 ==> Coded(ll, x)
    requires forall x :: 0 <= x < 30 && dt[x].fc != 0 ==> Coded(dl, x)
    ensures Coded(ll, END_BLOCK) && forall i :: 0 <= i < |toks| ==> Codable(ll, dl, toks[i])
  {
    hide Count, LSyms, DSyms, LSym, DSym, Coded;
    var s, d := LSyms(toks) + [END_BLOCK], DSyms(toks);
    forall x | x in s
      ensures Coded(ll, x)
    {
      CountPositive(s, x);
    }
    assert s[|s| - 1] == END_BLOCK;
    forall i | 0 <= i < |toks|
      ensures Codable(ll, dl, toks[i])
    {
      SymsCover(toks, i);
      assert LSym(toks[i]) in s;
      if toks[i].Match? { CountPositive(d, DSym(toks[i])); }
    }
  }

  // ---- the trees of a block ----

  /** Three trees that are ready to be sent and used for toks: complete codes of the allowed sizes that cover all that
      is sent with them. */
  ghost predicate Ready(lt: seq<CtData>, dt: seq<CtData>, bt: seq<CtData>, ll: seq<nat>, dl: seq<nat>, bl: seq<nat>,
                        toks: seq<Token>)
  {
    GoodLengths(ll, dl, bl) && HasCodes(lt, ll) && HasCodes(dt, dl) && HasCodes(bt, bl) && Guarded(lt, ll) &&
      Guarded(dt, dl) &&
    19 <= |bt| && (forall s :: 0 <= s < 19 ==> bt[s].dl == LenOr0(bl, s) < 8) &&
    (forall i :: 0 <= i < |toks| ==> Codable(ll, dl, toks[i]))
  }

  /** Code lengths that a dynamic block may have. */
  ghost predicate GoodLengths(ll: seq<nat>, dl: seq<nat>, bl: seq<nat>)
  {
    257 <= |ll| <= 286 && 1 <= |dl| <= 30 && |bl| <= 19 && Complete(ll) && Complete(dl) && Complete(bl) &&
    (forall s :: 0 <= s < |bl| ==> bl[s] <= 7) && AllCoded(bl, Rle(ll)) && AllCoded(bl, Rle(dl)) && Coded(ll, END_BLOCK)
  }

  lemma BuiltCovers(t0: seq<CtData>, t: seq<CtData>, elems: nat, m: nat, maxCode: int, lens: seq<nat>)
    requires Built(t0, t, elems, m, maxCode, lens) && m <= 15
    ensures elems <= |t| == |t0| && 2 <= |lens| == maxCode + 1 <= elems && Complete(lens) && HasCodes(t, lens)
    ensures forall i :: 0 <= i < |lens| ==> lens[i] <= m && lens[i] < 16
    ensures forall x :: 0 <= x < elems && t0[x].fc != 0 ==> Coded(lens, x)
  {
  }

  lemma NotAllZero(lens: seq<nat>, x: nat)
    requires Coded(lens, x)
    ensures !AllZero(lens)
  {
  }

  /** Scan both trees: the frequencies of the code length symbols. */
  method ScanBoth(dynL: array<CtData>, lmax: nat, dynD: array<CtData>, dmax: nat, blTree: array<CtData>,
                  ghost ll: seq<nat>, ghost dl: seq<nat>)
    requires dynL != dynD && dynL != blTree && dynD != blTree && blTree.Length >= 19
    requires |ll| == lmax + 1 < dynL.Length && |dl| == dmax + 1 < dynD.Length && HasCodes(dynL[..], ll) &&
      HasCodes(dynD[..], dl)
    requires (forall i :: 0 <= i < |ll| ==> ll[i] < 16) && (forall i :: 0 <= i < |dl| ==> dl[i] < 16)
    requires forall c :: 0 <= c < 19 ==> blTree[c].fc == 0
    modifies dynL, dynD, blTree
    ensures HasCodes(dynL[..], ll) && HasCodes(dynD[..], dl) && Guarded(dynL[..], ll) && Guarded(dynD[..], dl)
    ensures CountsOf(blTree[..], 19, Codes(Rle(ll) + Rle(dl))) && |Rle(ll) + Rle(dl)| <= |ll| + |dl|
  {
    ghost var b0, l0, d0 := blTree[..], dynL[..], dynD[..];
    LengthsOf(l0, ll);
    LengthsOf(d0, dl);
    hide RleFrom, Counted, HasCodes, Count;
    ScanTree.ScanTree(dynL, lmax, blTree);
    ghost var b1 := blTree[..];
    ScanTree.ScanTree(dynD, dmax, blTree);
    CountedTwice(b0, b1, blTree[..], Rle(ll), Rle(dl));
    RleShape(ll, 0, GUARD, 0);
    RleShape(dl, 0, GUARD, 0);
    ScannedCounts(b0, blTree[..], Rle(ll) + Rle(dl));
    GuardKeeps(l0, dynL[..], ll);
    GuardKeeps(d0, dynD[..], dl);
  }

  lemma LengthsOf(t: seq<CtData>, lens: seq<nat>)
    requires HasCodes(t, lens)
    ensures |lens| <= |t| && Lengths(t, |lens|) == lens && forall i :: 0 <= i < |lens| ==> t[i].dl == lens[i]
  {
    assert forall n :: 0 <= n < |lens| ==> HasCode(t[n], lens, n);
  }

  lemma GuardKeeps(t: seq<CtData>, t': seq<CtData>, lens: seq<nat>)
    requires HasCodes(t, lens) && 0 < |lens| < |t| && (forall i :: 0 <= i < |lens| ==> lens[i] < 16)
    requires t' == t[|lens| := t[|lens|].(dl := GUARD)]
    ensures HasCodes(t', lens) && Guarded(t', lens)
  {
    hide HasCode;
    assert forall n :: 0 <= n < |lens| ==> t'[n] == t[n];
    LengthsOf(t', lens);
  }

  /** Every run-length symbol that was counted has a code. */
  lemma AllCounted(bt: seq<CtData>, syms: seq<ClSym>, bl: seq<nat>)
    requires CountsOf(bt, 19, Codes(syms)) && forall x :: 0 <= x < 19 && bt[x].fc != 0 ==> Coded(bl, x)
    ensures AllCoded(bl, syms)
  {
    hide Count;
    forall i | 0 <= i < |syms|
      ensures Coded(bl, syms[i].code)
    {
      assert Codes(syms)[i] in Codes(syms);
      CountPositive(Codes(syms), syms[i].code);
    }
  }

  lemma CodedParts(bl: seq<nat>, a: seq<ClSym>, b: seq<ClSym>)
    requires AllCoded(bl, a + b)
    ensures AllCoded(bl, a) && AllCoded(bl, b)
  {
    assert forall i :: 0 <= i < |a| ==> a[i] == (a + b)[i];
    assert forall i :: 0 <= i < |b| ==> b[i] == (a + b)[|a| + i];
  }

  lemma BlBuilt(b0: seq<CtData>, bt: seq<CtData>, maxCode: int, bl: seq<nat>, ll: seq<nat>, dl: seq<nat>)
    requires Built(b0, bt, 19, 7, maxCode, bl) && CountsOf(b0, 19, Codes(Rle(ll) + Rle(dl)))
    ensures |bl| <= 19 && Complete(bl) && HasCodes(bt, bl) && 19 <= |bt|
    ensures forall s :: 0 <= s < |bl| ==> bl[s] <= 7
    ensures forall s :: 0 <= s < 19 ==> bt[s].dl == LenOr0(bl, s) < 8
    ensures AllCoded(bl, Rle(ll)) && AllCoded(bl, Rle(dl))
  {
    hide RleFrom, Count, Complete;
    BuiltCovers(b0, bt, 19, 7, maxCode, bl);
    AllCounted(b0, Rle(ll) + Rle(dl), bl);
    CodedParts(bl, Rle(ll), Rle(dl));
    LengthsOf(bt, bl);
  }

  /** build_bl_tree, with the bits that the description of the trees will take. */
  method BuildBlTree(dynL: array<CtData>, lmax: nat, dynD: array<CtData>, dmax: nat, blTree: array<CtData>,
                     ghost ll: seq<nat>, ghost dl: seq<nat>)
    returns (maxBlindex: nat, opt: int, ghost bl: seq<nat>)
    requires dynL != dynD && dynL != blTree && dynD != blTree && blTree.Length >= 39
    requires |ll| == lmax + 1 < dynL.Length && |dl| == dmax + 1 < dynD.Length && HasCodes(dynL[..], ll) &&
      HasCodes(dynD[..], dl)
    requires (forall i :: 0 <= i < |ll| ==> ll[i] < 16) && (forall i :: 0 <= i < |dl| ==> dl[i] < 16)
    requires forall c :: 0 <= c < 19 ==> blTree[c].fc == 0
    requires 257 <= |ll| <= 286 && 1 <= |dl| <= 30 && !AllZero(ll)
    modifies dynL, dynD, blTree
    ensures HasCodes(dynL[..], ll) && HasCodes(dynD[..], dl) && Guarded(dynL[..], ll) && Guarded(dynD[..], dl)
    ensures |bl| <= 19 && Complete(bl) && HasCodes(blTree[..], bl) && (forall s :: 0 <= s < |bl| ==> bl[s] <= 7)
    ensures forall s :: 0 <= s < 19 ==> blTree[s].dl == LenOr0(bl, s) < 8
    ensures AllCoded(bl, Rle(ll)) && AllCoded(bl, Rle(dl))
    ensures 3 <= maxBlindex <= 18 && forall r :: maxBlindex < r < 19 ==> LenOr0(bl, BL_ORDER[r]) == 0
    ensures opt == |HeaderBits(ll, dl, bl, maxBlindex + 1)|
  {
    hide RleFrom, Count, Complete, HasCodes, Built, AllCoded, LenOr0, BlockBits, LenFn, ClBits, CountsOf, Total, Freq,
      Pow2, Codes, HeaderBits, Guarded, AllZero, ByWeight, Monotone, Optimum, Cheapest;
    ScanBoth(dynL, lmax, dynD, dmax, blTree, ll, dl);
    ghost var b0 := blTree[..];
    ghost var syms := Rle(ll) + Rle(dl);
    TreeReady(b0, 19, Codes(syms));
    var leaves, scratch := new nat[19], new nat[19];
    BlPowers();
    var maxCode, bits, stat;
    ghost var ids, ws, ls, ds;
    maxCode, bits, stat, bl, ids, ws, ls, ds :=
      BuildTree.BuildTree(blTree, 19, 7, ExtraBl(), (x: nat) => 0, leaves, scratch);
    BlBuilt(b0, blTree[..], maxCode, bl, ll, dl);
    ghost var k := PlainLength(ll);
    PlainCoded(bl, ll, k);
    maxBlindex := LastRank(blTree[..], bl, Rle(ll)[k].code);
    opt := bits + 3 * (maxBlindex + 1) + 5 + 5 + 4;
    HeaderLength(b0, ll, dl, bl, maxBlindex + 1);
  }

  lemma BlPowers()
    ensures Pow2(7) == 128 && Pow2(15) == 32768
  {
    Pow2Table();
  }

  lemma PlainCoded(bl: seq<nat>, ll: seq<nat>, k: nat)
    requires AllCoded(bl, Rle(ll)) && k < |Rle(ll)|
    ensures LenOr0(bl, Rle(ll)[k].code) != 0
  {
  }

  lemma HeaderLength(b0: seq<CtData>, ll: seq<nat>, dl: seq<nat>, bl: seq<nat>, blcodes: nat)
    requires CountsOf(b0, 19, Codes(Rle(ll) + Rle(dl))) && 257 <= |ll| && 1 <= |dl| && 4 <= blcodes <= 19 && 19 <= |b0|
    ensures |HeaderBits(ll, dl, bl, blcodes)| == BlockBits(b0, 19, LenFn(bl), ExtraBl()) + 3 * blcodes + 14
  {
    hide RleFrom, Count, ClBits, CountsOf, BlockBits, Total, Codes, ToBits, OrderBits;
    var a, b := Rle(ll), Rle(dl);
    BlockBitsOf(b0, 19, Codes(a + b), LenFn(bl), ExtraBl());
    ClBitsLength(bl, a + b);
    ClBitsConcat(bl, a, b);
    OrderBitsLength(bl, 0, blcodes);
  }

  /** build_tree for a tree whose frequencies are the occurrences in s. */
  method BuildOne(tree: array<CtData>, elems: nat, extra: nat -> nat, slen: nat -> nat, ghost s: seq<nat>)
    returns (maxCode: nat, opt: int, stat: int, ghost lens: seq<nat>)
    requires 3 <= elems <= 286 && 2 * elems < tree.Length && CountsOf(tree[..], elems, s) && |s| < 65534
    requires extra(0) == extra(1) == extra(2) == 0
    modifies tree
    ensures |lens| == maxCode + 1 <= elems && Complete(lens) && HasCodes(tree[..], lens)
    ensures forall i :: 0 <= i < |lens| ==> lens[i] < 16
    ensures forall x :: 0 <= x < elems && old(tree[x].fc) != 0 ==> Coded(lens, x)
    ensures opt == BlockBits(old(tree[..]), elems, LenFn(lens), extra)
    ensures stat == BlockBits(old(tree[..]), elems, slen, extra)
  {
    hide Count, Complete, HasCodes, Built, BlockBits, LenFn, CountsOf, Total, Freq, Pow2, ByWeight, Monotone, Optimum,
      Cheapest, Coded;
    ghost var t0 := tree[..];
    TreeReady(t0, elems, s);
    BlPowers();
    var leaves, scratch := new nat[elems], new nat[elems];
    ghost var ids, ws, ls, ds;
    var max;
    max, opt, stat, lens, ids, ws, ls, ds := BuildTree.BuildTree(tree, elems, 15, extra, slen, leaves, scratch);
    BuiltCovers(t0, tree[..], elems, 15, max, lens);
    maxCode := max;
  }

  lemma TalliedReady(lt: seq<CtData>, dt: seq<CtData>, toks: seq<Token>)
    requires Tallied(lt, dt, toks) && |toks| <= 65000
    ensures CountsOf(lt, 286, LSyms(toks) + [END_BLOCK]) && CountsOf(dt, 30, DSyms(toks)) && 286 <= |lt| && 30 <= |dt|
    ensures |LSyms(toks) + [END_BLOCK]| < 65534 && |DSyms(toks)| < 65534
  {
    hide Count;
    SymsSize(toks);
  }

  lemma LongEnough(ll: seq<nat>)
    requires Coded(ll, END_BLOCK)
    ensures 257 <= |ll|
  {
  }

  /** Construct the literal, distance and code length trees; the totals are exact. */
  method BuildTrees(dynL: array<CtData>, dynD: array<CtData>, blTree: array<CtData>, ghost toks: seq<Token>)
    returns (lcodes: nat, dcodes: nat, blcodes: nat, opt: int, stat: int, ghost ll: seq<nat>, ghost dl: seq<nat>,
             ghost bl: seq<nat>)
    requires dynL != dynD && dynL != blTree && dynD != blTree
    requires dynL.Length == 573 && dynD.Length == 61 && blTree.Length == 39
    requires Tallied(dynL[..], dynD[..], toks) && |toks| <= 65000 && forall i :: 0 <= i < |toks| ==> ValidToken(toks[i])
    requires forall c :: 0 <= c < 19 ==> blTree[c].fc == 0
    modifies dynL, dynD, blTree
    ensures Ready(dynL[..], dynD[..], blTree[..], ll, dl, bl, toks) && lcodes == |ll| && dcodes == |dl|
    ensures 4 <= blcodes <= 19 && forall r :: blcodes <= r < 19 ==> LenOr0(bl, BL_ORDER[r]) == 0
    ensures opt == |HeaderBits(ll, dl, bl, blcodes)| + |BodyBits(ll, dl, toks)|
    ensures stat == |BodyBits(FixedL(), FixedD(30), toks)|
  {
    hide RleFrom, Count, Complete, HasCodes, Built, AllCoded, LenOr0, BlockBits, LenFn, ClBits, CountsOf, Total, Freq,
      Pow2, HeaderBits, BodyBits, Guarded, AllZero, ByWeight, Monotone, Optimum, Cheapest, LSyms, DSyms, Coded, FixedL,
      FixedD, Codable;
    ghost var l0, d0 := dynL[..], dynD[..];
    TalliedReady(l0, d0, toks);
    BlPowers();
    var lmax, lopt, lstat, dmax, dopt, dstat;
    lmax, lopt, lstat, ll := BuildOne(dynL, 286, ExtraLit(), LenFn(FixedL()), LSyms(toks) + [END_BLOCK]);
    dmax, dopt, dstat, dl := BuildOne(dynD, 30, ExtraDist(), LenFn(FixedD(30)), DSyms(toks));
    BuiltCodable(l0, d0, ll, dl, toks);
    LongEnough(ll);
    NotAllZero(ll, END_BLOCK);
    var maxBlindex, bopt;
    maxBlindex, bopt, bl := BuildBlTree(dynL, lmax, dynD, dmax, blTree, ll, dl);
    lcodes, dcodes, blcodes := lmax + 1, dmax + 1, maxBlindex + 1;
    opt, stat := lopt + dopt + bopt, lstat + dstat;
    BodyLength(l0, d0, ll, dl, toks);
    BodyLength(l0, d0, FixedL(), FixedD(30), toks);
  }
}
