/** trees.c scan_tree and send_tree: one tree of code lengths is counted, and later sent, as run-length symbols. */
module ScanTree {
  import opened Bits
  import opened Counting
  import opened Canonical
  import opened GenCodes
  import opened BitWriter
  import opened EmitCode
  import opened RunLength

  function Codes(syms: seq<ClSym>): (s: seq<nat>)
    ensures |s| == |syms| && forall i :: 0 <= i < |s| ==> s[i] == syms[i].code
  {
    seq(|syms|, i requires 0 <= i < |syms| => syms[i].code)
  }

  lemma CodesConcat(a: seq<ClSym>, b: seq<ClSym>)
    ensures Codes(a + b) == Codes(a) + Codes(b)
  {
  }

  /** A frequency table after the symbols syms have been added to it. */
  ghost predicate Counted(t0: seq<CtData>, t: seq<CtData>, syms: seq<ClSym>)
  {
    |t| == |t0| && forall c :: 0 <= c < |t| ==> t[c] == t0[c].(fc := t0[c].fc + Count(Codes(syms), c))
  }

  lemma CountedNone(t: seq<CtData>)
    ensures Counted(t, t, [])
  {
  }

  lemma CountedTwice(t0: seq<CtData>, t1: seq<CtData>, t2: seq<CtData>, a: seq<ClSym>, b: seq<ClSym>)
    requires Counted(t0, t1, a) && Counted(t1, t2, b)
    ensures Counted(t0, t2, a + b)
  {
    hide Count;
    CodesConcat(a, b);
    forall c | 0 <= c < |t0|
      ensures t2[c] == t0[c].(fc := t0[c].fc + Count(Codes(a + b), c))
    {
      CountConcat(Codes(a), Codes(b), c);
    }
  }

  lemma CountedOne(t: seq<CtData>, sym: ClSym)
    requires sym.code < |t|
    ensures Counted(t, t[sym.code := t[sym.code].(fc := t[sym.code].fc + 1)], [sym])
  {
    var s := Codes([sym]);
    assert s[..0] == [];
    assert forall c: nat :: Count(s, c) == if c == sym.code then 1 else 0;
  }

  lemma {:induction false} CountedLiterals(t: seq<CtData>, cur: nat, n: nat)
    requires cur < |t|
    ensures Counted(t, t[cur := t[cur].(fc := t[cur].fc + n)], Literals(cur, n))
    decreases n
  {
    if n == 0 {
      CountedNone(t);
    } else {
      var t1 := t[cur := t[cur].(fc := t[cur].fc + 1)];
      CountedOne(t, ClSym(cur, 0));
      CountedLiterals(t1, cur, n - 1);
      hide Counted;
      CountedTwice(t, t1, t1[cur := t1[cur].(fc := t1[cur].fc + n - 1)], [ClSym(cur, 0)], Literals(cur, n - 1));
    }
  }

  // ---- scan_tree ----

  method Bump(blTree: array<CtData>, c: nat, ghost extra: nat)
    requires c < blTree.Length
    modifies blTree
    ensures Counted(old(blTree[..]), blTree[..], [ClSym(c, extra)])
  {
    hide Counted;
    CountedOne(blTree[..], ClSym(c, extra));
    blTree[c] := blTree[c].(fc := blTree[c].fc + 1);
  }

  /** Count what a run of count lengths cur after prev is sent as. */
  method CountRun(blTree: array<CtData>, cur: nat, prev: nat, count: nat, minCount: nat)
    requires blTree.Length >= BL_CODES && cur < 16 && minCount == MinCount(cur, prev)
    modifies blTree
    ensures Counted(old(blTree[..]), blTree[..], Emit(cur, prev, count))
  {
    hide Counted;
    ghost var t0 := blTree[..];
    if count < minCount {
      CountedLiterals(t0, cur, count);
      blTree[cur] := blTree[cur].(fc := blTree[cur].fc + count);
    } else if cur != 0 {
      CountedNone(t0);
      ghost var first: seq<ClSym> := [];
      if cur != prev {
        Bump(blTree, cur, 0);
        first := [ClSym(cur, 0)];
      }
      ghost var t1 := blTree[..];
      ghost var extra := if cur != prev then count - 1 - 3 else count - 3;
      Bump(blTree, REP_3_6, extra);
      CountedTwice(t0, t1, blTree[..], first, [ClSym(REP_3_6, extra)]);
      assert first + [ClSym(REP_3_6, extra)] == Emit(cur, prev, count);
    } else if count <= 10 {
      Bump(blTree, REPZ_3_10, count - 3);
    } else {
      Bump(blTree, REPZ_11_138, count - 11);
    }
  }

  /** The state at the head of the loop of scan_tree and send_tree. */
  ghost predicate Scanning(lens: seq<nat>, n: nat, prev: nat, count: nat, next: nat, maxCount: nat, minCount: nat,
                           done: seq<ClSym>)
  {
    n <= |lens| && (count > 0 ==> n < |lens| && count < maxCount) && next == NextLen(lens, n) &&
    maxCount == MaxCount(next, prev) && minCount == MinCount(next, prev) &&
    done + RleFrom(lens, n, prev, count) == Rle(lens)
  }

  lemma ScanStart(lens: seq<nat>)
    requires |lens| > 0 && forall i :: 0 <= i < |lens| ==> lens[i] < 16
    ensures Scanning(lens, 0, GUARD, 0, lens[0], if lens[0] == 0 then 138 else 7, if lens[0] == 0 then 3 else 4, [])
  {
  }

  lemma ScanPass(lens: seq<nat>, n: nat, prev: nat, count: nat, next: nat, maxCount: nat, minCount: nat,
                 done: seq<ClSym>)
    requires Scanning(lens, n, prev, count, next, maxCount, minCount, done) && n < |lens|
    requires count + 1 < maxCount && next == NextLen(lens, n + 1) && forall i :: 0 <= i < |lens| ==> lens[i] < 16
    ensures Scanning(lens, n + 1, prev, count + 1, next, maxCount, minCount, done)
  {
  }

  lemma ScanEmit(lens: seq<nat>, n: nat, prev: nat, count: nat, cur: nat, next: nat, maxCount: nat, minCount: nat,
                 done: seq<ClSym>)
    requires Scanning(lens, n, prev, count, cur, maxCount, minCount, done) && n < |lens| && next == NextLen(lens, n + 1)
    requires !(count + 1 < maxCount && cur == next)
    ensures Scanning(lens, n + 1, cur, 0, next, MaxCount(next, cur), MinCount(next, cur),
      done + Emit(cur, prev, count + 1))
  {
    hide Emit;
    var tail := RleFrom(lens, n + 1, cur, 0);
    assert done + Emit(cur, prev, count + 1) + tail == done + (Emit(cur, prev, count + 1) + tail);
  }

  lemma ScanDone(lens: seq<nat>, prev: nat, count: nat, next: nat, maxCount: nat, minCount: nat, done: seq<ClSym>)
    requires Scanning(lens, |lens|, prev, count, next, maxCount, minCount, done)
    ensures done == Rle(lens)
  {
    assert done + [] == done;
  }

  /** Set the guard and add the frequencies of the run-length symbols of this tree. */
  method ScanTree(tree: array<CtData>, maxCode: nat, blTree: array<CtData>)
    requires maxCode + 1 < tree.Length && blTree.Length >= BL_CODES && tree != blTree
    requires forall i :: 0 <= i <= maxCode ==> tree[i].dl < 16
    modifies tree, blTree
    ensures tree[..] == old(tree[..])[maxCode + 1 := old(tree[maxCode + 1]).(dl := GUARD)]
    ensures Counted(old(blTree[..]), blTree[..], Rle(old(Lengths(tree[..], maxCode + 1))))
  {
    hide RleFrom, Counted, Emit, Scanning;
    ghost var lens := Lengths(tree[..], maxCode + 1);
    ghost var b0 := blTree[..];
    var nextLen, count, prevLen := tree[0].dl, 0, GUARD;
    var maxCount, minCount := 7, 4;
    if nextLen == 0 {
      maxCount, minCount := 138, 3;
    }
    tree[maxCode + 1] := tree[maxCode + 1].(dl := GUARD);
    ghost var done: seq<ClSym> := [];
    ScanStart(lens);
    CountedNone(b0);
    for n := 0 to maxCode + 1
      invariant tree[..] == old(tree[..])[maxCode + 1 := old(tree[maxCode + 1]).(dl := GUARD)]
      invariant Scanning(lens, n, prevLen, count, nextLen, maxCount, minCount, done)
      invariant n <= maxCode ==> nextLen == lens[n]
      invariant Counted(b0, blTree[..], done)
    {
      var curLen := nextLen;
      nextLen := tree[n + 1].dl;
      assert nextLen == NextLen(lens, n + 1);
      count := count + 1;
      ScanningParts(lens, n, prevLen, count - 1, curLen, maxCount, minCount, done);
      if count < maxCount && curLen == nextLen {
        ScanPass(lens, n, prevLen, count - 1, curLen, maxCount, minCount, done);
      } else {
        ghost var b1 := blTree[..];
        CountRun(blTree, curLen, prevLen, count, minCount);
        CountedTwice(b0, b1, blTree[..], done, Emit(curLen, prevLen, count));
        ScanEmit(lens, n, prevLen, count - 1, curLen, nextLen, maxCount, minCount, done);
        done := done + Emit(curLen, prevLen, count);
        count, prevLen := 0, curLen;
        maxCount, minCount := NextLimits(nextLen, curLen);
      }
    }
    ScanDone(lens, prevLen, count, nextLen, maxCount, minCount, done);
  }

  lemma ScanningParts(lens: seq<nat>, n: nat, prev: nat, count: nat, next: nat, maxCount: nat, minCount: nat,
                      done: seq<ClSym>)
    requires Scanning(lens, n, prev, count, next, maxCount, minCount, done)
    ensures minCount == MinCount(next, prev) && maxCount == MaxCount(next, prev) && (count > 0 ==> count < maxCount)
  {
  }

  /** The limits of the next run. */
  method NextLimits(nextLen: nat, curLen: nat) returns (maxCount: nat, minCount: nat)
    ensures maxCount == MaxCount(nextLen, curLen) && minCount == MinCount(nextLen, curLen)
  {
    if nextLen == 0 {
      maxCount, minCount := 138, 3;
    } else if curLen == nextLen {
      maxCount, minCount := 6, 3;
    } else {
      maxCount, minCount := 7, 4;
    }
  }

  // ---- send_tree ----

  /** The bits of one run-length symbol: its code and its extra bits. */
  function ClSymBits(bl: seq<nat>, sym: ClSym): (b: Bits)
  {
    CodeBits(bl, sym.code) + ToBits(sym.extra, ExtraBits(sym.code))
  }

  function ClBits(bl: seq<nat>, syms: seq<ClSym>): (b: Bits)
  {
    if |syms| == 0 then [] else ClSymBits(bl, syms[0]) + ClBits(bl, syms[1..])
  }

  lemma {:induction false} ClBitsConcat(bl: seq<nat>, a: seq<ClSym>, b: seq<ClSym>)
    ensures ClBits(bl, a + b) == ClBits(bl, a) + ClBits(bl, b)
  {
    hide ClSymBits;
    if |a| == 0 {
      assert a + b == b;
    } else {
      ClBitsConcat(bl, a[1..], b);
      assert (a + b)[1..] == a[1..] + b && (a + b)[0] == a[0];
    }
  }

  lemma ClBitsOne(bl: seq<nat>, sym: ClSym)
    ensures ClBits(bl, [sym]) == ClSymBits(bl, sym)
  {
    assert ClBits(bl, [sym][1..]) == [];
  }

  /** Every symbol has a code in bl. */
  ghost predicate AllCoded(bl: seq<nat>, syms: seq<ClSym>) { forall i :: 0 <= i < |syms| ==> Coded(bl, syms[i].code) }

  /** Send one symbol: its code, and then its extra bits if it has any. */
  method SendSym(w: BitWriter, blTree: seq<CtData>, code: nat, extra: nat, ghost bl: seq<nat>)
    requires w.Valid() && HasCodes(blTree, bl) && Kraft(bl) && Coded(bl, code)
    requires extra < Pow2(ExtraBits(code))
    modifies w
    ensures w.Valid() && w.Stream() == old(w.Stream()) + ClBits(bl, [ClSym(code, extra)])
  {
    hide ClBits, HasCodes, CodeBits, Pow2, ToBits;
    HasOneCode(blTree, bl, code);
    ClBitsOne(bl, ClSym(code, extra));
    SendCode(w, blTree[code], bl, code);
    if ExtraBits(code) > 0 {
      SendValue(w, extra, ExtraBits(code));
    } else {
      NoBits(extra);
    }
  }

  lemma NoBits(v: nat)
    ensures ToBits(v, 0) == []
  {
  }

  method SendLiterals(w: BitWriter, blTree: seq<CtData>, cur: nat, count: nat, ghost bl: seq<nat>)
    requires w.Valid() && HasCodes(blTree, bl) && Kraft(bl) && (count > 0 ==> Coded(bl, cur)) && cur < 16
    modifies w
    ensures w.Valid() && w.Stream() == old(w.Stream()) + ClBits(bl, Literals(cur, count))
  {
    hide ClBits, HasCodes, Kraft, Literals;
    var n: nat := count;
    ghost var s0 := w.Stream();
    LiteralsSplit(bl, cur, count);
    while n != 0
      invariant w.Valid() && n <= count
      invariant w.Stream() + ClBits(bl, Literals(cur, n)) == s0 + ClBits(bl, Literals(cur, count))
    {
      LiteralsSplit(bl, cur, n);
      SendSym(w, blTree, cur, 0, bl);
      n := n - 1;
    }
    LiteralsSplit(bl, cur, 0);
  }

  lemma LiteralsSplit(bl: seq<nat>, cur: nat, n: nat)
    ensures n == 0 ==> ClBits(bl, Literals(cur, n)) == []
    ensures n > 0 ==> ClBits(bl, Literals(cur, n)) == ClBits(bl, [ClSym(cur, 0)]) + ClBits(bl, Literals(cur, n - 1))
  {
    hide ClSymBits;
    if n > 0 { ClBitsConcat(bl, [ClSym(cur, 0)], Literals(cur, n - 1)); }
  }

  lemma {:induction false} LiteralsAre(cur: nat, n: nat)
    ensures |Literals(cur, n)| == n && forall i :: 0 <= i < n ==> Literals(cur, n)[i] == ClSym(cur, 0)
  {
    if n > 0 { LiteralsAre(cur, n - 1); }
  }

  /** Send a run of count lengths cur after prev. */
  method SendRun(w: BitWriter, blTree: seq<CtData>, cur: nat, prev: nat, count0: nat, minCount: nat, ghost bl: seq<nat>)
    requires w.Valid() && HasCodes(blTree, bl) && Kraft(bl) && cur < 16
    requires minCount == MinCount(cur, prev) && 0 < count0 <= MaxCount(cur, prev) &&
      AllCoded(bl, Emit(cur, prev, count0))
    modifies w
    ensures w.Valid() && w.Stream() == old(w.Stream()) + ClBits(bl, Emit(cur, prev, count0))
  {
    hide ClBits, HasCodes, Kraft, Literals, Pow2;
    RepeatFits();
    var count := count0;
    if count < minCount {
      LiteralsAre(cur, count);
      assert Coded(bl, Emit(cur, prev, count)[0].code);
      SendLiterals(w, blTree, cur, count, bl);
    } else if cur != 0 {
      SendRepeat(w, blTree, cur, prev, count, bl);
    } else if count <= 10 {
      assert Coded(bl, Emit(cur, prev, count)[0].code);
      SendSym(w, blTree, REPZ_3_10, count - 3, bl);
    } else {
      assert Coded(bl, Emit(cur, prev, count)[0].code);
      SendSym(w, blTree, REPZ_11_138, count - 11, bl);
    }
  }

  /** A repeated length: once by itself unless it is the previous one, and then the repeat code. */
  method SendRepeat(w: BitWriter, blTree: seq<CtData>, cur: nat, prev: nat, count0: nat, ghost bl: seq<nat>)
    requires w.Valid() && HasCodes(blTree, bl) && Kraft(bl) && 0 < cur < 16
    requires MinCount(cur, prev) <= count0 <= MaxCount(cur, prev) && AllCoded(bl, Emit(cur, prev, count0))
    modifies w
    ensures w.Valid() && w.Stream() == old(w.Stream()) + ClBits(bl, Emit(cur, prev, count0))
  {
    hide ClBits, HasCodes, Kraft, Pow2;
    RepeatFits();
    var count := count0;
    ghost var syms := Emit(cur, prev, count0);
    assert Coded(bl, syms[0].code);
    if cur != prev {
      assert Coded(bl, syms[1].code);
      ClBitsConcat(bl, [ClSym(cur, 0)], [ClSym(REP_3_6, count - 4)]);
      assert syms == [ClSym(cur, 0)] + [ClSym(REP_3_6, count - 4)];
      SendSym(w, blTree, cur, 0, bl);
      count := count - 1;
    }
    SendSym(w, blTree, REP_3_6, count - 3, bl);
  }

  lemma RepeatFits()
    ensures Pow2(ExtraBits(REP_3_6)) == 4 && Pow2(ExtraBits(REPZ_3_10)) == 8 && Pow2(ExtraBits(REPZ_11_138)) == 128
    ensures forall c: nat :: c < 16 ==> Pow2(ExtraBits(c)) == 1
  {
    Pow2Table();
  }

  /** Send one tree; the guard behind it has been set by ScanTree. */
  method SendTree(w: BitWriter, tree: seq<CtData>, maxCode: nat, blTree: seq<CtData>, ghost bl: seq<nat>)
    requires w.Valid() && HasCodes(blTree, bl) && Kraft(bl)
    requires maxCode + 1 < |tree| && tree[maxCode + 1].dl == GUARD && forall i :: 0 <= i <= maxCode ==> tree[i].dl < 16
    requires AllCoded(bl, Rle(Lengths(tree, maxCode + 1)))
    modifies w
    ensures w.Valid() && w.Stream() == old(w.Stream()) + ClBits(bl, Rle(Lengths(tree, maxCode + 1)))
  {
    hide RleFrom, Emit, Scanning, ClBits, HasCodes, Kraft, AllCoded;
    ghost var lens := Lengths(tree, maxCode + 1);
    var nextLen, count, prevLen := tree[0].dl, 0, GUARD;
    var maxCount, minCount := 7, 4;
    if nextLen == 0 {
      maxCount, minCount := 138, 3;
    }
    ghost var done: seq<ClSym> := [];
    ghost var s0 := w.Stream();
    ScanStart(lens);
    ClBitsNone(bl);
    for n := 0 to maxCode + 1
      invariant Scanning(lens, n, prevLen, count, nextLen, maxCount, minCount, done)
      invariant n <= maxCode ==> nextLen == lens[n]
      invariant w.Valid() && w.Stream() == s0 + ClBits(bl, done)
    {
      var curLen := nextLen;
      nextLen := tree[n + 1].dl;
      assert nextLen == NextLen(lens, n + 1);
      count := count + 1;
      ScanningParts(lens, n, prevLen, count - 1, curLen, maxCount, minCount, done);
      if count < maxCount && curLen == nextLen {
        ScanPass(lens, n, prevLen, count - 1, curLen, maxCount, minCount, done);
      } else {
        ScanEmit(lens, n, prevLen, count - 1, curLen, nextLen, maxCount, minCount, done);
        PartCoded(bl, lens, n, prevLen, count, curLen, nextLen, MaxCount(nextLen, curLen), MinCount(nextLen, curLen),
          done);
        SendRun(w, blTree, curLen, prevLen, count, minCount, bl);
        ClBitsConcat(bl, done, Emit(curLen, prevLen, count));
        done := done + Emit(curLen, prevLen, count);
        count, prevLen := 0, curLen;
        maxCount, minCount := NextLimits(nextLen, curLen);
      }
    }
    ScanDone(lens, prevLen, count, nextLen, maxCount, minCount, done);
  }

  lemma ClBitsNone(bl: seq<nat>)
    ensures ClBits(bl, []) == []
  {
  }

  lemma PartCoded(bl: seq<nat>, lens: seq<nat>, n: nat, prev: nat, count: nat, cur: nat, next: nat, maxCount: nat,
                  minCount: nat, done: seq<ClSym>)
    requires AllCoded(bl, Rle(lens))
    requires Scanning(lens, n + 1, cur, 0, next, maxCount, minCount, done + Emit(cur, prev, count))
    ensures AllCoded(bl, Emit(cur, prev, count))
  {
    hide Emit, RleFrom;
    var e := Emit(cur, prev, count);
    forall i | 0 <= i < |e|
      ensures Coded(bl, e[i].code)
    {
      assert e[i] == Rle(lens)[|done| + i];
    }
  }
}
