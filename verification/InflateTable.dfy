/** inftrees.c zng_inflate_table: the whole routine. */
module InflateTable {
  import opened Arith
  import opened Bits
  import opened Counting
  import opened Canonical
  import opened SortedCode
  import opened GenCodes
  import opened TableSpec
  import opened TableFill
  import opened TableLemmas
  import opened TableSub
  import opened TableEnough
  import opened TablePrep

  /** The table space that the caller provides. */
  function Capacity(ty: CodeType, bits: nat): (n: nat)
  {
    match ty case CODES => Pow2(bits) case LENS => ENOUGH_LENS case DISTS => ENOUGH_DISTS
  }

  /** The sub-table of prefix p ends before rank e and no code in it is longer than root + curr. */
  ghost predicate SubEnd(lens: seq<nat>, root: nat, p: Bits, curr: nat, e: nat)
    requires Bounded(lens) && root <= MAX_BITS && |p| == root
  {
    Offs(lens, root + 1) < e <= Symbols(lens) && PosAt(lens, e) == Pos(p) + Size(root) &&
    LenAt(lens, e - 1) == root + curr && 1 <= curr && root + curr <= MAX_BITS
  }

  /** The state of the loop when symbol i is about to be entered. */
  datatype Cursor = Cursor(i: nat, drop: nat, curr: nat, next: nat, used: nat, low: int, p: Bits, e: nat)

  ghost predicate Inv(t: seq<Entry>, root: nat, ty: CodeType, lens: seq<nat>, st: Cursor)
  {
    Kraft(lens) && |lens| <= MaxSymbols(ty) && 1 <= root <= MAX_BITS && Pow2(root) <= |t| &&
    st.i < Symbols(lens) && Entered(t, root, ty, lens, st.i) &&
    Links(t, root, lens, st.i, st.next, st.curr, st.p) &&
    if LenAt(lens, st.i) <= root then
      st.drop == 0 && st.curr == root && st.next == 0 && st.used == Pow2(root) && st.low == -1
    else
      st.drop == root && Current(t, root, st.next, st.curr, st.p) && st.used == st.next + Pow2(st.curr) &&
      st.low == FromBits(st.p) && Prefix(lens, root, st.i) == st.p && LenAt(lens, st.i) <= root + st.curr &&
      SubEnd(lens, root, st.p, st.curr, st.e) && Space(lens, root, st.used, st.curr, st.e)
  }

  /** The same once symbol i has been entered. */
  ghost predicate AfterFill(t: seq<Entry>, root: nat, ty: CodeType, lens: seq<nat>, st: Cursor)
  {
    Kraft(lens) && |lens| <= MaxSymbols(ty) && 1 <= root <= MAX_BITS && Pow2(root) <= |t| &&
    st.i < Symbols(lens) && Entered(t, root, ty, lens, st.i + 1) &&
    Links(t, root, lens, st.i + 1, st.next, st.curr, st.p) &&
    if LenAt(lens, st.i) <= root then
      st.drop == 0 && st.curr == root && st.next == 0 && st.used == Pow2(root) && st.low == -1
    else
      st.drop == root && Current(t, root, st.next, st.curr, st.p) && st.used == st.next + Pow2(st.curr) &&
      st.low == FromBits(st.p) && Prefix(lens, root, st.i) == st.p &&
      SubEnd(lens, root, st.p, st.curr, st.e) && Space(lens, root, st.used, st.curr, st.e)
  }

  lemma LinksShort(t: seq<Entry>, root: nat, lens: seq<nat>, i: nat, next: nat, curr: nat, p: Bits)
    requires i <= Symbols(lens) && Pow2(root) <= |t| && (i > 0 ==> LenAt(lens, i - 1) <= root)
    ensures Links(t, root, lens, i, next, curr, p)
  {
    hide LenAt, Pow2, FromBits, Symbols;
    forall j | 0 <= j < i
      ensures LenAt(lens, j) <= root
    {
      LenAtMono(lens, j, i - 1);
    }
  }

  lemma FillKeeps(t: seq<Entry>, t1: seq<Entry>, root: nat, ty: CodeType, lens: seq<nat>, st: Cursor)
    requires Inv(t, root, ty, lens, st)
    requires st.drop <= LenAt(lens, st.i)
    requires Filled(t, t1, st.next, st.curr, WordAt(lens, st.i)[st.drop..],
                    EntryFor(ty, SymAt(lens, st.i), LenAt(lens, st.i) - st.drop), 0)
    ensures AfterFill(t1, root, ty, lens, st)
  {
    hide LenAt, Pow2, FromBits, Symbols, Filled, Entered, Kraft, SubEnd, Space, EntryFor, WordAt, Prefix, Current;
    if LenAt(lens, st.i) <= root {
      assert WordAt(lens, st.i)[0..] == WordAt(lens, st.i);
      FillShort(t, t1, root, ty, lens, st.i);
      SameSize(t, t1, root, ty, lens, st);
      LinksShort(t1, root, lens, st.i + 1, st.next, st.curr, st.p);
    } else {
      FillLong(t, t1, root, ty, lens, st.i, st.next, st.curr, st.p);
      SameSize(t, t1, root, ty, lens, st);
    }
  }

  lemma SameSize(t: seq<Entry>, t1: seq<Entry>, root: nat, ty: CodeType, lens: seq<nat>, st: Cursor)
    requires Inv(t, root, ty, lens, st) && st.drop <= LenAt(lens, st.i)
    requires Filled(t, t1, st.next, st.curr, WordAt(lens, st.i)[st.drop..],
                    EntryFor(ty, SymAt(lens, st.i), LenAt(lens, st.i) - st.drop), 0)
    ensures |t1| == |t|
  {
  }

  /** Create the table entry of the next symbol and replicate it. */
  method EnterSymbol(table: array<Entry>, root: nat, ty: CodeType, lens: seq<nat>, sym: nat, len: nat, huff: nat,
                     drop: nat, curr: nat, next: nat, ghost st: Cursor)
    requires Inv(table[..], root, ty, lens, st)
    requires sym == SymAt(lens, st.i) && len == LenAt(lens, st.i) && huff == FromBits(WordAt(lens, st.i))
    requires drop == st.drop && curr == st.curr && next == st.next
    modifies table
    ensures AfterFill(table[..], root, ty, lens, st)
  {
    hide LenAt, Pow2, FromBits, Symbols, Filled, Entered, Links, Kraft, SubEnd, Space, EntryFor, WordAt, Prefix;
    var here := EntryFor(ty, sym, len - drop);
    ghost var w := WordAt(lens, st.i);
    HuffParts(w, drop);
    Fill(table, next, curr, ShiftRight(huff, drop), len - drop, here, w[drop..]);
    FillKeeps(old(table[..]), table[..], root, ty, lens, st);
  }

  /** Going on in the same table. */
  lemma StayKeeps(t: seq<Entry>, root: nat, ty: CodeType, lens: seq<nat>, st: Cursor)
    requires AfterFill(t, root, ty, lens, st) && st.i + 1 < Symbols(lens)
    requires LenAt(lens, st.i + 1) > root ==> FromBits(Prefix(lens, root, st.i + 1)) == st.low
    ensures Inv(t, root, ty, lens, st.(i := st.i + 1))
  {
    hide LenAt, Pow2, Symbols, Entered, Links, Space, WordAt, Prefix, Pos, PosAt, Size, Offs, Below, Bounded, FromBits;
    var i := st.i + 1;
    LenAtMono(lens, st.i, i);
    if LenAt(lens, i) > root {
      FromBitsInjective(Prefix(lens, root, i), st.p);
      PrefixRange(lens, root, i);
      if i >= st.e {
        PosMono(lens, st.e, i);
      }
      LenAtMono(lens, i, st.e - 1);
    }
  }

  /** A new sub-table is needed. */
  ghost predicate NeedsSub(root: nat, lens: seq<nat>, st: Cursor)
    requires st.i + 1 < Symbols(lens)
  {
    root < LenAt(lens, st.i + 1) && FromBits(Prefix(lens, root, st.i + 1)) != st.low
  }

  lemma NewPrefixNeeded(t: seq<Entry>, root: nat, ty: CodeType, lens: seq<nat>, st: Cursor)
    requires st.i + 1 < Symbols(lens) && NeedsSub(root, lens, st) && AfterFill(t, root, ty, lens, st)
    ensures LenAt(lens, st.i) <= root || Prefix(lens, root, st.i) != Prefix(lens, root, st.i + 1)
    ensures PosAt(lens, st.i + 1) == Pos(Prefix(lens, root, st.i + 1))
    ensures Pow2(root) <= st.next + Pow2(st.curr) == st.used
  {
    hide LenAt, Pow2, FromBits, Symbols, Entered, Links, SubEnd, Space, WordAt, Prefix, Pos, PosAt, Size, Offs, Below,
      Bounded;
    SubStart(lens, root, st.i + 1);
  }

  /** The next sub-table starts after the current one ends, at least as deep as the current one ends. */
  lemma SubAfter(t: seq<Entry>, root: nat, ty: CodeType, lens: seq<nat>, st: Cursor)
    requires AfterFill(t, root, ty, lens, st) && st.i + 1 < Symbols(lens) && NeedsSub(root, lens, st)
    requires LenAt(lens, st.i) > root
    ensures st.e <= st.i + 1 && st.curr <= LenAt(lens, st.i + 1) - root
  {
    hide LenAt, Pow2, Symbols, Entered, Links, Space, WordAt, Prefix, Pos, PosAt, Size, Offs, Below, Bounded, FromBits,
      Current;
    var i := st.i + 1;
    NewPrefixNeeded(t, root, ty, lens, st);
    PrefixApart(Prefix(lens, root, i), st.p);
    PrefixRange(lens, root, st.i);
    PosMono(lens, st.i, i);
    if i < st.e { PosMono(lens, i, st.e); }
    LenAtMono(lens, st.e - 1, i);
  }

  lemma SpaceNext(t: seq<Entry>, root: nat, ty: CodeType, lens: seq<nat>, st: Cursor, curr: nat, e: nat)
    requires AfterFill(t, root, ty, lens, st) && st.i + 1 < Symbols(lens) && NeedsSub(root, lens, st)
    requires SubSize(lens, root, st.i + 1, curr, e)
    ensures Space(lens, root, st.used + Pow2(curr), curr, e)
    ensures SubEnd(lens, root, Prefix(lens, root, st.i + 1), curr, e)
  {
    hide LenAt, Pow2, Symbols, Entered, Links, Space, WordAt, Prefix, Pos, PosAt, Size, Offs, Below, Bounded, FromBits,
      Current;
    var i := st.i + 1;
    NewPrefixNeeded(t, root, ty, lens, st);
    assert Offs(lens, root + 1) <= i by {
      LenAtOffs(lens, i, LenAt(lens, i));
      OffsMono(lens, root + 1, LenAt(lens, i));
    }
    if LenAt(lens, st.i) <= root {
      FirstSub(lens, root, i, curr, e);
    } else {
      SubAfter(t, root, ty, lens, st);
      NextSub(lens, root, i, curr, e, st.used, st.curr, st.e);
    }
  }

  lemma NewSubKeeps(t: seq<Entry>, t1: seq<Entry>, root: nat, ty: CodeType, lens: seq<nat>, st: Cursor, curr: nat,
                    e: nat)
    requires AfterFill(t, root, ty, lens, st) && st.i + 1 < Symbols(lens) && NeedsSub(root, lens, st)
    requires SubSize(lens, root, st.i + 1, curr, e)
    requires st.used + Pow2(curr) <= |t|
    requires t1 == t[FromBits(Prefix(lens, root, st.i + 1)) := Entry(root, curr, st.used)]
    ensures Inv(t1, root, ty, lens,
      Cursor(st.i + 1, root, curr, st.used, st.used + Pow2(curr),
             FromBits(Prefix(lens, root, st.i + 1)), Prefix(lens, root, st.i + 1), e))
  {
    hide LenAt, Pow2, Symbols, Entered, Links, Space, WordAt, Prefix, Pos, PosAt, Size, Offs, Below, Bounded, FromBits,
      Current, SubEnd;
    NewPrefixNeeded(t, root, ty, lens, st);
    SpaceNext(t, root, ty, lens, st, curr, e);
    LinkKeeps(t, t1, root, ty, lens, st.i + 1, st.next, st.curr, st.p, st.used, curr);
  }

  // ---- stepping to the next symbol ----

  lemma NextCount(count: seq<nat>, lens: seq<nat>, i: nat, max: nat)
    requires Bounded(lens) && i < Symbols(lens) && Remaining(count, lens, i, LenAt(lens, i))
    requires max <= MAX_BITS && Offs(lens, max + 1) == Symbols(lens) && Count(lens, max) > 0
    ensures count[LenAt(lens, i)] > 0
    ensures count[LenAt(lens, i)] == 1 ==> (LenAt(lens, i) == max <==> i + 1 == Symbols(lens))
    ensures count[LenAt(lens, i)] != 1 ==> i + 1 < Symbols(lens) && LenAt(lens, i + 1) == LenAt(lens, i)
    ensures i + 1 < Symbols(lens) ==>
      var l := LenAt(lens, i);
      Remaining(count[l := count[l] - 1], lens, i + 1, LenAt(lens, i + 1))
  {
    hide LenAt, Symbols, Offs, Count;
    var l := LenAt(lens, i);
    LenAtOffs(lens, i, l);
    OffsStep(lens, max);
    OffsMono(lens, l + 1, MAX_BITS + 1);
    assert Offs(lens, MAX_BITS + 1) == Symbols(lens) by { SymbolsDef(lens); }
    if i + 1 < Symbols(lens) {
      LenAtOffs(lens, i + 1, l);
      LenAtMono(lens, i, i + 1);
      var m := LenAt(lens, i + 1);
      LenAtOffs(lens, i + 1, m);
      NextRemaining(count, lens, i, l, m);
    }
    if l < max { OffsMono(lens, l + 1, max); }
    if l > max { OffsMono(lens, max + 1, l); }
  }

  lemma OffsStep(lens: seq<nat>, l: nat)
    ensures l >= 1 ==> Offs(lens, l + 1) == Offs(lens, l) + Count(lens, l)
    ensures l == 0 ==> Offs(lens, l + 1) == 0
  {
  }

  lemma SymbolsDef(lens: seq<nat>)
    ensures Offs(lens, MAX_BITS + 1) == Symbols(lens)
  {
  }

  lemma NextRemaining(count: seq<nat>, lens: seq<nat>, i: nat, l: nat, m: nat)
    requires Remaining(count, lens, i, l) && 1 <= l <= m <= MAX_BITS
    requires Offs(lens, l) <= i < Offs(lens, l + 1) && Offs(lens, m) <= i + 1
    ensures count[l] > 0 && Remaining(count[l := count[l] - 1], lens, i + 1, m)
  {
    hide Offs;
    forall k | m <= k <= MAX_BITS && l < k
      ensures i < Offs(lens, k)
    {
      OffsMono(lens, l + 1, k);
    }
  }

  lemma NextHuff(lens: seq<nat>, i: nat)
    requires Kraft(lens) && i < Symbols(lens)
    ensures 2 * PosAt(lens, i) + ShiftRight(0x8000, LenAt(lens, i) - 1) == 2 * PosAt(lens, i + 1)
    ensures i + 1 < Symbols(lens) ==> 2 * PosAt(lens, i + 1) < 0x1_0000
    ensures i + 1 < Symbols(lens) ==> BitReverse16(2 * PosAt(lens, i + 1)) == FromBits(WordAt(lens, i + 1))
  {
    hide BitReverse16, FromBits, Codeword, Below, Offs, Bounded, ShiftRight, Symbols, PosAt, LenAt, Pow2;
    PosStep(lens, i);
    HighBit(LenAt(lens, i));
    if i + 1 < Symbols(lens) {
      HuffIsWord(lens, SymAt(lens, i + 1));
      PosAtDef(lens, i + 1);
    }
  }

  lemma PosAtDef(lens: seq<nat>, i: nat)
    requires Bounded(lens) && i < Symbols(lens)
    ensures PosAt(lens, i) == Start(lens, SymAt(lens, i))
  {
  }

  lemma HighBit(l: nat)
    requires 1 <= l <= MAX_BITS
    ensures ShiftRight(0x8000, l - 1) == 2 * Size(l)
  {
    Pow2Table();
    ShiftPow(15, l - 1);
  }

  lemma {:induction false} ShiftPow(n: nat, k: nat)
    requires k <= n
    ensures ShiftRight(Pow2(n), k) == Pow2(n - k)
  {
    if k > 0 { ShiftPow(n - 1, k - 1); }
  }

  lemma StartHuff(lens: seq<nat>)
    requires Kraft(lens) && 0 < Symbols(lens)
    ensures PosAt(lens, 0) == 0 && BitReverse16(0) == FromBits(WordAt(lens, 0))
  {
    PosZero(lens);
    HuffIsWord(lens, SymAt(lens, 0));
  }

  /** The tables of this type, size and root never outgrow their space. */
  ghost predicate Roomy(ty: CodeType, lens: seq<nat>, root: nat, max: nat)
  {
    match ty
    case CODES => max <= root
    case LENS => max <= root <= 10 || (Symbols(lens) <= 286 && root == 10)
    case DISTS => max <= root <= 9 || (Symbols(lens) <= 30 && root == 9)
  }

  lemma NoOverflow(ty: CodeType, lens: seq<nat>, root: nat, max: nat, p: Bits, used: nat, curr: nat, e: nat)
    requires Complete(lens) && Roomy(ty, lens, root, max) && root < max && |p| == root <= MAX_BITS
    requires SubEnd(lens, root, p, curr, e) && Space(lens, root, used, curr, e)
    ensures ty == LENS ==> used <= ENOUGH_LENS
    ensures ty == DISTS ==> used <= ENOUGH_DISTS
  {
    hide LenAt, Pow2, Symbols, Space, Pos, PosAt, Size, Offs, Bounded, Below;
    if ty == LENS {
      EnoughLens(lens, used, curr, e);
    } else if ty == DISTS {
      EnoughDists(lens, used, curr, e);
    }
  }

  predicate Overflows(ty: CodeType, used: nat)
  {
    (ty == LENS && used > ENOUGH_LENS) || (ty == DISTS && used > ENOUGH_DISTS)
  }

  lemma LenAtMax(lens: seq<nat>, i: nat, max: nat)
    requires i < Symbols(lens) && Offs(lens, max + 1) == Symbols(lens)
    ensures LenAt(lens, i) <= max
  {
    LenAtOffs(lens, i, LenAt(lens, i));
    if LenAt(lens, i) > max { OffsMono(lens, max + 1, LenAt(lens, i)); }
  }

  lemma SubFits(lens: seq<nat>, root: nat, i: nat)
    requires Complete(lens) && i < Symbols(lens) && root <= LenAt(lens, i)
    requires PosAt(lens, i) == Pos(Prefix(lens, root, i))
    ensures PosAt(lens, i) + Size(root) <= PosAt(lens, Symbols(lens))
  {
    var p := Prefix(lens, root, i);
    FromMsbBound(p);
    MulLt(FromMsb(p), Pow2(root), Size(root));
    Pow2Add(root, MAX_BITS - root);
  }

  /** A new sub-table, of prefix p, is due for the symbol of rank st.i + 1. */
  ghost predicate SubDue(t: seq<Entry>, root: nat, ty: CodeType, lens: seq<nat>, st: Cursor, max: nat, p: Bits)
  {
    st.i + 1 < Symbols(lens) && NeedsSub(root, lens, st) &&
    p == Prefix(lens, root, st.i + 1) && AfterFill(t, root, ty, lens, st) &&
    Complete(lens) && max <= MAX_BITS && Offs(lens, max + 1) == Symbols(lens) &&
    Capacity(ty, root) <= |t| && (ty == CODES ==> max <= root)
  }

  /** The state after a new sub-table with curr index bits has been linked. */
  ghost function NextState(root: nat, st: Cursor, p: Bits, curr: nat, e: nat): (st': Cursor)
  {
    Cursor(st.i + 1, root, curr, st.used, st.used + Pow2(curr), FromBits(p), p, e)
  }

  lemma SubCallable(t: seq<Entry>, root: nat, ty: CodeType, lens: seq<nat>, st: Cursor, max: nat, p: Bits)
    requires SubDue(t, root, ty, lens, st, max, p)
    ensures Kraft(lens) && st.i + 1 < Symbols(lens) && Offs(lens, max + 1) == Symbols(lens) &&
      1 <= root < LenAt(lens, st.i + 1) <= max <= MAX_BITS
    ensures PosAt(lens, st.i + 1) + Size(root) <= PosAt(lens, Symbols(lens))
    ensures st.next + Pow2(st.curr) == st.used
  {
    hide LenAt, Pow2, Symbols, Entered, Links, Space, WordAt, Prefix, Pos, PosAt, Size, Offs, Bounded, Below, FromBits,
      Current, SubEnd;
    NewPrefixNeeded(t, root, ty, lens, st);
    SubFits(lens, root, st.i + 1);
    LenAtMax(lens, st.i + 1, max);
  }

  lemma SubLinked(t: seq<Entry>, root: nat, ty: CodeType, lens: seq<nat>, st: Cursor, max: nat, p: Bits, huff: nat,
                  curr: nat, e: nat)
    requires SubDue(t, root, ty, lens, st, max, p) && huff == FromBits(WordAt(lens, st.i + 1))
    requires SubSize(lens, root, st.i + 1, curr, e)
    ensures Roomy(ty, lens, root, max) ==> !Overflows(ty, st.used + Pow2(curr))
    ensures !Overflows(ty, st.used + Pow2(curr)) ==>
      Low(huff, root) < |t| && st.used < 0x1_0000 &&
      Inv(t[Low(huff, root) := Entry(root, curr, st.used)], root, ty, lens, NextState(root, st, p, curr, e))
  {
    hide LenAt, Pow2, Symbols, Entered, Links, Space, WordAt, Prefix, Pos, PosAt, Size, Offs, Bounded, Below, FromBits,
      Current, SubEnd, Inv, Low;
    SubCallable(t, root, ty, lens, st, max, p);
    SpaceNext(t, root, ty, lens, st, curr, e);
    if Roomy(ty, lens, root, max) {
      NoOverflow(ty, lens, root, max, Prefix(lens, root, st.i + 1), st.used + Pow2(curr), curr, e);
    }
    HuffPrefix(lens, root, st.i + 1);
    if !Overflows(ty, st.used + Pow2(curr)) {
      NewSubKeeps(t, t[Low(huff, root) := Entry(root, curr, st.used)], root, ty, lens, st, curr, e);
    }
  }

  /** Create a new sub-table. */
  method NewSubTable(ty: CodeType, table: array<Entry>, root: nat, max: nat, count: seq<nat>, len: nat, huff: nat,
                     next: nat, used: nat, ghost lens: seq<nat>, ghost st: Cursor, ghost p: Bits)
    returns (ret: int, curr': nat, ghost e: nat)
    requires SubDue(table[..], root, ty, lens, st, max, p) && next == st.used == used
    requires len == LenAt(lens, st.i + 1) && Remaining(count, lens, st.i + 1, len)
    requires huff == FromBits(WordAt(lens, st.i + 1))
    modifies table
    ensures ret == if Overflows(ty, used + Pow2(curr')) then 1 else 0
    ensures Roomy(ty, lens, root, max) ==> ret == 0
    ensures ret == 0 ==> Inv(table[..], root, ty, lens, NextState(root, st, p, curr', e))
  {
    hide LenAt, Pow2, Symbols, WordAt, PosAt, Size, Offs, Bounded, Below, FromBits, Inv, Roomy, Remaining, SubSize, Low,
      SubDue, NextState;
    SubCallable(table[..], root, ty, lens, st, max, p);
    curr', e := SubTableBits(count, len, root, max, lens, st.i + 1);
    SubLinked(table[..], root, ty, lens, st, max, p, huff, curr', e);
    if Overflows(ty, used + Pow2(curr')) {
      ret := 1;
    } else {
      table[Low(huff, root)] := Entry(root, curr', next % 0x1_0000);
      ret := 0;
    }
  }

  lemma HuffPrefix(lens: seq<nat>, root: nat, i: nat)
    requires i < Symbols(lens) && root <= LenAt(lens, i)
    ensures Low(FromBits(WordAt(lens, i)), root) == FromBits(Prefix(lens, root, i))
  {
    HuffParts(WordAt(lens, i), root);
  }

  // ---- the loop over all symbols ----

  /** The local variables when symbol st.i is about to be entered. */
  ghost predicate Ready(t: seq<Entry>, root: nat, ty: CodeType, lens: seq<nat>, st: Cursor, len: nat, rhuff: nat,
                        huff: nat, count: seq<nat>)
  {
    Inv(t, root, ty, lens, st) && st.i < Symbols(lens) && len == LenAt(lens, st.i) && Bounded(lens) &&
    rhuff == 2 * PosAt(lens, st.i) && huff == FromBits(WordAt(lens, st.i)) && Remaining(count, lens, st.i, len)
  }

  /** What the loop may rely on throughout. */
  ghost predicate Fixed(ty: CodeType, lens: seq<nat>, work: seq<nat>, root: nat, max: nat, size: nat)
  {
    Kraft(lens) && |lens| <= MaxSymbols(ty) && IsSorted(work, lens) && 1 <= root <= MAX_BITS && max <= MAX_BITS &&
    0 < Symbols(lens) && Offs(lens, max + 1) == Symbols(lens) && Count(lens, max) > 0 &&
    (Complete(lens) || max <= root) && Capacity(ty, root) <= size &&
    (ty == CODES ==> max <= root)
  }

  lemma NextSymbol(t: seq<Entry>, root: nat, ty: CodeType, lens: seq<nat>, st: Cursor, len: nat, rhuff: nat, huff: nat,
                   count: seq<nat>, max: nat, work: seq<nat>, size: nat)
    requires Ready(t, root, ty, lens, st, len, rhuff, huff, count) && Fixed(ty, lens, work, root, max, size)
    ensures 1 <= len <= MAX_BITS && |count| == MAX_BITS + 1 && count[len] > 0
    ensures st.i < |work| && work[st.i] == SymAt(lens, st.i)
    ensures count[len] == 1 && len == max ==> st.i + 1 == Symbols(lens)
    ensures count[len] != 1 || len != max ==> st.i + 1 < Symbols(lens)
    ensures count[len] != 1 ==> LenAt(lens, st.i + 1) == len
    ensures st.i + 1 < Symbols(lens) ==> st.i + 1 < |work| && work[st.i + 1] == SymAt(lens, st.i + 1)
    ensures st.i + 1 < Symbols(lens) ==>
      Remaining(count[len := count[len] - 1], lens, st.i + 1, LenAt(lens, st.i + 1))
    ensures (rhuff + ShiftRight(0x8000, len - 1)) % 0x1_0000 == 2 * PosAt(lens, st.i + 1) % 0x1_0000
    ensures st.i + 1 < Symbols(lens) ==>
      2 * PosAt(lens, st.i + 1) < 0x1_0000 &&
      BitReverse16(2 * PosAt(lens, st.i + 1)) == FromBits(WordAt(lens, st.i + 1))
  {
    hide Inv, LenAt, PosAt, FromBits, WordAt, Offs, Count, Below, Pow2, Bounded, BitReverse16, Symbols;
    NextCount(count, lens, st.i, max);
    NextHuff(lens, st.i);
  }

  lemma AllEntered(t: seq<Entry>, root: nat, ty: CodeType, lens: seq<nat>)
    requires Bounded(lens) && |lens| <= MaxSymbols(ty) && Entered(t, root, ty, lens, Symbols(lens))
    ensures forall s :: Coded(lens, s) ==> Placed(t, root, ty, lens, s)
  {
    hide Placed, Symbols, Rank, Bounded;
    forall s | Coded(lens, s)
      ensures Placed(t, root, ty, lens, s)
    {
      SymAtRank(lens, s);
    }
  }

  lemma {:induction false} Reverse0(n: nat)
    ensures FromMsb(ToBits(0, n)) == 0
  {
    ToBitsPadded(0, 0, n);
    assert ToBits(0, 0) + Zeros(n) == Zeros(n);
    FromMsbZeros(n);
  }

  lemma ReverseTop()
    ensures BitReverse16(0x8000) == 1
  {
    Pow2Table();
    var z := Zeros(15);
    assert FromBits([true]) == 1 && FromMsb([true]) == 1;
    FromMsbZeros(15);
    FromBitsConcat(z, [true]);
    ToBitsFromBits(z + [true]);
    FromMsbConcat(z, [true]);
  }

  /** Where huff ends: 0 for a complete set, 1 for a set of one code of one bit. */
  lemma FinalHuff(lens: seq<nat>)
    requires Kraft(lens) && Symbols(lens) > 0 && (Complete(lens) || Offs(lens, 2) == Symbols(lens))
    ensures BitReverse16(2 * PosAt(lens, Symbols(lens)) % 0x1_0000) == if Complete(lens) then 0 else 1
  {
    hide Bounded, Count, BitReverse16;
    Pow2Table();
    EndPos(lens);
    if Complete(lens) {
      Reverse16Zero();
    } else {
      SameOffsSameBelow(lens, 2, MAX_BITS + 1);
      assert Below(lens, 2) == Count(lens, 1) * Size(1);
      ReverseTop();
    }
  }

  lemma Reverse16Zero()
    ensures BitReverse16(0) == 0
  {
    Reverse0(16);
  }

  lemma InitReady(t: seq<Entry>, root: nat, ty: CodeType, lens: seq<nat>, count: seq<nat>, max: nat, work: seq<nat>,
                  size: nat)
    requires Fixed(ty, lens, work, root, max, size) && size == |t| && !Overflows(ty, Pow2(root))
    requires LenAt(lens, 0) <= root && Remaining(count, lens, 0, LenAt(lens, 0))
    ensures Ready(t, root, ty, lens, Cursor(0, 0, root, 0, Pow2(root), -1, [], 0), LenAt(lens, 0), 0, 0, count)
  {
    hide LenAt, FromBits, WordAt, Offs, Count, Below, Pow2, Bounded, Symbols;
    StartHuff(lens);
    Reverse16Zero();
    LinksShort(t, root, lens, 0, 0, root, []);
  }

  lemma ReadyParts(t: seq<Entry>, root: nat, ty: CodeType, lens: seq<nat>, st: Cursor, len: nat, rhuff: nat, huff: nat,
                   count: seq<nat>)
    requires Ready(t, root, ty, lens, st, len, rhuff, huff, count)
    ensures Inv(t, root, ty, lens, st) && st.i < Symbols(lens) && len == LenAt(lens, st.i) && Bounded(lens) &&
      Kraft(lens)
    ensures huff == FromBits(WordAt(lens, st.i)) && |lens| <= MaxSymbols(ty) && 1 <= root <= MAX_BITS
  {
    hide LenAt, FromBits, WordAt, Offs, Count, Below, Pow2, Bounded, Symbols, PosAt, Entered, Links;
  }

  /** When the last symbol is in, all are, and a set without long codes never left the root table. */
  lemma LastEntered(t: seq<Entry>, root: nat, ty: CodeType, lens: seq<nat>, st: Cursor, max: nat)
    requires AfterFill(t, root, ty, lens, st) && st.i + 1 == Symbols(lens) && Offs(lens, max + 1) == Symbols(lens)
    ensures Entered(t, root, ty, lens, Symbols(lens)) && Pow2(root) <= st.used
    ensures max <= root ==> st.next == 0 && st.drop == 0
  {
    hide LenAt, FromBits, WordAt, Offs, Count, Below, Pow2, Bounded, Symbols, PosAt, Entered, Links, Prefix, Pos, Space;
    LenAtMax(lens, st.i, max);
  }

  lemma SubDueNow(t: seq<Entry>, root: nat, ty: CodeType, lens: seq<nat>, st: Cursor, max: nat, work: seq<nat>,
                  huff: nat, low: int)
    requires st.i + 1 < Symbols(lens) && huff == FromBits(WordAt(lens, st.i + 1)) && low == st.low
    requires root < LenAt(lens, st.i + 1) && Low(huff, root) != low
    requires AfterFill(t, root, ty, lens, st) && Fixed(ty, lens, work, root, max, |t|)
    ensures SubDue(t, root, ty, lens, st, max, Prefix(lens, root, st.i + 1))
    ensures st.next + Pow2(st.curr) == st.used && Low(huff, root) == FromBits(Prefix(lens, root, st.i + 1))
  {
    hide LenAt, FromBits, WordAt, Offs, Count, Below, Pow2, Bounded, Symbols, PosAt, Entered, Links, Prefix, Pos, Space,
      SubEnd, Low;
    HuffPrefix(lens, root, st.i + 1);
    LenAtMax(lens, st.i + 1, max);
  }

  lemma StayNow(t: seq<Entry>, root: nat, ty: CodeType, lens: seq<nat>, st: Cursor, huff: nat, low: int)
    requires AfterFill(t, root, ty, lens, st) && st.i + 1 < Symbols(lens)
    requires huff == FromBits(WordAt(lens, st.i + 1)) && low == st.low
    requires !(root < LenAt(lens, st.i + 1) && Low(huff, root) != low)
    ensures Inv(t, root, ty, lens, st.(i := st.i + 1))
  {
    hide LenAt, FromBits, WordAt, Below, Pow2, Bounded, Symbols, Prefix, Low, AfterFill, Inv;
    if root < LenAt(lens, st.i + 1) { HuffPrefix(lens, root, st.i + 1); }
    StayKeeps(t, root, ty, lens, st);
  }

  /** The rest of a pass, once the symbol of rank st.i is entered and is not the last one. */
  method StepTables(ty: CodeType, table: array<Entry>, root: nat, max: nat, count: seq<nat>, len: nat, rhuff: nat,
                    huff: nat, drop: nat, curr: nat, next: nat, used: nat, low: int, ghost lens: seq<nat>,
                    ghost work: seq<nat>, ghost st: Cursor)
    returns (ret: int, drop': nat, curr': nat, next': nat, used': nat, low': int, ghost st': Cursor)
    requires AfterFill(table[..], root, ty, lens, st) && st.i + 1 < Symbols(lens)
    requires Fixed(ty, lens, work, root, max, table.Length)
    requires st == Cursor(st.i, drop, curr, next, used, low, st.p, st.e)
    requires len == LenAt(lens, st.i + 1) && Remaining(count, lens, st.i + 1, len)
    requires huff == FromBits(WordAt(lens, st.i + 1)) && rhuff == 2 * PosAt(lens, st.i + 1)
    modifies table
    ensures ret == 0 || ret == 1
    ensures Roomy(ty, lens, root, max) ==> ret == 0
    ensures ret == 0 ==> st' == Cursor(st.i + 1, drop', curr', next', used', low', st'.p, st'.e)
    ensures ret == 0 ==> Ready(table[..], root, ty, lens, st', len, rhuff, huff, count)
  {
    hide LenAt, FromBits, WordAt, Offs, Count, Below, Pow2, Symbols, PosAt, Prefix, Low, AfterFill, Inv, Roomy,
      Remaining, SubDue, NeedsSub, Capacity, Coded, IsSorted;
    drop', curr', next', used', low', st' := drop, curr, next, used, low, st.(i := st.i + 1);
    if len > root && Low(huff, root) != low {
      ghost var p := Prefix(lens, root, st.i + 1);
      SubDueNow(table[..], root, ty, lens, st, max, work, huff, low);
      if drop == 0 { drop' := root; }
      next' := next + Pow2(curr);
      ghost var e: nat;
      ret, curr', e := NewSubTable(ty, table, root, max, count, len, huff, next', used, lens, st, p);
      used' := used + Pow2(curr');
      low' := Low(huff, root);
      st' := NextState(root, st, p, curr', e);
      DropIsRoot(old(table[..]), root, ty, lens, st);
    } else {
      StayNow(table[..], root, ty, lens, st, huff, low);
      ret := 0;
    }
  }

  lemma DropIsRoot(t: seq<Entry>, root: nat, ty: CodeType, lens: seq<nat>, st: Cursor)
    requires AfterFill(t, root, ty, lens, st)
    ensures st.drop == 0 || st.drop == root
  {
    hide LenAt, FromBits, WordAt, Offs, Below, Pow2, Symbols, PosAt, Entered, Links, Prefix, Pos, Space, SubEnd;
  }

  /** Process all codes and make table entries. */
  method EnterAll(ty: CodeType, lens: seq<nat>, work: seq<nat>, count0: seq<nat>, table: array<Entry>, root: nat,
                  min: nat, max: nat)
    returns (ret: int, used: nat, next: nat, huff: nat, len: nat, drop: nat)
    requires Fixed(ty, lens, work, root, max, table.Length)
    requires Remaining(count0, lens, 0, min) && min == LenAt(lens, 0) <= root
    modifies table
    ensures ret == 0 || ret == 1
    ensures !Overflows(ty, Pow2(root)) && Roomy(ty, lens, root, max) ==> ret == 0
    ensures ret == 0 ==> Entered(table[..], root, ty, lens, Symbols(lens)) && Pow2(root) <= used
    ensures ret == 0 ==> Pow2(root) <= table.Length
    ensures ret == 0 ==> huff == BitReverse16(2 * PosAt(lens, Symbols(lens)) % 0x1_0000)
    ensures ret == 0 ==> len == max
    ensures ret == 0 && max <= root ==> next == 0 && drop == 0
  {
    hide LenAt, FromBits, WordAt, Offs, Count, Below, Pow2, Symbols, PosAt, AfterFill, Inv, Roomy, Ready, Entered,
      Remaining, Coded, BitReverse16, ShiftRight;
    huff, len, next, drop, used, ret := 0, min, 0, 0, Pow2(root), 0;
    var sym: nat, rhuff: nat, curr, low, count := 0, 0, root, -1, count0;
    if Overflows(ty, used) {
      ret := 1;
      return;
    }
    ghost var st := Cursor(0, 0, root, 0, used, -1, [], 0);
    InitReady(table[..], root, ty, lens, count, max, work, table.Length);
    while true
      invariant Ready(table[..], root, ty, lens, st, len, rhuff, huff, count)
      invariant st == Cursor(sym, drop, curr, next, used, low, st.p, st.e) && ret == 0
      decreases Symbols(lens) - sym
    {
      NextSymbol(table[..], root, ty, lens, st, len, rhuff, huff, count, max, work, table.Length);
      ReadyParts(table[..], root, ty, lens, st, len, rhuff, huff, count);
      EnterSymbol(table, root, ty, lens, work[sym], len, huff, drop, curr, next, st);
      rhuff := (rhuff + ShiftRight(0x8000, len - 1)) % 0x1_0000;
      huff := BitReverse16(rhuff);
      sym := sym + 1;
      count := count[len := count[len] - 1];
      if count[len] == 0 {
        if len == max {
          LastEntered(table[..], root, ty, lens, st, max);
          break;
        }
        LenAtDef(lens, sym);
        len := lens[work[sym]];
      }
      ret, drop, curr, next, used, low, st :=
        StepTables(ty, table, root, max, count, len, rhuff, huff, drop, curr, next, used, low, lens, work, st);
      if ret == 1 { return; }
    }
  }

  lemma LenAtDef(lens: seq<nat>, i: nat)
    requires i < Symbols(lens)
    ensures Coded(lens, SymAt(lens, i)) && lens[SymAt(lens, i)] == LenAt(lens, i)
  {
  }

  lemma EmptyDecodes(t: seq<Entry>, ty: CodeType, lens: seq<nat>)
    requires Bounded(lens) && |lens| <= MaxSymbols(ty) && Symbols(lens) == 0 && |t| >= 2
    requires t[0] == INVALID && t[1] == INVALID
    ensures Decodes(t, 1, ty, lens) && Accepts(ty, lens) && !Complete(lens)
  {
    hide Placed, Offs, Count, Rank;
    forall s ensures !Coded(lens, s) {
      if Coded(lens, s) { RankRange(lens, s); }
    }
    EndPos(lens);
    PosZero(lens);
    Pow2Table();
  }

  /** The root index bits: as requested, but no more than the longest and no less than the shortest length. */
  lemma RootFacts(ty: CodeType, lens: seq<nat>, bits: nat, min: nat, max: nat, root: nat)
    requires Bounded(lens) && |lens| <= MaxSymbols(ty) && 1 <= bits <= MAX_BITS && 1 <= min <= max <= MAX_BITS
    requires Offs(lens, min) == 0 && Count(lens, min) > 0 && Count(lens, max) > 0
    requires Offs(lens, max + 1) == Symbols(lens)
    requires root == (if (if bits < max then bits else max) < min then min else if bits < max then bits else max)
    ensures 0 < Symbols(lens) <= |lens| && LenAt(lens, 0) == min <= root <= max
  {
    hide LenAt, Count;
    OffsBound(lens, MAX_BITS + 1);
    OffsMono(lens, min + 1, MAX_BITS + 1);
    LenAtOffs(lens, 0, min);
  }

  predicate NoLonger(lens: seq<nat>, bits: nat) { forall i :: 0 <= i < |lens| ==> lens[i] <= bits }

  /** With the root sizes that inflate() asks for, the tables always have room, as they do without sub-tables. */
  ghost predicate Standard(ty: CodeType, lens: seq<nat>, bits: nat)
  {
    match ty
    case CODES => true
    case LENS => (|lens| <= 286 && bits == 10) || (bits <= 10 && NoLonger(lens, bits))
    case DISTS => (|lens| <= 30 && bits == 9) || (bits <= 9 && NoLonger(lens, bits))
  }

  lemma StandardRoomy(ty: CodeType, lens: seq<nat>, bits: nat, min: nat, max: nat, root: nat)
    requires Standard(ty, lens, bits) && Accepts(ty, lens) && 0 < Symbols(lens) <= |lens|
    requires 1 <= min <= max <= MAX_BITS && Offs(lens, max + 1) == Symbols(lens) && LenAt(lens, 0) == min
    requires root == (if (if bits < max then bits else max) < min then min else if bits < max then bits else max)
    requires ty == CODES || NoLonger(lens, bits) ==> max <= bits
    ensures Roomy(ty, lens, root, max) && !Overflows(ty, Pow2(root)) && root <= bits
  {
    hide LenAt, Count, Below, Bounded;
    Pow2Table();
    if max <= bits {
    } else if Complete(lens) {
      if ty == LENS { SomeShort(lens, 10, 286); }
      if ty == DISTS { SomeShort(lens, 9, 30); }
    } else {
      LenAtMax(lens, 0, 1);
    }
    Pow2Mono(root, if ty == DISTS then 9 else if ty == LENS then 10 else root);
  }

  lemma BuiltDecodes(t: seq<Entry>, t1: seq<Entry>, root: nat, ty: CodeType, lens: seq<nat>, max: nat)
    requires Accepts(ty, lens) && 0 < Symbols(lens) && |lens| <= MaxSymbols(ty) && 1 <= root <= MAX_BITS
    requires Pow2(root) <= |t| && Entered(t, root, ty, lens, Symbols(lens))
    requires if Complete(lens) then t1 == t else root == 1 && |t| >= 2 && t1 == t[1 := INVALID]
    ensures Decodes(t1, root, ty, lens)
  {
    hide Placed, Offs, Count, Symbols, Bounded;
    AllEntered(t, root, ty, lens);
    if !Complete(lens) {
      forall s | Coded(lens, s) ensures Placed(t1, root, ty, lens, s) { KeepsOnly(t, t1, ty, lens, s); }
    }
  }

  /** In a set of one code of one bit, that code is 0. */
  lemma KeepsOnly(t: seq<Entry>, t1: seq<Entry>, ty: CodeType, lens: seq<nat>, s: nat)
    requires Accepts(ty, lens) && !Complete(lens) && 0 < Symbols(lens) && |lens| <= MaxSymbols(ty)
    requires Coded(lens, s) && Placed(t, 1, ty, lens, s) && |t| >= 2 && t1 == t[1 := INVALID]
    ensures Placed(t1, 1, ty, lens, s)
  {
    hide EntryFor, Rank, Offs, Count, Below, Start;
    OnlyCode(lens, s);
    forall v: Bits | |v| == 1 && Codeword(lens, s) <= v
      ensures FromBits(v) == 0
    {
      assert v == [false];
    }
  }

  lemma OnlyCode(lens: seq<nat>, s: nat)
    requires Kraft(lens) && !Complete(lens) && Offs(lens, 2) == Symbols(lens) && Coded(lens, s)
    ensures Codeword(lens, s) == [false]
  {
    hide Offs, Count, Below, Rank, Symbols, ToMsb, First;
    RankRange(lens, s);
    SymAtRank(lens, s);
    LenAtMax(lens, Rank(lens, s), 1);
    assert lens[s] == 1;
    OneAtMost(lens);
    CountBelow(lens, s, 1);
    FirstOne(lens);
    assert CodeVal(lens, s) == 0;
    NoughtInOne();
  }

  /** A set of codes of one bit that is not complete has one code at most. */
  lemma OneAtMost(lens: seq<nat>)
    requires Kraft(lens) && !Complete(lens) && Offs(lens, 2) == Symbols(lens)
    ensures Count(lens, 1) <= 1
  {
    hide Offs, Count, Below, Pow2, Size;
    SameOffsSameBelow(lens, 2, MAX_BITS + 1);
    BelowStep(lens, 1);
    BelowOne(lens);
    Pow2Table();
    SizeOne();
  }

  lemma BelowOne(lens: seq<nat>)
    ensures Below(lens, 1) == 0
  {
  }

  lemma SizeOne()
    ensures Size(1) == 0x4000
  {
    Pow2Table();
  }

  lemma FirstOne(lens: seq<nat>)
    ensures First(lens, 1) == 0
  {
  }

  lemma NoughtInOne()
    ensures ToMsb(0, 1) == [false]
  {
    assert ToMsb(0, 0) == [];
  }

  /** Build the tables that decode the canonical code of lens. The return value is 0 for success, -1 for a set of
      lengths that is not accepted and 1 when the table space does not suffice. */
  method InflateTable(ty: CodeType, lens: seq<nat>, table: array<Entry>, bits: nat)
    returns (ret: int, used: nat, root: nat)
    requires Bounded(lens) && |lens| <= MaxSymbols(ty) && 1 <= bits <= MAX_BITS
    requires Capacity(ty, bits) <= table.Length
    requires ty == CODES ==> NoLonger(lens, bits)
    modifies table
    ensures ret == -1 || ret == 0 || ret == 1
    ensures ret == -1 <==> !Accepts(ty, lens)
    ensures ret == 0 ==> Decodes(table[..], root, ty, lens)
    ensures Standard(ty, lens, bits) ==> ret != 1
    ensures Standard(ty, lens, bits) && ret == 0 ==> root <= bits
    ensures NoLonger(lens, bits) && ret == 0 ==> NoLonger(lens, root)
  {
    hide NoLonger, LenAt, FromBits, Offs, Count, Below, Pow2, Symbols, PosAt, Roomy, Entered, Remaining, BitReverse16,
      Coded, IsSorted, Decodes;
    ret, used := 0, 2;
    var count := CountLengths(lens);
    root := bits;
    var max := FindMax(count, lens);
    root := if root < max then root else max;
    if max == 0 {
      TwoSlots(ty, bits);
      table[0] := INVALID;
      table[1] := INVALID;
      root := 1;
      OffsZero(lens);
      NoneLonger(lens, 0, 1);
      EmptyDecodes(table[..], ty, lens);
      return;
    }
    var min := FindMin(count, max, lens);
    root := if root < min then min else root;
    RootFacts(ty, lens, bits, min, max, root);
    var left := CheckLengths(count, lens);
    OneBitOnly(lens, max);
    if left < 0 {
      ret := -1;
      return;
    }
    if left > 0 && (ty == CODES || max != 1) {
      ret := -1;
      return;
    }
    var work := SortSymbols(lens, count);
    if NoLonger(lens, bits) {
      MaxWithin(lens, bits, max);
      NoneLonger(lens, max, root);
      Pow2Mono(root, bits);
    }
    RemainingInit(count, lens, min);
    if Standard(ty, lens, bits) { StandardRoomy(ty, lens, bits, min, max, root); }
    var next, huff, len, drop;
    ret, used, next, huff, len, drop := EnterAll(ty, lens, work, count, table, root, min, max);
    if ret == 1 {
      return;
    }
    FinalHuff(lens);
    ghost var t := table[..];
    RootSlots(root);
    if huff != 0 {
      table[next + huff] := Entry(len - drop, 64, 0);
    }
    BuiltDecodes(t, table[..], root, ty, lens, max);
  }

  lemma TwoSlots(ty: CodeType, bits: nat)
    requires bits >= 1
    ensures Capacity(ty, bits) >= 2
  {
  }

  lemma OffsZero(lens: seq<nat>)
    ensures Offs(lens, 1) == 0
  {
  }

  lemma RootSlots(root: nat)
    requires root >= 1
    ensures Pow2(root) >= 2
  {
  }

  lemma OneBitOnly(lens: seq<nat>, max: nat)
    requires 1 <= max <= MAX_BITS && Offs(lens, max + 1) == Symbols(lens) && Count(lens, max) > 0
    ensures max == 1 <==> Offs(lens, 2) == Symbols(lens)
    ensures 0 < Symbols(lens)
  {
    if max > 1 { OffsMono(lens, 2, max); }
  }

  lemma MaxWithin(lens: seq<nat>, bits: nat, max: nat)
    requires Count(lens, max) > 0 && NoLonger(lens, bits)
    ensures max <= bits
  {
    CountPositive(lens, max);
  }

  lemma NoneLonger(lens: seq<nat>, max: nat, root: nat)
    requires Bounded(lens) && Offs(lens, max + 1) == Symbols(lens) && max <= root
    ensures NoLonger(lens, root)
  {
    hide Offs, Count;
    forall i | 0 <= i < |lens|
      ensures lens[i] <= root
    {
      if lens[i] > max {
        RankRange(lens, i);
        OffsMono(lens, max + 1, lens[i]);
      }
    }
  }

  lemma RemainingInit(count: seq<nat>, lens: seq<nat>, min: nat)
    requires |count| == MAX_BITS + 1 && 1 <= min
    requires forall l :: 0 <= l <= MAX_BITS ==> count[l] == Count(lens, l)
    ensures Remaining(count, lens, 0, min)
  {
  }
}
