/** inftrees.h ENOUGH_LENS and ENOUGH_DISTS: why the decoding tables never outgrow their space. A sub-table of 2^c
    entries whose first code is s bits deep holds at least 2^s + c - s codes, and the next sub-table starts at least c
    bits deep. With g(x) = 2^x - x the sums telescope: all sub-tables together have at most (number of codes in them) +
    g(deepest) - g(1) entries. */
module TableEnough {
  import opened Arith
  import opened Bits
  import opened Counting
  import opened Canonical
  import opened SortedCode
  import opened TableSpec
  import opened TableSub

  function G(x: nat): (r: int) { Pow2(x) - x }

  lemma {:induction false} GMono(a: nat, b: nat)
    requires 1 <= a <= b
    ensures 1 <= G(a) <= G(b)
  {
    if b > 1 { GMono(if a == b then a - 1 else a, b - 1); }
  }

  /** The space taken once the sub-table of curr index bits, which ends before rank e, is allotted. */
  ghost predicate Space(lens: seq<nat>, root: nat, used: nat, curr: nat, e: nat)
  {
    used <= Pow2(root) + (e - Offs(lens, root + 1)) + G(curr) - 1 && used % 2 == 0
  }

  lemma FirstSub(lens: seq<nat>, root: nat, i: nat, curr: nat, e: nat)
    requires Bounded(lens) && 1 <= root <= MAX_BITS && SubSize(lens, root, i, curr, e)
    ensures Space(lens, root, Pow2(root) + Pow2(curr), curr, e)
  {
    hide LenAt, Offs, Bounded, PosAt, Size, Pow2;
    LenAtOffs(lens, i, LenAt(lens, i));
    OffsMono(lens, root + 1, LenAt(lens, i));
    GMono(LenAt(lens, i) - root, curr);
    Pow2Even(curr);
    Pow2Even(root);
  }

  lemma Pow2Even(n: nat)
    requires n > 0
    ensures Pow2(n) % 2 == 0
  {
  }

  lemma NextSub(lens: seq<nat>, root: nat, i: nat, curr: nat, e: nat, used0: nat, curr0: nat, e0: nat)
    requires Bounded(lens) && 1 <= root <= MAX_BITS && SubSize(lens, root, i, curr, e)
    requires Space(lens, root, used0, curr0, e0) && e0 <= i && 1 <= curr0 <= LenAt(lens, i) - root
    ensures Space(lens, root, used0 + Pow2(curr), curr, e)
  {
    hide PosAt, LenAt, Offs, Pow2, Bounded, Size;
    GMono(curr0, LenAt(lens, i) - root);
    Pow2Even(curr);
  }

  /** Few codes that do not fill everything leave much room: j codes leave at least 2^(15-j) strings. */
  lemma {:induction false} Remainder(lens: seq<nat>, j: nat)
    requires Kraft(lens) && j <= Symbols(lens) && j <= MAX_BITS && PosAt(lens, j) < Pow2(MAX_BITS)
    ensures PosAt(lens, j) + Pow2(MAX_BITS - j) <= Pow2(MAX_BITS)
  {
    hide PosAt, Below, Bounded, Pow2, Symbols;
    if j == 0 {
      PosZero(lens);
    } else {
      PosStep(lens, j - 1);
      RemainderStep(lens, j);
      Remainder(lens, j - 1);
    }
  }

  lemma RemainderStep(lens: seq<nat>, j: nat)
    requires Kraft(lens) && 0 < j <= Symbols(lens) && j <= MAX_BITS
    requires PosAt(lens, j) == PosAt(lens, j - 1) + Size(LenAt(lens, j - 1)) < Pow2(MAX_BITS)
    ensures LenAt(lens, j - 1) <= j ==> PosAt(lens, j) + Pow2(MAX_BITS - j) <= Pow2(MAX_BITS)
    ensures LenAt(lens, j - 1) > j ==> Size(LenAt(lens, j - 1)) <= Pow2(MAX_BITS - j)
    ensures Pow2(MAX_BITS - (j - 1)) == 2 * Pow2(MAX_BITS - j)
  {
    hide Below, Bounded, Offs, Rank, Count, First, Pow2;
    var l := LenAt(lens, j - 1);
    var s := SymAt(lens, j - 1);
    if l <= j {
      StartIsCode(lens, s);
      CodeValBound(lens, s);
      Pow2Add(l, MAX_BITS - l);
      MultipleBelow(CodeVal(lens, s), Pow2(l), Size(l));
      Pow2Mono(MAX_BITS - j, MAX_BITS - l);
    } else {
      Pow2Mono(MAX_BITS - l, MAX_BITS - j);
    }
    Pow2Add(1, MAX_BITS - j);
    Pow2One();
  }

  lemma Pow2One()
    ensures Pow2(1) == 2
  {
  }

  lemma MultipleBelow(v: nat, p: nat, z: nat)
    requires v * z + z < p * z
    ensures v * z + z + z <= p * z
  {
    Distrib(v, 1, z);
    if p <= v + 1 { MulLe(p, v + 1, z); }
    MulLt(v + 1, p, z);
  }

  /** Codes of length at least l own at most 2^(15-l) strings each. */
  lemma {:induction false} PosSpan(lens: seq<nat>, i: nat, j: nat, l: nat)
    requires Bounded(lens) && i <= j <= Symbols(lens) && l <= MAX_BITS
    requires forall k :: i <= k < j ==> LenAt(lens, k) >= l
    ensures PosAt(lens, j) <= PosAt(lens, i) + (j - i) * Size(l)
    decreases j - i
  {
    hide PosAt, LenAt, Bounded, Symbols;
    if i < j {
      PosSpan(lens, i, j - 1, l);
      PosStep(lens, j - 1);
      Pow2Mono(MAX_BITS - LenAt(lens, j - 1), MAX_BITS - l);
      Distrib(j - 1 - i, 1, Size(l));
    }
  }

  lemma LongFrom(lens: seq<nat>, i: nat, root: nat)
    requires Offs(lens, root + 1) <= i < Symbols(lens)
    ensures LenAt(lens, i) > root
  {
    var l := LenAt(lens, i);
    LenAtOffs(lens, i, l);
    if l <= root { OffsMono(lens, l + 1, root + 1); }
  }

  /** The room that r codes leave is too much for n - r codes longer than root. */
  predicate TooMuchRoom(root: nat, n: nat, r: nat)
    requires root < MAX_BITS
  {
    r <= n && r <= MAX_BITS && (n - r) * Size(root + 1) < Pow2(MAX_BITS - r)
  }

  /** A complete set with codes longer than root, of at most n codes, has more than k codes of at most root bits, as
      long as the room that k codes leave is too much for the others. */
  lemma ShortCodes(lens: seq<nat>, root: nat, n: nat, k: nat)
    requires Complete(lens) && root < MAX_BITS && Symbols(lens) <= n && k <= MAX_BITS
    requires Offs(lens, root + 1) < Symbols(lens)
    requires forall r :: 0 <= r <= k ==> TooMuchRoom(root, n, r)
    ensures Offs(lens, root + 1) > k
  {
    hide PosAt, LenAt, Offs, Pow2, Size, Below, Bounded;
    var r := Offs(lens, root + 1);
    var m := Symbols(lens);
    if r <= k {
      assert TooMuchRoom(root, n, r);
      forall j | r <= j < m ensures LenAt(lens, j) >= root + 1 { LongFrom(lens, j, root); }
      PosSpan(lens, r, m, root + 1);
      assert PosAt(lens, m) == Pow2(MAX_BITS) by { EndPos(lens); }
      PosMono(lens, r, m);
      Remainder(lens, r);
      MulLe(m - r, n - r, Size(root + 1));
    }
  }

  lemma EndPos(lens: seq<nat>)
    requires Bounded(lens)
    ensures PosAt(lens, Symbols(lens)) == Below(lens, MAX_BITS + 1)
  {
  }

  /** The literal/length table, with 10 root bits and at most 286 symbols, fits in 1332 entries. */
  lemma EnoughLens(lens: seq<nat>, used: nat, curr: nat, e: nat)
    requires Complete(lens) && Symbols(lens) <= 286 && 1 <= curr <= 5 && Space(lens, 10, used, curr, e)
    requires Offs(lens, 11) < e <= Symbols(lens)
    ensures used <= ENOUGH_LENS
  {
    Pow2Table();
    hide Offs, Pow2, Below, Symbols, Complete;
    ShortCodes(lens, 10, 286, 2);
    GMono(curr, 5);
  }

  /** The distance table, with 9 root bits and at most 30 symbols, fits in 592 entries. */
  lemma EnoughDists(lens: seq<nat>, used: nat, curr: nat, e: nat)
    requires Complete(lens) && Symbols(lens) <= 30 && 1 <= curr <= 6 && Space(lens, 9, used, curr, e)
    requires Offs(lens, 10) < e <= Symbols(lens)
    ensures used <= ENOUGH_DISTS
  {
    Pow2Table();
    hide Offs, Pow2, Below, Symbols, Complete;
    ShortCodes(lens, 9, 30, 5);
    GMono(curr, 6);
  }

  /** A complete set of at most n codes has a code of at most l bits, if n longer ones are too few. */
  lemma SomeShort(lens: seq<nat>, l: nat, n: nat)
    requires Complete(lens) && l < MAX_BITS && Symbols(lens) <= n && n * Size(l + 1) < Pow2(MAX_BITS)
    ensures Symbols(lens) > 0 && LenAt(lens, 0) <= l
  {
    hide PosAt, LenAt, Offs, Pow2, Size, Below, Bounded, Symbols;
    var m := Symbols(lens);
    EndPos(lens);
    PosZero(lens);
    if m > 0 && LenAt(lens, 0) > l {
      forall j | 0 <= j < m ensures LenAt(lens, j) >= l + 1 { LenAtMono(lens, 0, j); }
      PosSpan(lens, 0, m, l + 1);
      MulLe(m, n, Size(l + 1));
    }
  }
}
