/** inftrees.c zng_inflate_table: starting a new sub-table, and how many index bits it gets. */
module TableSub {
  import opened Arith
  import opened Bits
  import opened Counting
  import opened Canonical
  import opened SortedCode
  import opened TableSpec
  import opened TableLemmas

  /** The strings under a code are among the strings under its prefix. */
  lemma PrefixRange(lens: seq<nat>, root: nat, i: nat)
    requires Kraft(lens) && i < Symbols(lens) && root <= LenAt(lens, i)
    ensures Pos(Prefix(lens, root, i)) <= PosAt(lens, i)
    ensures PosAt(lens, i) + Size(LenAt(lens, i)) <= Pos(Prefix(lens, root, i)) + Size(root)
  {
    var w := WordAt(lens, i);
    CodewordPos(lens, SymAt(lens, i));
    assert w == w[..root] + w[root..];
    SplitPos(w[..root], w[root..]);
  }

  /** A code whose interval starts among the strings under p has prefix p. */
  lemma PrefixFromPos(lens: seq<nat>, root: nat, i: nat, p: Bits)
    requires Kraft(lens) && i < Symbols(lens) && |p| == root <= LenAt(lens, i)
    requires Pos(p) <= PosAt(lens, i) < Pos(p) + Size(root)
    ensures Prefix(lens, root, i) == p
  {
    CodewordPos(lens, SymAt(lens, i));
    PrefixPos(p, WordAt(lens, i));
  }

  /** Codes with one prefix are neighbours. */
  lemma PrefixRun(lens: seq<nat>, root: nat, i: nat, j: nat, k: nat)
    requires Kraft(lens) && i <= j <= k < Symbols(lens) && root <= LenAt(lens, i)
    requires LenAt(lens, i) <= LenAt(lens, j) <= LenAt(lens, k)
    requires Prefix(lens, root, i) == Prefix(lens, root, k)
    ensures Prefix(lens, root, j) == Prefix(lens, root, k)
  {
    hide PosAt, Pos, Below, Bounded;
    PrefixRange(lens, root, i);
    PrefixRange(lens, root, k);
    PosMono(lens, i, j);
    PosMono(lens, j, k);
    PrefixFromPos(lens, root, j, Prefix(lens, root, k));
  }

  lemma PrefixApart(p: Bits, q: Bits)
    requires |p| == |q| <= MAX_BITS && p != q
    ensures Pos(p) + Size(|p|) <= Pos(q) || Pos(q) + Size(|p|) <= Pos(p)
  {
    ToMsbFromMsb(p);
    ToMsbFromMsb(q);
    var z := Size(|p|);
    if FromMsb(p) < FromMsb(q) {
      MulLt(FromMsb(p), FromMsb(q), z);
    } else {
      MulLt(FromMsb(q), FromMsb(p), z);
    }
  }

  lemma EndAligned(lens: seq<nat>, root: nat, i: nat, p: Bits)
    requires Kraft(lens) && i < Symbols(lens) && LenAt(lens, i) <= root <= MAX_BITS && |p| == root
    requires Pos(p) <= PosAt(lens, i) + Size(LenAt(lens, i)) < Pos(p) + Size(root)
    ensures PosAt(lens, i) + Size(LenAt(lens, i)) == Pos(p)
  {
    var s := SymAt(lens, i);
    StartIsCode(lens, s);
    AlignedArith(CodeVal(lens, s), Size(lens[s]), Pow2(root - lens[s]), Size(root), FromMsb(p)) by {
      Pow2Add(root - lens[s], MAX_BITS - root);
    }
  }

  lemma AlignedArith(v: nat, big: nat, k: nat, z: nat, f: nat)
    requires z > 0 && big == k * z && f * z <= v * big + big < f * z + z
    ensures v * big + big == f * z
  {
    MulAssoc(v, k, z);
    Distrib(v * k, k, z);
    Between(f, v * k + k, 0, z);
  }

  /** The first code of a new sub-table starts where the strings under its prefix start. */
  lemma SubStart(lens: seq<nat>, root: nat, i: nat)
    requires Kraft(lens) && 0 < i < Symbols(lens) && root < LenAt(lens, i)
    requires LenAt(lens, i - 1) <= root || Prefix(lens, root, i - 1) != Prefix(lens, root, i)
    ensures PosAt(lens, i) == Pos(Prefix(lens, root, i))
  {
    hide PosAt, Pos, Size, Prefix, Below, Bounded;
    var p := Prefix(lens, root, i);
    PosStep(lens, i - 1);
    PrefixRange(lens, root, i);
    if LenAt(lens, i - 1) <= root {
      EndAligned(lens, root, i - 1, p);
    } else {
      PrefixRange(lens, root, i - 1);
      PrefixApart(Prefix(lens, root, i - 1), p);
    }
  }

  // ---- the size of the new sub-table ----

  function Max(a: nat, b: nat): (r: nat) { if a < b then b else a }

  /** count[] once the first i symbols have been entered, for the lengths not yet passed. */
  ghost predicate Remaining(count: seq<nat>, lens: seq<nat>, i: nat, from: nat)
  {
    |count| == MAX_BITS + 1 &&
    forall l :: from <= l <= MAX_BITS ==> count[l] == Offs(lens, l + 1) - Max(i, Offs(lens, l))
  }

  /** left open nodes at depth l reach exactly as far as the sub-table does. */
  ghost predicate OpenNodes(lens: seq<nat>, i: nat, l: nat, left: int, end: nat)
    requires Bounded(lens) && 1 <= l <= MAX_BITS
  {
    left * Size(l) == end - PosAt(lens, Max(i, Offs(lens, l)))
  }

  lemma OpenStep(lens: seq<nat>, i: nat, l: nat, left: int, end: nat, c: nat)
    requires Bounded(lens) && 1 <= l < MAX_BITS && i <= Offs(lens, l + 1)
    requires OpenNodes(lens, i, l, left, end) && c == Offs(lens, l + 1) - Max(i, Offs(lens, l))
    ensures OpenNodes(lens, i, l + 1, (left - c) * 2, end)
  {
    var m := Max(i, Offs(lens, l));
    PosAtOffs(lens, m, l);
    PosAtOffs(lens, Offs(lens, l + 1), l);
    SizeStep(l + 1);
    OpenArith(left, c, Size(l), Size(l + 1), m - Offs(lens, l), Count(lens, l));
  }

  lemma OpenArith(left: int, c: int, z: int, y: int, a: int, n: int)
    requires z == 2 * y && c == n - a
    ensures (left - c) * 2 * y == left * z - (n * z - a * z)
  {
  }

  /** A length class with enough codes closes the sub-table. */
  lemma OpenEnd(lens: seq<nat>, i: nat, l: nat, left: nat, end: nat)
    requires Bounded(lens) && 1 <= l <= MAX_BITS && i <= Offs(lens, l + 1)
    requires OpenNodes(lens, i, l, left, end) && left <= Offs(lens, l + 1) - Max(i, Offs(lens, l))
    ensures PosAt(lens, Max(i, Offs(lens, l)) + left) == end
  {
    var m := Max(i, Offs(lens, l));
    PosAtOffs(lens, m, l);
    PosAtOffs(lens, m + left, l);
    Distrib(m - Offs(lens, l), left, Size(l));
  }

  lemma OpenLast(lens: seq<nat>, i: nat, l: nat, left: nat, end: nat)
    requires Bounded(lens) && 1 <= l <= MAX_BITS && i <= Offs(lens, l + 1) == Symbols(lens)
    requires OpenNodes(lens, i, l, left, end) && end <= PosAt(lens, Symbols(lens))
    ensures left <= Offs(lens, l + 1) - Max(i, Offs(lens, l))
  {
    var m := Max(i, Offs(lens, l));
    PosAtOffs(lens, m, l);
    PosAtOffs(lens, Offs(lens, l + 1), l);
    var a, n := m - Offs(lens, l), Offs(lens, l + 1) - Offs(lens, l);
    Distrib(a, n - a, Size(l));
    if left > n - a { MulLt(n - a, left, Size(l)); }
  }

  /** What the look-ahead establishes: the sub-table for the codes from rank i on has curr index bits; it ends before
      rank e, no code in it is longer, and it holds at least 2^s + curr - s codes. */
  ghost predicate SubSize(lens: seq<nat>, root: nat, i: nat, curr: nat, e: nat)
    requires Bounded(lens) && root <= MAX_BITS
  {
    i < e <= Symbols(lens) && root < LenAt(lens, i) <= root + curr <= MAX_BITS &&
    PosAt(lens, e) == PosAt(lens, i) + Size(root) &&
    LenAt(lens, e - 1) == root + curr &&
    e - i >= Pow2(LenAt(lens, i) - root) + curr - (LenAt(lens, i) - root)
  }

  lemma SubSizeDone(lens: seq<nat>, root: nat, i: nat, curr: nat, left: nat)
    requires Bounded(lens) && i < Symbols(lens) && root < LenAt(lens, i) <= root + curr <= MAX_BITS
    requires OpenNodes(lens, i, root + curr, left, PosAt(lens, i) + Size(root))
    requires i <= Offs(lens, root + curr + 1)
    requires 0 < left <= Offs(lens, root + curr + 1) - Max(i, Offs(lens, root + curr))
    requires Max(i, Offs(lens, root + curr)) - i + left >=
      Pow2(LenAt(lens, i) - root) + curr - (LenAt(lens, i) - root)
    ensures SubSize(lens, root, i, curr, Max(i, Offs(lens, root + curr)) + left)
  {
    hide PosAt, Pow2, Size, OpenNodes, LenAt;
    var e := Max(i, Offs(lens, root + curr)) + left;
    OpenEnd(lens, i, root + curr, left, PosAt(lens, i) + Size(root));
    OffsMono(lens, root + curr + 1, MAX_BITS + 1);
    LenAtOffs(lens, e - 1, root + curr);
  }

  /** Determine the index bits of the sub-table that starts with the symbol of rank i. */
  method SubTableBits(count: seq<nat>, len: nat, root: nat, max: nat, ghost lens: seq<nat>, ghost i: nat)
    returns (curr: nat, ghost e: nat)
    requires Kraft(lens) && i < Symbols(lens) && LenAt(lens, i) == len && 1 <= root < len <= max <= MAX_BITS
    requires Remaining(count, lens, i, len) && Offs(lens, max + 1) == Symbols(lens)
    requires PosAt(lens, i) + Size(root) <= PosAt(lens, Symbols(lens))
    ensures SubSize(lens, root, i, curr, e)
  {
    hide PosAt, Pow2, Size, OpenNodes, LenAt, Below, Bounded, Offs, Symbols, SubSize;
    curr := len - root;
    var left: int := Pow2(curr);
    ghost var end := PosAt(lens, i) + Size(root);
    SubInit(lens, root, i);
    while curr + root < max
      invariant len <= root + curr <= max && left > 0
      invariant OpenNodes(lens, i, root + curr, left, end)
      invariant i <= Offs(lens, root + curr + 1)
      invariant Max(i, Offs(lens, root + curr)) - i + left >= Pow2(len - root) + curr - (len - root)
    {
      var c := count[curr + root];
      if left - c <= 0 {
        break;
      }
      OpenStep(lens, i, root + curr, left, end, c);
      OffsMono(lens, root + curr + 1, root + curr + 2);
      left := left - c;
      curr := curr + 1;
      left := left * 2;
    }
    if curr + root == max {
      OpenLast(lens, i, root + curr, left, end);
    }
    SubSizeDone(lens, root, i, curr, left);
    e := Max(i, Offs(lens, root + curr)) + left;
  }

  lemma SubInit(lens: seq<nat>, root: nat, i: nat)
    requires Bounded(lens) && i < Symbols(lens) && root < LenAt(lens, i)
    ensures var len := LenAt(lens, i);
      i <= Offs(lens, len + 1) && Max(i, Offs(lens, len)) == i && Pow2(len - root) > 0 &&
      OpenNodes(lens, i, len, Pow2(len - root), PosAt(lens, i) + Size(root))
  {
    var len := LenAt(lens, i);
    LenAtOffs(lens, i, len);
    Pow2Add(len - root, MAX_BITS - len);
  }

  // ---- linking the new sub-table ----

  lemma LinkKeepsOne(t: seq<Entry>, t1: seq<Entry>, root: nat, ty: CodeType, lens: seq<nat>, s: nat, p: Bits,
                     link: Entry)
    requires |lens| <= MaxSymbols(ty) && Coded(lens, s) && Placed(t, root, ty, lens, s)
    requires |p| == root && Pow2(root) <= |t| && t1 == t[FromBits(p) := link]
    requires lens[s] <= root ==> !(Codeword(lens, s) <= p)
    requires lens[s] > root ==> Codeword(lens, s)[..root] != p
    ensures Placed(t1, root, ty, lens, s)
    ensures lens[s] > root ==> t1[FromBits(Codeword(lens, s)[..root])] == t[FromBits(Codeword(lens, s)[..root])]
  {
    hide Pow2, FromBits, EntryFor, Codeword;
    var w := Codeword(lens, s);
    if |w| <= root {
      forall v: Bits | |v| == root && w <= v
        ensures t1[FromBits(v)] == EntryFor(ty, s, |w|)
      {
        if FromBits(v) == FromBits(p) { FromBitsInjective(v, p); }
      }
    } else if FromBits(w[..root]) == FromBits(p) {
      FromBitsInjective(w[..root], p);
    }
  }

  /** The new prefix is unlike that of every symbol entered before. */
  lemma NewPrefix(lens: seq<nat>, root: nat, i: nat, j: nat)
    requires Kraft(lens) && j < i < Symbols(lens) && root < LenAt(lens, i)
    requires LenAt(lens, i - 1) <= root || Prefix(lens, root, i - 1) != Prefix(lens, root, i)
    ensures LenAt(lens, j) <= root ==> !(WordAt(lens, j) <= Prefix(lens, root, i))
    ensures LenAt(lens, j) > root ==> Prefix(lens, root, j) != Prefix(lens, root, i)
  {
    hide Kraft, Codeword, WordAt, Symbols;
    LenAtMono(lens, j, i - 1);
    LenAtMono(lens, i - 1, i);
    if LenAt(lens, j) > root && Prefix(lens, root, j) == Prefix(lens, root, i) {
      PrefixRun(lens, root, j, i - 1, i);
    }
    if LenAt(lens, j) <= root { ShorterPrefix(lens, root, i, j); }
  }

  /** A code that fits the root index does not start the index of another one. */
  lemma ShorterPrefix(lens: seq<nat>, root: nat, i: nat, j: nat)
    requires Kraft(lens) && j < i < Symbols(lens) && LenAt(lens, j) <= root < LenAt(lens, i)
    ensures !(WordAt(lens, j) <= Prefix(lens, root, i))
  {
    hide Kraft, Codeword;
    if WordAt(lens, j) <= Prefix(lens, root, i) {
      var w := WordAt(lens, j);
      assert w == WordAt(lens, i)[..root][..|w|] == WordAt(lens, i)[..|w|];
      PrefixFree(lens, SymAt(lens, j), SymAt(lens, i));
    }
  }

  lemma LinkKeeps(t: seq<Entry>, t1: seq<Entry>, root: nat, ty: CodeType, lens: seq<nat>, i: nat, next: nat, curr: nat,
                  p: Bits, next': nat, curr': nat)
    requires Kraft(lens) && |lens| <= MaxSymbols(ty) && i < Symbols(lens) && root < LenAt(lens, i)
    requires 0 < i && (LenAt(lens, i - 1) <= root || Prefix(lens, root, i - 1) != Prefix(lens, root, i))
    requires Entered(t, root, ty, lens, i) && Links(t, root, lens, i, next, curr, p)
    requires next' == next + Pow2(curr) && Pow2(root) <= next' && next' + Pow2(curr') <= |t| && 1 <= curr' <= 15
    requires t1 == t[FromBits(Prefix(lens, root, i)) := Entry(root, curr', next')]
    ensures Entered(t1, root, ty, lens, i)
    ensures Links(t1, root, lens, i, next', curr', Prefix(lens, root, i))
    ensures Current(t1, root, next', curr', Prefix(lens, root, i))
  {
    hide Kraft, Codeword, Placed, Pow2, FromBits, Symbols;
    var q := Prefix(lens, root, i);
    forall j | 0 <= j < i
      ensures Placed(t1, root, ty, lens, SymAt(lens, j))
      ensures LenAt(lens, j) > root ==>
        t1[FromBits(Prefix(lens, root, j))] == t[FromBits(Prefix(lens, root, j))]
    {
      NewPrefix(lens, root, i, j);
      LinkKeepsOne(t, t1, root, ty, lens, SymAt(lens, j), q, Entry(root, curr', next'));
    }
  }
}
