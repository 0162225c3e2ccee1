/** inftrees.c zng_inflate_table: why entering the symbols in order builds a table that decodes them. */
module TableLemmas {
  import opened Bits
  import opened Canonical
  import opened SortedCode
  import opened GenCodes
  import opened TableSpec
  import opened TableFill

  /** The first i symbols can be looked up. */
  ghost predicate Entered(t: seq<Entry>, root: nat, ty: CodeType, lens: seq<nat>, i: nat)
    requires |lens| <= MaxSymbols(ty)
  {
    i <= Symbols(lens) && forall j :: 0 <= j < i ==> Placed(t, root, ty, lens, SymAt(lens, j))
  }

  /** The code of rank i. */
  ghost function WordAt(lens: seq<nat>, i: nat): (w: Bits)
    ensures |w| == LenAt(lens, i)
  {
    if i < Symbols(lens) then Codeword(lens, SymAt(lens, i)) else []
  }

  /** The root index under which the code of rank i is looked up. */
  ghost function Prefix(lens: seq<nat>, root: nat, i: nat): (w: Bits)
    ensures root <= LenAt(lens, i) ==> |w| == root && w <= WordAt(lens, i)
  {
    if root <= LenAt(lens, i) then WordAt(lens, i)[..root] else []
  }

  /** Every sub-table made so far ends at or before next, except the current one, of prefix p. */
  ghost predicate Links(t: seq<Entry>, root: nat, lens: seq<nat>, i: nat, next: nat, curr: nat, p: Bits)
  {
    i <= Symbols(lens) && Pow2(root) <= |t| &&
    forall j :: 0 <= j < i && LenAt(lens, j) > root ==>
      var e := t[FromBits(Prefix(lens, root, j))];
      e.val + Pow2(e.op) <= next || (Prefix(lens, root, j) == p && e == Entry(root, curr, next))
  }

  // ---- code values ----

  /** huff, the reversed running code, holds the code of the current symbol. */
  lemma HuffIsWord(lens: seq<nat>, s: nat)
    requires Kraft(lens) && Coded(lens, s)
    ensures 2 * Start(lens, s) < 0x1_0000
    ensures BitReverse16(2 * Start(lens, s)) == FromBits(Codeword(lens, s))
  {
    var l, w, z := lens[s], Codeword(lens, s), Zeros(16 - lens[s]);
    CodeValBound(lens, s);
    StartIsCode(lens, s);
    FromMsbToMsb(CodeVal(lens, s), l);
    FromMsbConcat(w, z);
    FromMsbZeros(16 - l);
    assert Pow2(16 - l) == 2 * Size(l);
    Swap2(CodeVal(lens, s), Size(l));
    assert FromMsb(w + z) == 2 * Start(lens, s);
    ToMsbFromMsb(w + z);
    MsbOfLsb(2 * Start(lens, s), 16);
    FromBitsConcat(w, z);
    Pow2Table();
  }

  lemma Swap2(a: nat, b: nat)
    ensures a * (2 * b) == 2 * (a * b)
  {
  }

  lemma HuffParts(w: Bits, n: nat)
    requires n <= |w|
    ensures ShiftRight(FromBits(w), n) == FromBits(w[n..])
    ensures Low(FromBits(w), n) == FromBits(w[..n])
  {
    assert w == w[..n] + w[n..];
    ShiftOfConcat(w[..n], w[n..]);
    LowOfConcat(w[..n], w[n..]);
  }

  // ---- one fill keeps what was entered ----

  lemma HitIsPrefix(v: Bits, c: Bits)
    ensures Hit(FromBits(v), c, |v|) <==> c <= v
  {
    ToBitsFromBits(v);
  }

  lemma KeepShort(t: seq<Entry>, t1: seq<Entry>, root: nat, ty: CodeType, lens: seq<nat>, s: nat, u: nat)
    requires Kraft(lens) && |lens| <= MaxSymbols(ty) && Coded(lens, s) && Coded(lens, u) && s != u
    requires lens[s] <= root && Placed(t, root, ty, lens, s)
    requires Filled(t, t1, 0, root, Codeword(lens, u), EntryFor(ty, u, lens[u]), 0)
    ensures Placed(t1, root, ty, lens, s)
  {
    hide Pow2, Hit, FromBits, EntryFor, Codeword, Kraft;
    var w, c := Codeword(lens, s), Codeword(lens, u);
    forall v: Bits | |v| == root && w <= v
      ensures t1[FromBits(v)] == EntryFor(ty, s, |w|)
    {
      HitIsPrefix(v, c);
      if c <= v { UniqueSymbol(lens, v, s, u); }
    }
  }

  lemma PlaceShort(t: seq<Entry>, t1: seq<Entry>, root: nat, ty: CodeType, lens: seq<nat>, u: nat)
    requires |lens| <= MaxSymbols(ty) && Coded(lens, u) && lens[u] <= root && Pow2(root) <= |t|
    requires Filled(t, t1, 0, root, Codeword(lens, u), EntryFor(ty, u, lens[u]), 0)
    ensures Placed(t1, root, ty, lens, u)
  {
    hide Pow2, Hit, FromBits, EntryFor, Codeword;
    var c := Codeword(lens, u);
    forall v: Bits | |v| == root && c <= v
      ensures t1[FromBits(v)] == EntryFor(ty, u, |c|)
    {
      HitIsPrefix(v, c);
    }
  }

  lemma FillShort(t: seq<Entry>, t1: seq<Entry>, root: nat, ty: CodeType, lens: seq<nat>, i: nat)
    requires Kraft(lens) && |lens| <= MaxSymbols(ty) && i < Symbols(lens) && LenAt(lens, i) <= root
    requires Pow2(root) <= |t| && Entered(t, root, ty, lens, i)
    requires Filled(t, t1, 0, root, WordAt(lens, i), EntryFor(ty, SymAt(lens, i), LenAt(lens, i)), 0)
    ensures Entered(t1, root, ty, lens, i + 1)
  {
    hide Placed, Filled, Kraft, Codeword, EntryFor, Symbols;
    forall j | 0 <= j < i + 1
      ensures Placed(t1, root, ty, lens, SymAt(lens, j))
    {
      if j < i {
        LenAtMono(lens, j, i);
        KeepShort(t, t1, root, ty, lens, SymAt(lens, j), SymAt(lens, i));
      } else {
        PlaceShort(t, t1, root, ty, lens, SymAt(lens, i));
      }
    }
  }

  /** Writing inside [next, next + 2^curr) leaves the root table and the earlier sub-tables alone. */
  lemma KeepOther(t: seq<Entry>, t1: seq<Entry>, root: nat, ty: CodeType, lens: seq<nat>, s: nat, next: nat, curr: nat,
                  c: Bits, e: Entry)
    requires |lens| <= MaxSymbols(ty) && Coded(lens, s) && Placed(t, root, ty, lens, s)
    requires Pow2(root) <= next && Filled(t, t1, next, curr, c, e, 0)
    requires lens[s] > root ==>
      var k := t[FromBits(Codeword(lens, s)[..root])]; k.val + Pow2(k.op) <= next
    ensures Placed(t1, root, ty, lens, s)
  {
    hide Pow2, Hit, FromBits, EntryFor, Codeword;
  }

  /** Writing under another code of the same sub-table leaves the entries of s alone. */
  lemma KeepSame(t: seq<Entry>, t1: seq<Entry>, root: nat, ty: CodeType, lens: seq<nat>, s: nat, u: nat, next: nat,
                 curr: nat)
    requires Kraft(lens) && |lens| <= MaxSymbols(ty) && Coded(lens, s) && Coded(lens, u) && s != u
    requires lens[s] > root && lens[u] > root && Placed(t, root, ty, lens, s)
    requires Codeword(lens, s)[..root] == Codeword(lens, u)[..root]
    requires t[FromBits(Codeword(lens, s)[..root])] == Entry(root, curr, next)
    requires Filled(t, t1, next, curr, Codeword(lens, u)[root..], EntryFor(ty, u, lens[u] - root), 0)
    ensures Placed(t1, root, ty, lens, s)
  {
    hide Pow2, Hit, FromBits, EntryFor, Codeword, Kraft;
    var w, c := Codeword(lens, s), Codeword(lens, u);
    forall v: Bits | |v| == curr && w[root..] <= v
      ensures t1[next + FromBits(v)] == EntryFor(ty, s, |w| - root)
    {
      HitIsPrefix(v, c[root..]);
      if c[root..] <= v { SamePrefix(lens, s, u, root, v); }
    }
  }

  lemma SamePrefix(lens: seq<nat>, s: nat, u: nat, root: nat, v: Bits)
    requires Kraft(lens) && Coded(lens, s) && Coded(lens, u) && lens[s] > root && lens[u] > root
    requires Codeword(lens, s)[..root] == Codeword(lens, u)[..root]
    requires Codeword(lens, s)[root..] <= v && Codeword(lens, u)[root..] <= v
    ensures s == u
  {
    var w, c := Codeword(lens, s), Codeword(lens, u);
    var b := w[..root] + v;
    assert w == b[..|w|] && c == b[..|c|];
    UniqueSymbol(lens, b, s, u);
  }

  lemma PlaceLong(t: seq<Entry>, t1: seq<Entry>, root: nat, ty: CodeType, lens: seq<nat>, u: nat, next: nat, curr: nat)
    requires |lens| <= MaxSymbols(ty) && Coded(lens, u) && root < lens[u] <= root + curr && curr <= 15
    requires Pow2(root) <= next && next + Pow2(curr) <= |t|
    requires t[FromBits(Codeword(lens, u)[..root])] == Entry(root, curr, next)
    requires Filled(t, t1, next, curr, Codeword(lens, u)[root..], EntryFor(ty, u, lens[u] - root), 0)
    ensures Placed(t1, root, ty, lens, u)
  {
    hide Pow2, Hit, FromBits, EntryFor, Codeword;
    var c := Codeword(lens, u);
    forall v: Bits | |v| == curr && c[root..] <= v
      ensures t1[next + FromBits(v)] == EntryFor(ty, u, |c| - root)
    {
      HitIsPrefix(v, c[root..]);
    }
  }

  /** The current sub-table, of prefix p, is where the root entry says. */
  ghost predicate Current(t: seq<Entry>, root: nat, next: nat, curr: nat, p: Bits)
  {
    |p| == root && 1 <= curr <= 15 && Pow2(root) <= next && next + Pow2(curr) <= |t| &&
    t[FromBits(p)] == Entry(root, curr, next)
  }

  lemma FillLong(t: seq<Entry>, t1: seq<Entry>, root: nat, ty: CodeType, lens: seq<nat>, i: nat, next: nat, curr: nat,
                 p: Bits)
    requires Kraft(lens) && |lens| <= MaxSymbols(ty) && i < Symbols(lens) && root < LenAt(lens, i) <= root + curr
    requires Entered(t, root, ty, lens, i) && Links(t, root, lens, i, next, curr, p)
    requires Current(t, root, next, curr, p) && Prefix(lens, root, i) == p
    requires Filled(t, t1, next, curr, WordAt(lens, i)[root..], EntryFor(ty, SymAt(lens, i), LenAt(lens, i) - root), 0)
    ensures Entered(t1, root, ty, lens, i + 1)
    ensures Links(t1, root, lens, i + 1, next, curr, p) && Current(t1, root, next, curr, p)
  {
    hide Placed, Kraft, Codeword, EntryFor, Symbols, Pow2, FromBits, Hit;
    forall j | 0 <= j < i + 1
      ensures Placed(t1, root, ty, lens, SymAt(lens, j))
    {
      FillLongOne(t, t1, root, ty, lens, i, next, curr, p, j);
    }
  }

  lemma FillLongOne(t: seq<Entry>, t1: seq<Entry>, root: nat, ty: CodeType, lens: seq<nat>, i: nat, next: nat,
                    curr: nat, p: Bits, j: nat)
    requires Kraft(lens) && |lens| <= MaxSymbols(ty) && i < Symbols(lens) && root < LenAt(lens, i) <= root + curr
    requires Entered(t, root, ty, lens, i) && Links(t, root, lens, i, next, curr, p) && j <= i
    requires Current(t, root, next, curr, p) && Prefix(lens, root, i) == p
    requires Filled(t, t1, next, curr, WordAt(lens, i)[root..], EntryFor(ty, SymAt(lens, i), LenAt(lens, i) - root), 0)
    ensures Placed(t1, root, ty, lens, SymAt(lens, j))
  {
    hide Placed, Kraft, Codeword, EntryFor, Symbols, Pow2, FromBits, Filled;
    if j == i {
      PlaceLong(t, t1, root, ty, lens, SymAt(lens, i), next, curr);
    } else if LenAt(lens, j) > root && !(t[FromBits(Prefix(lens, root, j))].val
                                         + Pow2(t[FromBits(Prefix(lens, root, j))].op) <= next) {
      KeepSame(t, t1, root, ty, lens, SymAt(lens, j), SymAt(lens, i), next, curr);
    } else {
      KeepOther(t, t1, root, ty, lens, SymAt(lens, j), next, curr, WordAt(lens, i)[root..],
                EntryFor(ty, SymAt(lens, i), LenAt(lens, i) - root));
    }
  }
}
