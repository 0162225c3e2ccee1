/** Looking a code up in the tables of inftrees.c gives what the code itself says, also when fewer bits than the
    table is indexed by are at hand and the index is filled up with zeros. */
module TableLookup {
  import opened Bits
  import opened Canonical
  import opened SortedCode
  import opened TableSpec
  import opened BitWriter
  import opened InflateTable
  import opened InflateSpec

  /** CODE_BITS. */
  function CodeBitsOf(e: Entry): (n: nat) { if e.op / 16 % 2 == 1 then e.op % 16 else e.bits }

  /** CODE_EXTRA. */
  function CodeExtraOf(e: Entry): (n: nat)
  {
    if e.op / 16 % 2 == 1 && e.bits >= e.op % 16 then e.bits - e.op % 16 else 0
  }

  /** An entry that points to a second table. */
  predicate IsLink(e: Entry) { 0 < e.op < 16 }

  /** BITS(n): the low n bits of the accumulator. */
  function BitsOf(h: Word, n: nat): (v: nat)
    requires n <= 64
  {
    FromBits(h[..n])
  }

  /** The low n2 bits above the low n1 bits: BITS(n1 + n2) >> n1. */
  function BitsAbove(h: Word, n1: nat, n2: nat): (v: nat)
    requires n1 + n2 <= 64
  {
    FromBits(h[n1..n1 + n2])
  }

  lemma IndexBound(h: Word, n1: nat, n2: nat)
    requires n1 + n2 <= 64
    ensures BitsAbove(h, n1, n2) < Pow2(n2) && (n1 == 0 ==> BitsAbove(h, n1, n2) == BitsOf(h, n2))
  {
    assert n1 == 0 ==> h[n1..n1 + n2] == h[..n2];
    BelowPow2(h[n1..n1 + n2]);
  }

  /** What a lookup that found entry e behind n0 bits has recognized. */
  ghost predicate Recognized(ty: CodeType, lens: seq<nat>, u: Bits, e: Entry, n0: nat)
    requires |lens| <= MaxSymbols(ty)
  {
    var f := Lookup(ty, lens, u);
    (f.Sym? && n0 < f.n <= 15 && e == EntryFor(ty, f.s, f.n - n0) && n0 + CodeBitsOf(e) == Need(ty, f.s, f.n) <= |u|) ||
    (f.Invalid? && e == INVALID && n0 == 0)
  }

  // ---- one level ----

  /** A code that fits the index is found at once. */
  lemma ShortEntry(ty: CodeType, lens: seq<nat>, t: seq<Entry>, root: nat, h: Word, s: nat)
    requires Decodes(t, root, ty, lens) && Kraft(lens) && Starts(lens, h, s) && lens[s] <= root
    ensures BitsOf(h, root) < |t| && t[BitsOf(h, root)] == EntryFor(ty, s, lens[s])
  {
    hide EntryFor, Codeword, Complete, FromBits, Pow2;
    IndexBound(h, 0, root);
    var w, v := Codeword(lens, s), h[..root];
    assert Placed(t, root, ty, lens, s);
    assert w <= v;
  }

  /** A longer code is found through a link. */
  lemma LongEntry(ty: CodeType, lens: seq<nat>, t: seq<Entry>, root: nat, h: Word, s: nat)
    requires Decodes(t, root, ty, lens) && Kraft(lens) && Starts(lens, h, s) && lens[s] > root
    ensures BitsOf(h, root) < |t|
    ensures var e := t[BitsOf(h, root)];
      IsLink(e) && e.bits == root && root + e.op <= 64 && e.val + BitsAbove(h, root, e.op) < |t| &&
      t[e.val + BitsAbove(h, root, e.op)] == EntryFor(ty, s, lens[s] - root)
  {
    hide EntryFor, Codeword, Complete, FromBits, Pow2;
    IndexBound(h, 0, root);
    var w := Codeword(lens, s);
    assert Placed(t, root, ty, lens, s);
    assert h[..root] == w[..root];
    var e := t[BitsOf(h, root)];
    var v := h[root..root + e.op];
    IndexBound(h, root, e.op);
    assert w[root..] <= v;
  }

  lemma EntryBits(ty: CodeType, s: nat, n: nat)
    requires s < MaxSymbols(ty) && n <= 15
    ensures CodeBitsOf(EntryFor(ty, s, n)) == Need(ty, s, n) && n <= Need(ty, s, n) <= n + 15
    ensures !IsLink(EntryFor(ty, s, n)) && (ty == DISTS ==> EntryFor(ty, s, n).op >= 16)
  {
    if s >= TableSpec.Match(ty) {
      var k := s - TableSpec.Match(ty);
      OpValues(ty, k);
      CombinedBits(if ty == LENS then LEXT[k] else DEXT[k], n);
    }
  }

  lemma OpValues(ty: CodeType, k: nat)
    requires (ty == LENS && k < 31) || (ty == DISTS && k < 32)
    ensures var op := if ty == LENS then LEXT[k] else DEXT[k]; op >= 16
  {
    if ty == LENS { LOps(k); } else { DOps(k); }
  }

  lemma LOps(k: nat)
    requires k < 31
    ensures LEXT[k] >= 16
  {
  }

  lemma DOps(k: nat)
    requires k < 32
    ensures DEXT[k] >= 16
  {
  }

  lemma CombinedBits(op: nat, n: nat)
    requires n <= 15
    ensures (n + 16) / 16 % 2 == 1 && (n + 16) % 16 == n && n + 16 >= 16
  {
  }

  /** The low nibble of an op does not depend on where the code is split. */
  lemma NeedSplit(ty: CodeType, s: nat, n: nat, n0: nat)
    requires s < MaxSymbols(ty) && n0 < n <= 15
    ensures Need(ty, s, n) == n0 + Need(ty, s, n - n0)
  {
    if s >= TableSpec.Match(ty) {
      var k := s - TableSpec.Match(ty);
      CombinedBits(if ty == LENS then LEXT[k] else DEXT[k], n);
      CombinedBits(if ty == LENS then LEXT[k] else DEXT[k], n - n0);
    }
  }

  // ---- complete codes ----

  /** What symbol starts the accumulator, and what that says about its valid bits. */
  lemma FoundOwner(ty: CodeType, lens: seq<nat>, h: Word, b: nat, s: nat)
    requires |lens| <= MaxSymbols(ty) && Complete(lens) && Starts(lens, h, s) && b <= 64
    ensures lens[s] <= 15 && (Need(ty, s, lens[s]) <= b ==> Lookup(ty, lens, h[..b]) == Sym(s, lens[s]))
    ensures Need(ty, s, lens[s]) > b ==> Lookup(ty, lens, h[..b]) == More
  {
    hide Codeword, Below, EntryFor, Need;
    var u := h[..b];
    if Need(ty, s, lens[s]) <= b {
      EntryBits(ty, s, lens[s]);
      assert Starts(lens, u, s);
      LookupIs(ty, lens, u, s);
    } else if exists t: nat :: Starts(lens, u, t) {
      var t := Owner(lens, u);
      assert Codeword(lens, t) <= h;
      UniqueSymbol(lens, h, s, t);
    }
  }

  lemma CoveredWord(lens: seq<nat>, h: Word) returns (s: nat)
    requires Complete(lens)
    ensures Starts(lens, h, s)
  {
    hide Codeword, Complete;
    s := Covered(lens, h);
  }

  /** The first level lookup with b valid bits. */
  lemma FirstLevel(ty: CodeType, lens: seq<nat>, t: seq<Entry>, root: nat, h: Word, b: nat)
    requires Decodes(t, root, ty, lens) && Accepts(ty, lens) && b <= 64 && Clear(h, b)
    ensures BitsOf(h, root) < |t|
    ensures var e := t[BitsOf(h, root)];
      (CodeBitsOf(e) > b ==> Lookup(ty, lens, h[..b]) == More) &&
      (CodeBitsOf(e) <= b && !IsLink(e) ==> Recognized(ty, lens, h[..b], e, 0)) &&
      (IsLink(e) ==> e.bits == root == CodeBitsOf(e) && !NoLonger(lens, root)) &&
      CodeBitsOf(e) <= 30 && (ty == DISTS && !IsLink(e) ==> e.op >= 16) &&
      (CodeBitsOf(e) <= b && !IsLink(e) && Lookup(ty, lens, h[..b]).Sym? ==> Lookup(ty, lens, h[..b]).n <= root)
  {
    hide Codeword, Below, EntryFor, FromBits, Decodes, Lookup, Need, Pow2;
    DecodesSize(ty, lens, t, root);
    if Complete(lens) {
      var s := CoveredWord(lens, h);
      FoundOwner(ty, lens, h, b, s);
      if lens[s] <= root {
        ShortEntry(ty, lens, t, root, h, s);
        EntryBits(ty, s, lens[s]);
      } else {
        LongEntry(ty, lens, t, root, h, s);
        EntryBits(ty, s, lens[s]);
        LinkBits(t[BitsOf(h, root)]);
      }
    } else {
      Incomplete(ty, lens, t, root, h, b);
    }
  }

  lemma DecodesSize(ty: CodeType, lens: seq<nat>, t: seq<Entry>, root: nat)
    requires Decodes(t, root, ty, lens)
    ensures 1 <= root <= 15 && Pow2(root) <= |t| && |lens| <= MaxSymbols(ty)
  {
  }

  lemma LinkBits(e: Entry)
    requires IsLink(e)
    ensures CodeBitsOf(e) == e.bits
  {
  }

  /** The second level lookup with b valid bits. */
  lemma SecondLevel(ty: CodeType, lens: seq<nat>, t: seq<Entry>, root: nat, h: Word, b: nat)
    requires Decodes(t, root, ty, lens) && Accepts(ty, lens) && b <= 64 && Clear(h, b)
    requires BitsOf(h, root) < |t| && IsLink(t[BitsOf(h, root)])
    ensures var l := t[BitsOf(h, root)];
      root + l.op <= 64 && l.bits == root && l.val + BitsAbove(h, root, l.op) < |t| &&
      var e := t[l.val + BitsAbove(h, root, l.op)];
      (root + CodeBitsOf(e) > b ==> Lookup(ty, lens, h[..b]) == More) && root + CodeBitsOf(e) <= 30 &&
      (root + CodeBitsOf(e) <= b ==> Recognized(ty, lens, h[..b], e, root))
  {
    hide Codeword, Below, EntryFor, FromBits, Decodes, Lookup, Need, Pow2;
    DecodesSize(ty, lens, t, root);
    if Complete(lens) {
      var s := CoveredWord(lens, h);
      FoundOwner(ty, lens, h, b, s);
      if lens[s] <= root {
        ShortEntry(ty, lens, t, root, h, s);
        EntryBits(ty, s, lens[s]);
      } else {
        LongEntry(ty, lens, t, root, h, s);
        EntryBits(ty, s, lens[s] - root);
        NeedSplit(ty, s, lens[s], root);
      }
    } else {
      Incomplete(ty, lens, t, root, h, b);
    }
  }

  // ---- incomplete codes ----

  lemma OneBitIndex(h: Word)
    ensures BitsOf(h, 1) == if h[0] then 1 else 0
  {
    assert h[..1] == [h[0]];
    assert h[..1][1..] == [];
  }

  /** The accepted incomplete codes: none at all, or 0 for one symbol. */
  lemma Incomplete(ty: CodeType, lens: seq<nat>, t: seq<Entry>, root: nat, h: Word, b: nat)
    requires Decodes(t, root, ty, lens) && Accepts(ty, lens) && !Complete(lens) && b <= 64 && Clear(h, b)
    ensures BitsOf(h, root) < |t|
    ensures var e := t[BitsOf(h, root)];
      !IsLink(e) && (CodeBitsOf(e) > b ==> Lookup(ty, lens, h[..b]) == More) &&
      (CodeBitsOf(e) <= b ==> Recognized(ty, lens, h[..b], e, 0)) && CodeBitsOf(e) <= 30 &&
        (ty == DISTS ==> e.op >= 16) &&
      (CodeBitsOf(e) <= b && Lookup(ty, lens, h[..b]).Sym? ==> Lookup(ty, lens, h[..b]).n <= root)
  {
    hide Codeword, Below, EntryFor, FromBits, Lookup, Need, Pow2, Accepts, Placed;
    OneBitIndex(h);
    assert Pow2(root) >= 2 by { assert root == 1; Pow2Table(); }
    AcceptsKraft(ty, lens);
    var e := t[BitsOf(h, root)];
    if exists s: nat :: Coded(lens, s) {
      var s: nat :| Coded(lens, s);
      OnlySymbol(ty, lens, s);
      if h[0] {
        NotStarted(ty, lens, h, b, s);
      } else {
        OnlyEntry(ty, lens, t, h, b, s);
      }
    } else {
      NoSymbols(lens);
      NoneStarts(ty, lens, h[..b]);
    }
  }

  lemma OnlySymbol(ty: CodeType, lens: seq<nat>, s: nat)
    requires Accepts(ty, lens) && !Complete(lens) && Coded(lens, s)
    ensures Codeword(lens, s) == [false] && lens[s] == 1 && forall t: nat :: Coded(lens, t) ==> t == s
  {
    hide Codeword, Below, Offs, Rank;
    RankRange(lens, s);
    OnlyCode(lens, s);
    forall t: nat | Coded(lens, t)
      ensures t == s
    {
      OnlyCode(lens, t);
      PrefixFree(lens, s, t);
    }
  }

  lemma NoSymbols(lens: seq<nat>)
    requires forall s: nat :: !Coded(lens, s)
    ensures Symbols(lens) == 0
  {
    hide Offs;
    forall i | 0 <= i < |lens|
      ensures lens[i] == 0
    {
      assert !Coded(lens, i);
    }
    NoOffs(lens, MAX_BITS + 1);
  }

  lemma {:induction false} NoOffs(lens: seq<nat>, l: nat)
    requires forall i :: 0 <= i < |lens| ==> lens[i] == 0
    ensures Offs(lens, l) == 0
    decreases |lens|
  {
    if |lens| == 0 {
      OffsEmpty(l);
    } else {
      var n := |lens| - 1;
      NoOffs(lens[..n], l);
      OffsSnoc(lens[..n], lens[n], l);
      assert lens == lens[..n] + [lens[n]];
    }
  }

  /** No code starts u, so that a bit of u is an invalid code. */
  lemma NoneStarts(ty: CodeType, lens: seq<nat>, u: Bits)
    requires |lens| <= MaxSymbols(ty) && !Complete(lens) && forall s: nat :: !Starts(lens, u, s)
    ensures |u| >= 1 ==> Recognized(ty, lens, u, INVALID, 0)
    ensures |u| == 0 ==> Lookup(ty, lens, u) == More
    ensures CodeBitsOf(INVALID) == 1
  {
    hide Complete;
  }

  lemma NotStarted(ty: CodeType, lens: seq<nat>, h: Word, b: nat, s: nat)
    requires |lens| <= MaxSymbols(ty) && !Complete(lens) && b <= 64 && Clear(h, b) && h[0]
    requires Coded(lens, s) && Codeword(lens, s) == [false] && forall t: nat :: Coded(lens, t) ==> t == s
    ensures b >= 1 && Recognized(ty, lens, h[..b], INVALID, 0) && CodeBitsOf(INVALID) == 1 && !IsLink(INVALID)
  {
    hide Codeword, Complete, Lookup;
    assert b >= 1;
    var u := h[..b];
    forall t: nat
      ensures !Starts(lens, u, t)
    {
      assert u[0];
    }
    NoneStarts(ty, lens, u);
  }

  lemma OnlyEntry(ty: CodeType, lens: seq<nat>, t: seq<Entry>, h: Word, b: nat, s: nat)
    requires Decodes(t, 1, ty, lens) && Kraft(lens) && !Complete(lens) && b <= 64 && !h[0]
    requires Coded(lens, s) && lens[s] == 1 && !Codeword(lens, s)[0]
    ensures 0 < |t| && BitsOf(h, 1) == 0
    ensures CodeBitsOf(t[0]) <= 30 && (ty == DISTS ==> t[0].op >= 16)
    ensures !IsLink(t[0]) && (CodeBitsOf(t[0]) > b ==> Lookup(ty, lens, h[..b]) == More)
    ensures CodeBitsOf(t[0]) <= b ==> Recognized(ty, lens, h[..b], t[0], 0)
    ensures CodeBitsOf(t[0]) <= b && Lookup(ty, lens, h[..b]).Sym? ==> Lookup(ty, lens, h[..b]).n <= 1
  {
    hide Codeword, Below, EntryFor, FromBits, Decodes, Lookup, Need, Pow2;
    DecodesSize(ty, lens, t, 1);
    OneBitIndex(h);
    assert Starts(lens, h, s);
    ShortEntry(ty, lens, t, 1, h, s);
    EntryBits(ty, s, 1);
    var u := h[..b];
    if b >= 1 {
      assert Starts(lens, u, s);
      LookupIs(ty, lens, u, s);
    } else {
      NoneOfNothing(ty, lens);
      assert u == [];
    }
  }

  lemma NoneOfNothing(ty: CodeType, lens: seq<nat>)
    requires |lens| <= MaxSymbols(ty)
    ensures Lookup(ty, lens, []) == More
  {
    hide Codeword;
    forall s: nat
      ensures !Starts(lens, [], s)
    {
      assert Coded(lens, s) ==> |Codeword(lens, s)| > 0;
    }
  }

  /** A code that fewer bits did not decide is longer than those. */
  lemma NeedsMore(ty: CodeType, lens: seq<nat>, p: Bits, u: Bits, e: Entry, n0: nat)
    requires |lens| <= MaxSymbols(ty) && Kraft(lens) && p <= u && Lookup(ty, lens, p) == More &&
      Recognized(ty, lens, u, e, n0)
    ensures n0 + CodeBitsOf(e) > |p|
  {
    hide Codeword, Below, EntryFor, Need;
    var f := Lookup(ty, lens, u);
    if f.Sym? && n0 + CodeBitsOf(e) <= |p| {
      EntryBits(ty, f.s, f.n);
      assert Starts(lens, p, f.s);
      LookupIs(ty, lens, p, f.s);
    } else if f.Invalid? {
      forall t: nat
        ensures !Starts(lens, p, t)
      {
        assert Starts(lens, p, t) ==> Starts(lens, u, t);
      }
    }
  }
}
