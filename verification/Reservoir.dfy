/** inflate_p.h REFILL and inffast_tpl.h: a bit accumulator that is filled eight bytes at a time and may hold more bits
    of the stream than it counts. */
module Reservoir {
  import opened Bits
  import opened BitWriter
  import opened FlushBlock
  import opened TableSpec
  import opened InflateSpec
  import opened TableLookup
  import opened BitReader
  import opened InflateOutput

  /** u are the bits not consumed: the valid bits of h, then the input from idx on. The bits of h above the valid ones
      are zero or agree with u. */
  ghost predicate Agrees(h: Word, bits: nat, inp: seq<Byte>, idx: nat, u: Bits)
  {
    bits <= 63 && idx <= |inp| && u == h[..bits] + BytesBits(inp[idx..]) &&
    forall i :: bits <= i < 64 && h[i] ==> i < |u| && u[i]
  }

  lemma AgreesParts(h: Word, bits: nat, inp: seq<Byte>, idx: nat, u: Bits)
    requires Agrees(h, bits, inp, idx, u)
    ensures bits <= 63 && idx <= |inp| && |u| == bits + 8 * (|inp| - idx) && h[..bits] == u[..bits]
  {
  }

  /** Eight bytes as a word. */
  function Load64(inp: seq<Byte>, idx: nat): (w: Word)
    requires idx + 8 <= |inp|
  {
    BytesBits(inp[idx..idx + 8])
  }

  /** Or-ing eight more bytes over what is already there makes all 64 bits agree with the stream. */
  lemma RefillAgrees(h: Word, bits: nat, inp: seq<Byte>, idx: nat, u: Bits)
    requires Agrees(h, bits, inp, idx, u) && idx + 8 <= |inp|
    ensures |u| >= 64 && Or(h, Shl(Load64(inp, idx), bits)) == u[..64]
  {
    hide BytesBits, Or, Shl;
    var chunk := Load64(inp, idx);
    BytesSplit(inp[idx..], 8);
    assert inp[idx..][..8] == inp[idx..idx + 8];
    var rest := BytesBits(inp[idx..][8..]);
    assert u == h[..bits] + chunk + rest;
    OrAgrees(h, chunk, bits, u);
  }

  lemma OrAgrees(h: Word, chunk: Word, bits: nat, u: Bits)
    requires bits <= 63 && |u| >= bits + 64 && u[..bits + 64] == h[..bits] + chunk
    requires forall i :: bits <= i < 64 && h[i] ==> u[i]
    ensures Or(h, Shl(chunk, bits)) == u[..64]
  {
    var s := Shl(chunk, bits);
    forall i | 0 <= i < 64
      ensures Or(h, s)[i] == u[i]
    {
      assert u[i] == u[..bits + 64][i];
      if i < bits {
        assert !s[i];
      } else {
        assert s[i] == chunk[i - bits];
      }
    }
  }

  /** Taking n whole bytes over. */
  lemma TakeOver(h: Word, bits: nat, inp: seq<Byte>, idx: nat, u: Bits, h': Word, n: nat)
    requires Agrees(h, bits, inp, idx, u) && idx + n <= |inp| && bits + 8 * n <= 63 && |u| >= 64 && h' == u[..64]
    ensures Agrees(h', bits + 8 * n, inp, idx + n, u)
  {
    hide BytesBits;
    BytesSplit(inp[idx..], n);
    assert inp[idx..][n..] == inp[idx + n..];
    var a := BytesBits(inp[idx..][..n]);
    assert u == h[..bits] + a + BytesBits(inp[idx + n..]);
    assert h'[..bits + 8 * n] == u[..bits + 8 * n] == h[..bits] + a;
  }

  lemma RefillCount(bits: nat)
    requires bits <= 63
    ensures bits + 8 * ((63 - bits) / 8) == 56 + bits % 8
  {
  }

  /** REFILL: the number of bytes taken over is (63 ^ bits) >> 3, and bits | 56 bits are valid afterwards. */
  method Refill(h: Word, bits: nat, inp: seq<Byte>, idx: nat, ghost u: Bits) returns (h': Word, bits': nat, idx': nat)
    requires Agrees(h, bits, inp, idx, u) && idx + 8 <= |inp|
    ensures Agrees(h', bits', inp, idx', u) && 56 <= bits' && h' == u[..64] && |u| >= 64
    ensures idx' == idx + (63 - bits) / 8 && bits' == 56 + bits % 8
  {
    hide BytesBits, Or, Shl, Agrees, Load64;
    AgreesParts(h, bits, inp, idx, u);
    RefillAgrees(h, bits, inp, idx, u);
    RefillCount(bits);
    h' := Or(h, Shl(Load64(inp, idx), bits));
    TakeOver(h, bits, inp, idx, u, h', (63 - bits) / 8);
    idx' := idx + (63 - bits) / 8;
    bits' := 56 + bits % 8;
  }

  /** DROPBITS inside of the fast loop. */
  lemma DropAgrees(h: Word, bits: nat, inp: seq<Byte>, idx: nat, u: Bits, n: nat)
    requires Agrees(h, bits, inp, idx, u) && n <= bits
    ensures Agrees(Shr(h, n), bits - n, inp, idx, u[n..])
  {
    hide BytesBits;
    var h' := Shr(h, n);
    assert h'[..bits - n] == h[n..bits];
    assert u[n..] == h[n..bits] + BytesBits(inp[idx..]);
    forall i | bits - n <= i < 64 && h'[i]
      ensures i < |u[n..]| && u[n..][i]
    {
      assert i < 64 - n && h[i + n];
    }
  }

  // ---- table lookups ----

  /** An index made of valid bits finds the entry for what follows in the stream. */
  lemma FirstEntry(ty: CodeType, lens: seq<nat>, t: seq<Entry>, root: nat, h: Word, bits: nat, u: Bits)
    requires Decodes(t, root, ty, lens) && Accepts(ty, lens) && root <= bits <= 63 && |u| >= 64 &&
      h[..bits] == u[..bits]
    ensures |lens| <= MaxSymbols(ty) && BitsOf(h, root) < |t|
    ensures var e := t[BitsOf(h, root)];
      if IsLink(e) then e.bits == root
      else
        Recognized(ty, lens, u, e, 0) && (ty == DISTS ==> e.op >= 16) &&
        (Lookup(ty, lens, u).Sym? ==> Lookup(ty, lens, u).n <= root)
  {
    hide Decodes, Accepts, Lookup, Recognized, BitsOf, CodeBitsOf, IsLink;
    DecodesSize(ty, lens, t, root);
    var w: Word := u[..64];
    assert w[..64] == w;
    FirstLevel(ty, lens, t, root, w, 64);
    SameIndex(h, w, bits, u, root);
    var e := t[BitsOf(h, root)];
    if !IsLink(e) {
      RecognizedSome(ty, lens, w, e, 0);
      RecognizedMono(ty, lens, w, u[64..], e, 0);
      LookupMono(ty, lens, w, u[64..]);
      assert w + u[64..] == u;
    }
  }

  lemma SameIndex(h: Word, w: Word, bits: nat, u: Bits, n: nat)
    requires n <= bits <= 63 && |u| >= 64 && h[..bits] == u[..bits] && w == u[..64]
    ensures BitsOf(h, n) == BitsOf(w, n)
  {
    assert h[..n] == h[..bits][..n] == u[..bits][..n] == w[..n];
  }

  /** The entry behind a link, indexed after the bits of the link have been dropped. */
  lemma SecondEntry(ty: CodeType, lens: seq<nat>, t: seq<Entry>, root: nat, h: Word, bits: nat, u: Bits)
    requires Decodes(t, root, ty, lens) && Accepts(ty, lens) && root + 15 <= bits <= 63 && |u| >= 64 &&
      h[..bits] == u[..bits]
    requires BitsOf(h, root) < |t| && IsLink(t[BitsOf(h, root)])
    ensures var l := t[BitsOf(h, root)];
      |lens| <= MaxSymbols(ty) && l.val + BitsOf(Shr(h, root), l.op) < |t| &&
      Recognized(ty, lens, u, t[l.val + BitsOf(Shr(h, root), l.op)], root)
  {
    hide Decodes, Accepts, Lookup, Recognized, BitsOf, CodeBitsOf, BitsAbove;
    DecodesSize(ty, lens, t, root);
    var w: Word := u[..64];
    assert w[..64] == w;
    SameIndex(h, w, bits, u, root);
    SecondLevel(ty, lens, t, root, w, 64);
    var l := t[BitsOf(h, root)];
    ShiftedIndex(h, w, bits, u, root, l.op);
    RecognizedMono(ty, lens, w, u[64..], t[l.val + BitsOf(Shr(h, root), l.op)], root);
    assert w + u[64..] == u;
  }

  lemma ShiftedIndex(h: Word, w: Word, bits: nat, u: Bits, a: nat, n: nat)
    requires a + n <= bits <= 63 && |u| >= 64 && h[..bits] == u[..bits] && w == u[..64]
    ensures BitsOf(Shr(h, a), n) == BitsAbove(w, a, n)
  {
    assert Shr(h, a)[..n] == h[a..a + n] == h[..bits][a..a + n] == u[..bits][a..a + n] == w[a..a + n];
  }

  /** EXTRA_BITS: the extra bits behind the code, from the accumulator before both were dropped. */
  function ExtraBitsOf(old0: Word, e: Entry): (v: nat)
    requires e.op % 16 <= e.bits <= 64
  {
    BitsAbove(old0, e.op % 16, e.bits - e.op % 16)
  }

  lemma ExtraIsField(h: Word, bits: nat, u: Bits, e: Entry)
    requires e.op % 16 <= e.bits <= bits <= 63 && bits <= |u| && h[..bits] == u[..bits]
    ensures ExtraBitsOf(h, e) == Field(u, e.op % 16, e.bits - e.op % 16)
  {
    var a := e.op % 16;
    assert h[a..a + (e.bits - a)] == h[..bits][a..e.bits] == u[..bits][a..e.bits] == u[a..a + (e.bits - a)];
  }

  // ---- the end of the loop ----

  /** Whole bytes that have not been used are given back, and the rest of the accumulator is cleared: if the unread part
      of the stream starts at most seven bits before place idx0 of the input, the input does not go back past it. */
  lemma GiveBack(h: Word, bits: nat, inp: seq<Byte>, idx: nat, u: Bits, b0: Bits, s: Bits)
    requires Agrees(h, bits, inp, idx, u) && s == b0 + BytesBits(inp) && |u| <= |s| && u == s[|s| - |u|..]
    requires |u| < 8 * |inp| + 8
    ensures bits / 8 <= idx && u == h[..bits % 8] + BytesBits(inp[idx - bits / 8..])
  {
    hide BytesBits, Agrees;
    assert bits / 8 <= idx by { AgreesParts(h, bits, inp, idx, u); }
    AgreesParts(h, bits, inp, idx, u);
    var j, n := idx - bits / 8, bits % 8;
    BytesSplit(inp, j);
    SuffixOf(b0 + BytesBits(inp[..j]), BytesBits(inp[j..]), s, u, n);
    LowBits(h, bits, u, n);
  }

  lemma SuffixOf(a: Bits, t: Bits, s: Bits, u: Bits, n: nat)
    requires s == a + t && |u| <= |s| && u == s[|s| - |u|..] && |u| == n + |t|
    ensures u == u[..n] + t
  {
  }

  lemma LowBits(h: Word, bits: nat, u: Bits, n: nat)
    requires n <= bits <= 63 && bits <= |u| && h[..bits] == u[..bits]
    ensures h[..n] == u[..n]
  {
    assert h[..n] == h[..bits][..n] && u[..n] == u[..bits][..n];
  }
}
