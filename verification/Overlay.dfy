/** deflate.c deflateInit2 and trees.c compress_block: the symbols of a block lie in the buffer that receives its
    compressed data. The output chases the symbols, and every flush stores eight bytes, whether it has them or not; it
    never reaches a symbol that has not been read, as long as no symbol takes more than 31 bits. */
module Overlay {
  import opened Bits
  import opened Slices
  import opened Canonical
  import opened GenCodes
  import opened MatchCodes
  import opened Tokens
  import opened FixedCodes
  import opened BitWriter
  import opened CompressBlock

  const PENDING_BUF_PAD: nat := 8

  /** The first bit of the symbol buffer, which starts lit_bufsize bytes and the padding into the pending buffer. */
  function SymBase(bufsize: nat): (n: nat) { 8 * (bufsize + PENDING_BUF_PAD) }

  /** PENDING_BUF_SIZE, in bits. */
  function BufferBits(bufsize: nat): (n: nat) { 8 * (4 * bufsize + 1 + PENDING_BUF_PAD) }

  /** The symbols from the k-th on are where they were tallied. */
  ghost predicate Unread(mem: Bits, bufsize: nat, toks: seq<Token>, k: nat)
  {
    k <= |toks| <= bufsize && |mem| == BufferBits(bufsize) && (forall i :: 0 <= i < |toks| ==> ValidToken(toks[i])) &&
    mem[SymBase(bufsize) + 24 * k..SymBase(bufsize) + 24 * |toks|] == SymBuf(toks)[24 * k..]
  }

  lemma {:induction false} SymBufDrop(toks: seq<Token>, k: nat)
    requires k <= |toks|
    ensures SymBuf(toks[k..]) == SymBuf(toks)[24 * k..]
    decreases |toks|
  {
    hide SymBits;
    if k < |toks| {
      var n := |toks| - 1;
      SymBufDrop(toks[..n], k);
      assert toks[k..][..n - k] == toks[..n][k..] && toks[k..][n - k] == toks[n];
      assert SymBuf(toks)[24 * k..] == SymBuf(toks[..n])[24 * k..] + SymBits(toks[n]);
    }
  }

  /** What is unread is a symbol buffer of the remaining symbols. */
  lemma UnreadHolds(mem: Bits, bufsize: nat, toks: seq<Token>, k: nat)
    requires Unread(mem, bufsize, toks, k)
    ensures Holds(mem[SymBase(bufsize) + 24 * k..], toks[k..])
  {
    var at, n := SymBase(bufsize) + 24 * k, |toks| - k;
    SymBufDrop(toks, k);
    SubSlice(mem, at, |mem|, 0, 24 * n);
    assert mem[at..] == mem[at..|mem|];
  }

  lemma {:induction false} TokensShort(ll: seq<nat>, dl: seq<nat>, toks: seq<Token>, k: nat)
    requires k <= |toks| && forall i :: 0 <= i < |toks| ==> |TokenBits(ll, dl, toks[i])| <= 31
    ensures |TokensBits(ll, dl, toks)| <= |TokensBits(ll, dl, toks[k..])| + 31 * k
    decreases |toks|
  {
    hide TokenBits;
    if k > 0 {
      TokensShort(ll, dl, toks[1..], k - 1);
      assert toks[1..][k - 1..] == toks[k..];
    } else {
      assert toks[0..] == toks;
    }
  }

  /** A store before the unread symbols leaves them alone. */
  lemma StoreKeeps(mem: Bits, mem': Bits, bufsize: nat, toks: seq<Token>, k: nat, hi: nat)
    requires Unread(mem, bufsize, toks, k) && |mem'| == |mem| && hi <= SymBase(bufsize) + 24 * k &&
      mem'[hi..] == mem[hi..]
    ensures Unread(mem', bufsize, toks, k)
  {
    var a, b := SymBase(bufsize) + 24 * k, SymBase(bufsize) + 24 * |toks|;
    SubSlice(mem, hi, |mem|, a - hi, b - hi);
    SubSlice(mem', hi, |mem|, a - hi, b - hi);
    assert mem[hi..] == mem[hi..|mem|] && mem'[hi..] == mem'[hi..|mem|];
  }

  lemma UnreadLater(mem: Bits, bufsize: nat, toks: seq<Token>, k: nat, k': nat)
    requires Unread(mem, bufsize, toks, k) && k <= k' <= |toks|
    ensures Unread(mem, bufsize, toks, k')
  {
    hide SymBuf;
    SymBufSize(toks);
    var a, b := SymBase(bufsize) + 24 * k, SymBase(bufsize) + 24 * |toks|;
    SameRest(mem, a, b, SymBuf(toks), 24 * k, 24 * (k' - k));
  }

  lemma SymBufSize(toks: seq<Token>)
    ensures |SymBuf(toks)| == 24 * |toks|
  {
  }

  /** Two parts that are the same are the same from m on. */
  lemma SameRest(x: Bits, a: nat, b: nat, y: Bits, i: nat, m: nat)
    requires a + m <= b <= |x| && i + (b - a) == |y| && x[a..b] == y[i..]
    ensures x[a + m..b] == y[i + m..]
  {
    SubSlice(x, a, b, m, b - a);
    SubSlice(y, i, |y|, m, b - a);
    assert y[i..] == y[i..|y|] && y[i + m..] == y[i + m..|y|];
  }

  /** zng_memwrite_8 at byte pending. */
  method Write8(mem: array<bool>, pending: nat, w: Word)
    requires 8 * pending + 64 <= mem.Length
    modifies mem
    ensures mem[..] == old(mem[..8 * pending]) + w + old(mem[8 * pending + 64..])
  {
    var at := 8 * pending;
    ghost var m := mem[..];
    for i := 0 to 64
      invariant mem[..at + i] == m[..at] + w[..i] && mem[at + i..] == m[at + i..]
    {
      mem[at + i] := w[i];
    }
    assert mem[..] == mem[..at + 64] + mem[at + 64..];
  }

  /** send_bits_flush: all eight bytes are stored, and the complete ones are kept. */
  method Flush(mem: array<bool>, pending0: nat, biBuf0: Word, biValid0: nat)
    returns (pending: nat, biBuf: Word, biValid: nat)
    requires 8 * pending0 + 64 <= mem.Length && biValid0 <= 64 && Clear(biBuf0, biValid0)
    modifies mem
    ensures biValid <= 7 && Clear(biBuf, biValid) && 8 * pending <= 8 * pending0 + 64 <= mem.Length
    ensures mem[..8 * pending] + biBuf[..biValid] == old(mem[..8 * pending0]) + biBuf0[..biValid0]
    ensures mem[8 * pending0 + 64..] == old(mem[8 * pending0 + 64..])
  {
    var n := biValid0 / 8 * 8;
    Write8(mem, pending0, biBuf0);
    pending, biBuf, biValid := pending0 + biValid0 / 8, Shr(biBuf0, n), biValid0 - n;
    assert mem[..8 * pending] == old(mem[..8 * pending0]) + biBuf0[..n];
    assert biBuf[..biValid] == biBuf0[n..biValid0];
    assert biBuf0[..n] + biBuf0[n..biValid0] == biBuf0[..biValid0];
  }

  /** The trees can send the tokens. */
  ghost predicate CanSend(ltree: seq<CtData>, dtree: seq<CtData>, ll: seq<nat>, dl: seq<nat>, toks: seq<Token>)
  {
    HasCodes(ltree, ll) && HasCodes(dtree, dl) && Kraft(ll) && Kraft(dl) && Coded(ll, END_BLOCK) &&
    forall i :: 0 <= i < |toks| ==> Codable(ll, dl, toks[i])
  }

  lemma SendingRest(ltree: seq<CtData>, dtree: seq<CtData>, mem: Bits, bufsize: nat, ll: seq<nat>, dl: seq<nat>,
                    toks: seq<Token>, k: nat)
    requires CanSend(ltree, dtree, ll, dl, toks) && Unread(mem, bufsize, toks, k)
    ensures Sending(ltree, dtree, mem[SymBase(bufsize) + 24 * k..], ll, dl, toks[k..])
  {
    hide HasCodes, Kraft, Unread, Codable, Holds;
    UnreadSize(mem, bufsize, toks, k);
    UnreadHolds(mem, bufsize, toks, k);
    forall i | 0 <= i < |toks[k..]|
      ensures Codable(ll, dl, toks[k..][i])
    {
      assert toks[k..][i] == toks[k + i];
    }
  }

  /** What has been written is s0 and the tokens before the k-th. */
  ghost predicate Written(mem: Bits, pending: nat, biBuf: Word, biValid: nat, s0: Bits, ll: seq<nat>, dl: seq<nat>,
                          toks: seq<Token>, k: nat)
  {
    k <= |toks| && 8 * pending <= |mem| && biValid <= 64 && Clear(biBuf, biValid) &&
    mem[..8 * pending] + biBuf[..biValid] + TokensBits(ll, dl, toks[k..]) == s0 + TokensBits(ll, dl, toks)
  }

  /** The output stays behind the symbols: with k of them read, eight bytes from pending on end before the next. */
  lemma Behind(mem: Bits, pending: nat, biBuf: Word, biValid: nat, s0: Bits, ll: seq<nat>, dl: seq<nat>,
               toks: seq<Token>, k: nat, bufsize: nat)
    requires Written(mem, pending, biBuf, biValid, s0, ll, dl, toks, k) && |s0| <= 10 && |toks| <= bufsize &&
      3 <= bufsize
    requires forall i :: 0 <= i < |toks| ==> |TokenBits(ll, dl, toks[i])| <= 31
    ensures k < |toks| ==> 8 * pending + 64 <= SymBase(bufsize) + 24 * k
    ensures 8 * pending + 64 <= BufferBits(bufsize)
  {
    hide TokenBits, TokensBits, Clear;
    TokensShort(ll, dl, toks, k);
    assert |mem[..8 * pending] + biBuf[..biValid] + TokensBits(ll, dl, toks[k..])| == |s0 + TokensBits(ll, dl, toks)|;
  }

  lemma WrittenFlush(mem: Bits, pending: nat, biBuf: Word, biValid: nat, mem': Bits, pending': nat, biBuf': Word,
                     biValid': nat, s0: Bits, ll: seq<nat>, dl: seq<nat>, toks: seq<Token>, k: nat)
    requires Written(mem, pending, biBuf, biValid, s0, ll, dl, toks, k) && 8 * pending' <= |mem'| && biValid' <= 64 &&
      Clear(biBuf', biValid')
    requires mem'[..8 * pending'] + biBuf'[..biValid'] == mem[..8 * pending] + biBuf[..biValid]
    ensures Written(mem', pending', biBuf', biValid', s0, ll, dl, toks, k)
  {
    hide TokensBits, Clear;
  }

  lemma WrittenMerge(mem: Bits, pending: nat, biBuf: Word, biValid: nat, biBuf': Word, bits: Word, nbits: nat, s0: Bits,
                     ll: seq<nat>, dl: seq<nat>, toks: seq<Token>, k: nat, k': nat)
    requires Written(mem, pending, biBuf, biValid, s0, ll, dl, toks, k) && biValid + nbits <= 64 &&
      Clear(bits, nbits) && biValid < 64
    requires biBuf' == Or(biBuf, Shl(bits, biValid)) && k <= k' && Taken(ll, dl, toks[k..], 0, k' - k, bits[..nbits])
    ensures Written(mem, pending, biBuf', biValid + nbits, s0, ll, dl, toks, k')
  {
    hide TokensBits, Or, Shl;
    MergeIsAppend(biBuf, bits, biValid);
    assert biBuf'[..biValid + nbits] == biBuf[..biValid] + bits[..nbits];
    assert toks[k..][0..] == toks[k..] && toks[k..][k' - k..] == toks[k'..];
    var a, b, c := mem[..8 * pending], biBuf[..biValid], TokensBits(ll, dl, toks[k'..]);
    assert a + (b + bits[..nbits]) + c == a + b + (bits[..nbits] + c);
    assert Clear(biBuf', biValid + nbits);
  }

  lemma WrittenStart(mem: Bits, biBuf: Word, biValid: nat, ll: seq<nat>, dl: seq<nat>, toks: seq<Token>)
    requires biValid <= 10 && Clear(biBuf, biValid)
    ensures Written(mem, 0, biBuf, biValid, biBuf[..biValid], ll, dl, toks, 0)
  {
    hide TokensBits, Clear;
    assert toks[0..] == toks && mem[..0] + biBuf[..biValid] == biBuf[..biValid];
  }

  /** compress_block in the shared buffer, from an empty pending buffer and at most seven bits and the block header on:
      every store ends at or before the first unread symbol, so that all symbols are read as they were tallied. */
  method SendSymbols(mem: array<bool>, bufsize: nat, ltree: seq<CtData>, dtree: seq<CtData>, symNext: nat, biBuf0: Word,
                     biValid0: nat, ghost ll: seq<nat>, ghost dl: seq<nat>, ghost toks: seq<Token>)
    returns (pending: nat, biBuf: Word, biValid: nat)
    requires CanSend(ltree, dtree, ll, dl, toks) && Unread(mem[..], bufsize, toks, 0) && symNext == 3 * |toks| &&
      128 <= bufsize
    requires biValid0 <= 10 && Clear(biBuf0, biValid0) && forall i :: 0 <= i < |toks| ==>
      |TokenBits(ll, dl, toks[i])| <= 31
    modifies mem
    ensures 8 * pending + 64 <= mem.Length && biValid < 64 && Clear(biBuf, biValid)
    ensures mem[..8 * pending] + biBuf[..biValid] == biBuf0[..biValid0] + TokensBits(ll, dl, toks)
  {
    hide CanSend, Unread, Written, Taken, TokenBits, TokensBits, Clear, Or, Shl, Sending;
    ghost var s0 := biBuf0[..biValid0];
    pending, biBuf, biValid := 0, biBuf0, biValid0;
    WrittenStart(mem[..], biBuf, biValid, ll, dl, toks);
    var sx := 0;
    UnreadSize(mem[..], bufsize, toks, 0);
    while sx < symNext
      invariant sx % 3 == 0 && sx <= symNext && biValid < 64
      invariant Unread(mem[..], bufsize, toks, sx / 3) &&
        Written(mem[..], pending, biBuf, biValid, s0, ll, dl, toks, sx / 3)
    {
      pending, biBuf, biValid := FlushBehind(mem, bufsize, pending, biBuf, biValid, s0, ll, dl, toks, sx / 3);
      ghost var k := sx / 3;
      SendingRest(ltree, dtree, mem[..], bufsize, ll, dl, toks, k);
      var n, bits, nbits := NextSymbols(ltree, dtree, mem[SymBase(bufsize) + 8 * sx..], 0, symNext - sx, ll, dl,
        toks[k..]);
      ghost var b := biBuf;
      biBuf := Or(biBuf, Shl(bits, biValid));
      WrittenMerge(mem[..], pending, b, biValid, biBuf, bits, nbits, s0, ll, dl, toks, k, k + n / 3);
      UnreadLater(mem[..], bufsize, toks, k, k + n / 3);
      biValid := biValid + nbits;
      sx := sx + n;
      assert sx / 3 == k + n / 3;
    }
    Behind(mem[..], pending, biBuf, biValid, s0, ll, dl, toks, |toks|, bufsize);
    WrittenAll(mem[..], pending, biBuf, biValid, s0, ll, dl, toks);
  }

  lemma UnreadSize(mem: Bits, bufsize: nat, toks: seq<Token>, k: nat)
    requires Unread(mem, bufsize, toks, k)
    ensures |mem| == BufferBits(bufsize) && k <= |toks| <= bufsize
  {
  }

  lemma WrittenAll(mem: Bits, pending: nat, biBuf: Word, biValid: nat, s0: Bits, ll: seq<nat>, dl: seq<nat>,
                   toks: seq<Token>)
    requires Written(mem, pending, biBuf, biValid, s0, ll, dl, toks, |toks|)
    ensures Clear(biBuf, biValid) && 8 * pending <= |mem| && biValid <= 64
    ensures mem[..8 * pending] + biBuf[..biValid] == s0 + TokensBits(ll, dl, toks)
  {
    assert toks[|toks|..] == [];
    assert mem[..8 * pending] + biBuf[..biValid] + [] == mem[..8 * pending] + biBuf[..biValid];
  }

  /** The flush at the head of the loop. */
  method FlushBehind(mem: array<bool>, ghost bufsize: nat, pending0: nat, biBuf0: Word, biValid0: nat, ghost s0: Bits,
                     ghost ll: seq<nat>, ghost dl: seq<nat>, ghost toks: seq<Token>, ghost k: nat)
    returns (pending: nat, biBuf: Word, biValid: nat)
    requires Unread(mem[..], bufsize, toks, k) && Written(mem[..], pending0, biBuf0, biValid0, s0, ll, dl, toks, k) &&
      k < |toks|
    requires |s0| <= 10 && 128 <= bufsize && forall i :: 0 <= i < |toks| ==> |TokenBits(ll, dl, toks[i])| <= 31
    modifies mem
    ensures Unread(mem[..], bufsize, toks, k) && Written(mem[..], pending, biBuf, biValid, s0, ll, dl, toks, k) &&
      biValid <= 7
  {
    hide Unread, Written, TokenBits, TokensBits, Clear;
    UnreadSize(mem[..], bufsize, toks, k);
    Behind(mem[..], pending0, biBuf0, biValid0, s0, ll, dl, toks, k, bufsize);
    WrittenClear(mem[..], pending0, biBuf0, biValid0, s0, ll, dl, toks, k);
    ghost var m0 := mem[..];
    pending, biBuf, biValid := Flush(mem, pending0, biBuf0, biValid0);
    assert m0[..8 * pending0] == old(mem[..8 * pending0]) && m0[8 * pending0 + 64..] == old(mem[8 * pending0 + 64..]);
    assert mem[..][8 * pending0 + 64..] == mem[8 * pending0 + 64..] && mem[..][..8 * pending] == mem[..8 * pending];
    StoreKeeps(m0, mem[..], bufsize, toks, k, 8 * pending0 + 64);
    WrittenFlush(m0, pending0, biBuf0, biValid0, mem[..], pending, biBuf, biValid, s0, ll, dl, toks, k);
  }

  lemma WrittenClear(mem: Bits, pending: nat, biBuf: Word, biValid: nat, s0: Bits, ll: seq<nat>, dl: seq<nat>,
                     toks: seq<Token>, k: nat)
    requires Written(mem, pending, biBuf, biValid, s0, ll, dl, toks, k)
    ensures Clear(biBuf, biValid) && biValid <= 64 && k <= |toks|
  {
  }

  // ---- fixed codes ----

  /** A length code of at most 8 bits with 5 extra bits, and a distance code of 5 bits with 13. */
  lemma FixedShortTokens(t: Token)
    requires ValidToken(t)
    ensures |TokenBits(FixedL(), FixedD(30), t)| <= 31
  {
    hide FixedL, FixedD, LengthCode, DistCode, ExtraL, ExtraD;
    FixedLengths(LSym(t));
    if t.Match? {
      ExtraBound(t.lc, t.dist - 1);
      LengthBelow(t.lc);
      FixedDistance(DSym(t));
    }
  }

  lemma FixedLengths(s: nat)
    ensures |CodeBits(FixedL(), s)| <= 9 && (256 <= s ==> |CodeBits(FixedL(), s)| <= 8)
  {
  }

  lemma FixedDistance(s: nat)
    ensures |CodeBits(FixedD(30), s)| <= 5
  {
  }

  lemma LengthBelow(lc: nat)
    ensures 257 + LengthCode(lc) >= 256
  {
  }

  /** So a fixed block never overwrites its own symbols. */
  method SendFixed(mem: array<bool>, bufsize: nat, ltree: seq<CtData>, dtree: seq<CtData>, symNext: nat, biBuf0: Word,
                   biValid0: nat, ghost toks: seq<Token>)
    returns (pending: nat, biBuf: Word, biValid: nat)
    requires CanSend(ltree, dtree, FixedL(), FixedD(30), toks) && Unread(mem[..], bufsize, toks, 0) &&
      symNext == 3 * |toks|
    requires 128 <= bufsize && biValid0 <= 10 && Clear(biBuf0, biValid0)
    modifies mem
    ensures 8 * pending + 64 <= mem.Length && biValid < 64 && Clear(biBuf, biValid)
    ensures mem[..8 * pending] + biBuf[..biValid] == biBuf0[..biValid0] + TokensBits(FixedL(), FixedD(30), toks)
  {
    hide CanSend, FixedL, FixedD, TokenBits, TokensBits, Clear;
    forall i | 0 <= i < |toks|
      ensures |TokenBits(FixedL(), FixedD(30), toks[i])| <= 31
    {
      FixedShortTokens(toks[i]);
    }
    pending, biBuf, biValid := SendSymbols(mem, bufsize, ltree, dtree, symNext, biBuf0, biValid0, FixedL(), FixedD(30),
      toks);
  }
}
