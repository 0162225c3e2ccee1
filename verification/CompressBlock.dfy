/** trees.c compress_block and trees_emit.h zng_assemble_dist: the block data, merged into as few buffer updates as
    fit. */
module CompressBlock {
  import opened Bits
  import opened Slices
  import opened Canonical
  import opened GenCodes
  import opened BitWriter
  import opened EmitCode
  import opened MatchCodes
  import opened Tokens

  function And(a: Word, b: Word): (r: Word) { seq(64, i requires 0 <= i < 64 => a[i] && b[i]) }

  function Ones(n: nat): (b: Bits)
    ensures |b| == n
  {
    seq(n, i => true)
  }

  /** An entry of lmask_extra (width 8) or dmask_extra (width 16): the mask below, the bit count above it. */
  function MaskExtra(extra: nat, width: nat): (w: Word)
    requires extra <= width <= 16
  {
    ToWord(Ones(extra) + Zeros(width - extra) + ToBits(extra, 4))
  }

  /** The count above the mask does not disturb the value, which is narrower than the mask field. */
  lemma MaskKeepsLow(v: nat, extra: nat, width: nat)
    requires extra <= width <= 16 && v < Pow2(width)
    ensures Clear(And(ToWord(ToBits(v, width)), MaskExtra(extra, width)), extra)
    ensures And(ToWord(ToBits(v, width)), MaskExtra(extra, width))[..extra] == ToBits(v, extra)
  {
    hide Pow2, ToBits;
    ToBitsPrefix(v, extra, width);
    MaskBits(ToBits(v, width), extra, ToBits(extra, 4));
  }

  /** The count is what stands above the mask. */
  lemma MaskCount(extra: nat, width: nat)
    requires extra <= width <= 16 && extra < 16
    ensures FromBits(MaskExtra(extra, width)[width..]) == extra
  {
    hide FromBits, ToBits;
    Pow2Table();
    var n := 60 - width;
    assert MaskExtra(extra, width)[width..] == ToBits(extra, 4) + Zeros(n);
    ZerosAbove(ToBits(extra, 4), n);
    FromBitsToBits(extra, 4);
  }

  lemma {:induction false} ZerosAbove(b: Bits, n: nat)
    ensures FromBits(b + Zeros(n)) == FromBits(b)
  {
    if |b| == 0 {
      FromMsbZeros(n);
      assert b + Zeros(n) == Zeros(n);
    } else {
      ZerosAbove(b[1..], n);
      assert (b + Zeros(n))[1..] == b[1..] + Zeros(n);
    }
  }

  lemma MaskBits(a: Bits, extra: nat, above: Bits)
    requires extra <= |a| <= 16 && |above| == 4
    ensures var r := And(ToWord(a), ToWord(Ones(extra) + Zeros(|a| - extra) + above));
      Clear(r, extra) && r[..extra] == a[..extra]
  {
    var m := Ones(extra) + Zeros(|a| - extra) + above;
    assert forall i :: 0 <= i < |a| ==> m[i] == (i < extra);
    var x, y := ToWord(a), ToWord(m);
    assert forall i :: 0 <= i < |a| ==> x[i] == a[i] && y[i] == m[i];
    assert forall i :: |a| <= i < 64 ==> !x[i];
  }

  lemma {:induction false} ToBitsPrefix(v: nat, n: nat, m: nat)
    requires n <= m
    ensures ToBits(v, m)[..n] == ToBits(v, n)
  {
    if n > 0 { ToBitsPrefix(v / 2, n - 1, m - 1); }
  }

  /** Merge a value of n bits above the v bits already there. */
  method Merge(buf: Word, v: nat, val: Word, n: nat) returns (r: Word, len: nat)
    requires v < 64 && v + n <= 64 && Clear(buf, v) && Clear(val, n)
    ensures len == v + n && Clear(r, len) && r[..len] == buf[..v] + val[..n]
  {
    hide Or, Shl;
    MergeIsAppend(buf, val, v);
    r := Or(buf, Shl(val, v));
    len := v + n;
  }

  /** send_code_merge. */
  method MergeCode(buf: Word, v: nat, e: CtData, ghost lens: seq<nat>, ghost c: nat) returns (r: Word, len: nat)
    requires v <= 48 && Clear(buf, v) && Kraft(lens) && Coded(lens, c) && HasCode(e, lens, c)
    ensures v < len <= v + 15 && Clear(r, len) && r[..len] == buf[..v] + CodeBits(lens, c)
  {
    hide HasCode, Codeword, CodeWord, Kraft, CodeBits, Clear;
    CodeWordBits(e, lens, c);
    r, len := Merge(buf, v, CodeWord(e), e.dl);
  }

  /** Merge the low bits that a mask table entry selects, as many as it counts. */
  method MergeExtra(buf: Word, v: nat, val: nat, extra: nat, width: nat) returns (r: Word, len: nat)
    requires v <= 48 && Clear(buf, v) && extra <= width <= 16 && extra < 16 && v + extra <= 64 && val < Pow2(width)
    ensures len == v + extra && Clear(r, len) && r[..len] == buf[..v] + ToBits(val, extra)
  {
    hide Clear, And, ToBits, MaskExtra;
    MaskKeepsLow(val, extra, width);
    MaskCount(extra, width);
    var mask := MaskExtra(extra, width);
    r, len := Merge(buf, v, And(ToWord(ToBits(val, width)), mask), FromBits(mask[width..]));
  }

  lemma ExtraBound(lc: nat, d: nat)
    ensures ExtraL(LengthCode(lc)) <= 5 && ExtraD(DistCode(d)) <= 13
  {
  }

  /** A match as one bit string of at most 48 bits. */
  method AssembleDist(ltree: seq<CtData>, dtree: seq<CtData>, lc: nat, dist0: nat, ghost ll: seq<nat>,
                      ghost dl: seq<nat>)
    returns (bits: Word, len: nat)
    requires HasCodes(ltree, ll) && HasCodes(dtree, dl) && Kraft(ll) && Kraft(dl) && Codable(ll, dl, Match(lc, dist0))
    ensures len <= 48 && Clear(bits, len) && bits[..len] == TokenBits(ll, dl, Match(lc, dist0))
  {
    hide HasCodes, Kraft, Clear, CodeBits, LengthCode, DistCode, ExtraL, ExtraD, Pow2, ToBits, TokenBits, HasCode;
    ExtraBound(lc, dist0 - 1);
    SmallValues();
    var code := LengthCode(lc);
    HasOneCode(ltree, ll, 257 + code);
    ClearZeros();
    bits, len := MergeCode(Zeros(64), 0, ltree[257 + code], ll, 257 + code);
    bits, len := MergeExtra(bits, len, lc, ExtraL(code), 8);
    var dist := dist0 - 1;
    code := DistCode(dist);
    HasOneCode(dtree, dl, code);
    bits, len := MergeCode(bits, len, dtree[code], dl, code);
    bits, len := MergeExtra(bits, len, dist, ExtraD(code), 16);
    MatchJoined(ll, dl, lc, dist0);
  }

  lemma MatchJoined(ll: seq<nat>, dl: seq<nat>, lc: nat, dist: nat)
    requires dist > 0
    ensures [] + CodeBits(ll, 257 + LengthCode(lc)) + ToBits(lc, ExtraL(LengthCode(lc))) +
            CodeBits(dl, DistCode(dist - 1)) + ToBits(dist - 1, ExtraD(DistCode(dist - 1))) ==
            TokenBits(ll, dl, Match(lc, dist))
  {
    hide CodeBits, ToBits, LengthCode, DistCode, ExtraL, ExtraD;
  }

  lemma ClearZeros()
    ensures Clear(Zeros(64), 0) && Zeros(64)[..0] == []
  {
  }

  lemma SmallValues()
    ensures Pow2(8) == 256 && Pow2(16) == 65536
  {
    Pow2Table();
  }

  /** The tokens from i on that one iteration of the loop takes: a match, or up to three literals. */
  ghost predicate Taken(ll: seq<nat>, dl: seq<nat>, toks: seq<Token>, i: nat, j: nat, b: Bits)
  {
    i <= j <= |toks| && TokensBits(ll, dl, toks[i..]) == b + TokensBits(ll, dl, toks[j..])
  }

  lemma TakeNext(ll: seq<nat>, dl: seq<nat>, toks: seq<Token>, i: nat, j: nat, b: Bits)
    requires Taken(ll, dl, toks, i, j, b) && j < |toks|
    ensures Taken(ll, dl, toks, i, j + 1, b + TokenBits(ll, dl, toks[j]))
  {
    hide TokenBits, TokensBits;
    TokensStep(ll, dl, toks, j);
    assert b + (TokenBits(ll, dl, toks[j]) + TokensBits(ll, dl, toks[j + 1..])) ==
           b + TokenBits(ll, dl, toks[j]) + TokensBits(ll, dl, toks[j + 1..]);
  }

  /** All that is known of the symbols and the trees throughout the loop. */
  ghost predicate Sending(ltree: seq<CtData>, dtree: seq<CtData>, buf: Bits, ll: seq<nat>, dl: seq<nat>,
                          toks: seq<Token>)
  {
    HasCodes(ltree, ll) && HasCodes(dtree, dl) && Kraft(ll) && Kraft(dl) && Holds(buf, toks) &&
    Coded(ll, END_BLOCK) && forall i :: 0 <= i < |toks| ==> Codable(ll, dl, toks[i])
  }

  lemma SendingLit(ltree: seq<CtData>, dtree: seq<CtData>, buf: Bits, ll: seq<nat>, dl: seq<nat>, toks: seq<Token>,
                   i: nat)
    requires Sending(ltree, dtree, buf, ll, dl, toks) && i < |toks| && toks[i].Lit?
    ensures var c := toks[i].c;
      Coded(ll, c) && c < |ltree| && HasCode(ltree[c], ll, c) && Kraft(ll) &&
        TokenBits(ll, dl, toks[i]) == CodeBits(ll, c)
  {
    assert Codable(ll, dl, toks[i]);
  }

  lemma SendingSym(ltree: seq<CtData>, dtree: seq<CtData>, buf: Bits, ll: seq<nat>, dl: seq<nat>, toks: seq<Token>,
                   i: nat)
    requires Sending(ltree, dtree, buf, ll, dl, toks) && i < |toks|
    ensures 24 * |toks| + 8 <= |buf|
    ensures FromBits(buf[24 * i..24 * i + 16]) == (if toks[i].Match? then toks[i].dist else 0)
    ensures FromBits(buf[24 * i + 16..24 * i + 24]) == (if toks[i].Match? then toks[i].lc else toks[i].c)
    ensures toks[i].Match? ==> toks[i].dist > 0
  {
    hide FromBits;
    SymAt(buf, toks, i);
  }

  /** Up to two more literals in the same merge, read by one 64-bit load. */
  method MoreLiterals(ltree: seq<CtData>, buf: Bits, sx0: nat, symNext: nat, bits0: Word, nbits0: nat,
                      ghost dtree: seq<CtData>, ghost ll: seq<nat>, ghost dl: seq<nat>, ghost toks: seq<Token>,
                      ghost i: nat)
    returns (sx: nat, bits: Word, nbits: nat)
    requires Sending(ltree, dtree, buf, ll, dl, toks) && symNext == 3 * |toks| && sx0 % 3 == 0 && sx0 <= symNext
    requires nbits0 <= 15 && Clear(bits0, nbits0) && Taken(ll, dl, toks, i, sx0 / 3, bits0[..nbits0])
    ensures sx0 <= sx <= symNext && sx % 3 == 0 && nbits <= 45 && Clear(bits, nbits)
    ensures Taken(ll, dl, toks, i, sx / 3, bits[..nbits])
  {
    hide Sending, Taken, TokenBits, FromBits, CodeBits, Clear, Kraft, HasCode;
    sx, bits, nbits := sx0, bits0, nbits0;
    if sx + 8 <= symNext {
      ghost var k := sx / 3;
      SendingSym(ltree, dtree, buf, ll, dl, toks, k);
      SendingSym(ltree, dtree, buf, ll, dl, toks, k + 1);
      var nextSyms := buf[8 * sx..8 * sx + 64];
      Fields(buf, k);
      if FromBits(nextSyms[..16]) == 0 {
        TakeNext(ll, dl, toks, i, k, bits[..nbits]);
        SendingLit(ltree, dtree, buf, ll, dl, toks, k);
        bits, nbits := MergeCode(bits, nbits, ltree[FromBits(nextSyms[16..24])], ll, toks[k].c);
        sx := sx + 3;
        if FromBits(nextSyms[24..40]) == 0 {
          TakeNext(ll, dl, toks, i, k + 1, bits[..nbits]);
          SendingLit(ltree, dtree, buf, ll, dl, toks, k + 1);
          bits, nbits := MergeCode(bits, nbits, ltree[FromBits(nextSyms[40..48])], ll, toks[k + 1].c);
          sx := sx + 3;
        }
      }
    }
  }

  /** The fields of the two symbols in a 64-bit load. */
  lemma Fields(buf: Bits, k: nat)
    requires 24 * k + 64 <= |buf|
    ensures var v := buf[24 * k..24 * k + 64];
      v[..16] == buf[24 * k..24 * k + 16] && v[16..24] == buf[24 * k + 16..24 * k + 24] &&
      v[24..40] == buf[24 * (k + 1)..24 * (k + 1) + 16] && v[40..48] == buf[24 * (k + 1) + 16..24 * (k + 1) + 24]
  {
    SubSlice(buf, 24 * k, 24 * k + 64, 0, 16);
    SubSlice(buf, 24 * k, 24 * k + 64, 16, 24);
    SubSlice(buf, 24 * k, 24 * k + 64, 24, 40);
    SubSlice(buf, 24 * k, 24 * k + 64, 40, 48);
  }

  /** One iteration after the flush: the bits of the next symbols, at most 48 of them. */
  method NextSymbols(ltree: seq<CtData>, dtree: seq<CtData>, buf: Bits, sx0: nat, symNext: nat, ghost ll: seq<nat>,
                     ghost dl: seq<nat>, ghost toks: seq<Token>)
    returns (sx: nat, bits: Word, nbits: nat)
    requires Sending(ltree, dtree, buf, ll, dl, toks) && symNext == 3 * |toks| && sx0 % 3 == 0 && sx0 < symNext
    ensures sx0 < sx <= symNext && sx % 3 == 0 && nbits <= 48 && Clear(bits, nbits)
    ensures Taken(ll, dl, toks, sx0 / 3, sx / 3, bits[..nbits])
  {
    hide Sending, Taken, TokenBits, FromBits, CodeBits, Clear, Kraft, HasCode, HasCodes, Codable;
    ghost var i := sx0 / 3;
    SendingSym(ltree, dtree, buf, ll, dl, toks, i);
    TakeNone(ll, dl, toks, i);
    TakeNext(ll, dl, toks, i, i, []);
    assert [] + TokenBits(ll, dl, toks[i]) == TokenBits(ll, dl, toks[i]);
    var dist := FromBits(buf[8 * sx0..8 * sx0 + 16]);
    var lc := FromBits(buf[8 * sx0 + 16..8 * sx0 + 24]);
    assert 8 * sx0 == 24 * i;
    sx := sx0 + 3;
    if dist == 0 {
      SendingLit(ltree, dtree, buf, ll, dl, toks, i);
      ClearZeros();
      bits, nbits := MergeCode(Zeros(64), 0, ltree[lc], ll, lc);
      sx, bits, nbits := MoreLiterals(ltree, buf, sx, symNext, bits, nbits, dtree, ll, dl, toks, i);
    } else {
      SendingMatch(ltree, dtree, buf, ll, dl, toks, i);
      bits, nbits := AssembleDist(ltree, dtree, lc, dist, ll, dl);
    }
  }

  lemma TakeNone(ll: seq<nat>, dl: seq<nat>, toks: seq<Token>, i: nat)
    requires i <= |toks|
    ensures Taken(ll, dl, toks, i, i, [])
  {
  }

  lemma SendingMatch(ltree: seq<CtData>, dtree: seq<CtData>, buf: Bits, ll: seq<nat>, dl: seq<nat>, toks: seq<Token>,
                     i: nat)
    requires Sending(ltree, dtree, buf, ll, dl, toks) && i < |toks| && toks[i].Match?
    ensures HasCodes(ltree, ll) && HasCodes(dtree, dl) && Kraft(ll) && Kraft(dl) && Codable(ll, dl, toks[i])
  {
  }

  lemma SendingEnd(ltree: seq<CtData>, dtree: seq<CtData>, buf: Bits, ll: seq<nat>, dl: seq<nat>, toks: seq<Token>)
    requires Sending(ltree, dtree, buf, ll, dl, toks)
    ensures Kraft(ll) && Coded(ll, END_BLOCK) && END_BLOCK < |ltree| && HasCode(ltree[END_BLOCK], ll, END_BLOCK)
  {
  }

  /** Send the block data compressed using the given trees. */
  method CompressBlock(w: BitWriter, ltree: seq<CtData>, dtree: seq<CtData>, buf: Bits, symNext: nat,
                       ghost ll: seq<nat>, ghost dl: seq<nat>, ghost toks: seq<Token>)
    requires w.Valid() && Sending(ltree, dtree, buf, ll, dl, toks) && symNext == 3 * |toks|
    modifies w
    ensures w.Valid() && w.Stream() == old(w.Stream()) + BodyBits(ll, dl, toks)
  {
    hide Sending, Taken, TokensBits, CodeBits, Kraft, HasCode, Clear;
    ghost var s0 := w.Stream();
    TokensEnd(ll, dl, toks);
    var sx := 0;
    while sx < symNext
      invariant sx % 3 == 0 && sx <= symNext && w.Valid()
      invariant w.Stream() + TokensBits(ll, dl, toks[sx / 3..]) == s0 + TokensBits(ll, dl, toks)
    {
      w.SendBitsFlush();
      var bits, nbits;
      ghost var i := sx / 3;
      sx, bits, nbits := NextSymbols(ltree, dtree, buf, sx, symNext, ll, dl, toks);
      ghost var s1 := w.Stream();
      w.SendBitsMerge(bits, nbits);
      TakenStep(ll, dl, toks, i, sx / 3, bits[..nbits], s1);
    }
    SendingEnd(ltree, dtree, buf, ll, dl, toks);
    assert sx / 3 == |toks| && w.Stream() + [] == w.Stream();
    SendCode(w, ltree[END_BLOCK], ll, END_BLOCK);
  }

  lemma TakenStep(ll: seq<nat>, dl: seq<nat>, toks: seq<Token>, i: nat, j: nat, b: Bits, s: Bits)
    requires Taken(ll, dl, toks, i, j, b)
    ensures j <= |toks| && s + TokensBits(ll, dl, toks[i..]) == s + b + TokensBits(ll, dl, toks[j..])
  {
  }
}
