/** deflate_p.h: what the compression strategies share: tallying symbols, flushing blocks, and the state they keep. */
module DeflateState {
  import opened Bits
  import opened BitWriter
  import opened Slices
  import opened Tokens
  import opened FlushBlock
  import opened Decoding
  import opened BlockRoundTrip
  import opened GenCodes
  import opened BlockCost
  import opened MatchFinder
  import opened SlidingWindow
  import opened Reinserts
  import opened TokenMeaning

  datatype BlockStatus = NeedMore | BlockDone | FinishStarted | FinishDone

  /** The parts of deflate_state that a strategy works on. */
  class Deflater {
    const lz: Lz
    const bs: BlockState
    const maxLazy: nat
    const goodMatch: nat
    const niceMatch: nat
    const maxChain: nat
    const fixed: bool
    var sent: nat
    var availOut: nat
    var matchAvailable: bool
    ghost var blocks: seq<Block>
    ghost var parts: seq<seq<Token>>

    /** deflateInit2 for a raw stream; the window size is at least 512. */
    constructor (w: nat, size: nat, rolling: bool, lazy: nat, good: nat, nice: nat, chain: nat, bufsize: nat, fix: bool,
                 data: seq<Byte>, ghost ahead: bool)
      requires 512 <= w && Multiple(size, w) && 2 * w <= size <= 65536
      requires chain < 0x1_0000_0000 && 2 <= lazy && 128 <= bufsize <= 32768
      ensures Ready(0) && lz.ahead == ahead && !matchAvailable && lz.nextIn == data && lz.input == [] &&
        blocks == [] && lz.base == 0 && lz.v == Vars(0, 0, 2 * w - MIN_LOOKAHEAD, 0, 0, 0, 0, 0, 0)
      ensures lz.wSize == w && lz.windowSize == size && lz.roll == rolling && bs.litBufsize == bufsize && bs.toks == []
      ensures (maxLazy, goodMatch, niceMatch, maxChain, fixed) == (lazy, good, nice, chain, fix) && parts == []
      ensures AllZero(lz.window[..]) && AllZero(lz.head[..]) && AllZero(lz.prev[..])
      ensures fresh(lz) && fresh(lz.window) && fresh(lz.head) && fresh(lz.prev)
      ensures fresh(bs) && fresh(bs.w) && fresh(bs.dynL) && fresh(bs.dynD) && fresh(bs.blTree)
    {
      lz := new Lz(w, size, rolling, data, ahead);
      bs := new BlockState(bufsize);
      maxLazy, goodMatch, niceMatch, maxChain, fixed := lazy, good, nice, chain, fix;
      sent, availOut, matchAvailable, blocks, parts := 0, 0, false, [], [];
      new;
      hide *;
      WriterSmall(bs);
      MakeReady();
    }

    lemma MakeReady()
      requires lz.Valid() && bs.Valid() && bs.toks == [] && blocks == [] && bs.w.Stream() == [] && bs.w.biValid <= 64
      requires parts == []
      requires maxChain < 0x1_0000_0000 && 2 <= maxLazy && 128 <= bs.litBufsize <= 32768
      requires lz.input == [] && lz.base == 0 && lz.v.blockStart == 0
      ensures Ready(0)
    {
      hide Lz.Valid, BlockState.Valid, BitWriter.Stream, Means;
      MeansNothing([], 0);
    }

    /** Settings of the levels above 1, and a symbol buffer of at least 128 symbols. */
    ghost predicate Settings()
      reads this
    {
      maxChain < 0x1_0000_0000 && 2 <= maxLazy && 128 <= bs.litBufsize <= 32768
    }

    /** The stream so far consists of the blocks, and blocks and tokens stand for the input up to p. */
    ghost predicate Tracking(p: int)
      reads this, lz, bs, bs.w
    {
      bs.w.biValid <= 64 && bs.w.Stream() == Unfinished([], blocks) && Carries(blocks, parts) &&
      Tracks(blocks, bs.toks, lz.input, lz.base + lz.v.blockStart, p)
    }

    /** All symbols that have been tallied: those of the blocks, and those that wait for the next one. */
    ghost function Said(): (toks: seq<Token>)
      reads this`parts, bs`toks
    {
      Flat(parts) + bs.toks
    }

    /** Everything before p has been tallied, and the block has room for n more symbols. */
    ghost predicate Open(p: int, n: nat)
      reads this, lz, bs, bs.w, bs.dynL, bs.dynD, bs.blTree
    {
      Settings() && bs.Valid() && |bs.toks| + n <= bs.litBufsize && Tracking(p)
    }

    /** All of the state, if everything before p has been tallied. */
    ghost predicate Ready(p: int)
      reads this, lz, lz.window, lz.head, lz.prev, bs, bs.w, bs.dynL, bs.dynD, bs.blTree
    {
      lz.Valid() && Open(p, 2)
    }
  }

  lemma WriterSmall(bs: BlockState)
    requires bs.Valid()
    ensures bs.w.biValid <= 64
  {
    hide HasCodes, Tallied, Tokens.Holds;
  }

  /** Every coded block carries the symbols that were tallied for it; a stored one has their bytes instead. */
  ghost predicate Carries(blocks: seq<Block>, parts: seq<seq<Token>>)
  {
    |parts| == |blocks| && forall i :: 0 <= i < |blocks| ==> blocks[i].Stored? || BlockTokens(blocks[i]) == parts[i]
  }

  lemma CarriesOn(blocks: seq<Block>, parts: seq<seq<Token>>, b: Block, toks: seq<Token>, buf: Option<seq<nat>>)
    requires Carries(blocks, parts) && GoodBlock(b, toks, buf)
    ensures Carries(blocks + [b], parts + [toks])
  {
    hide GoodDynamic;
  }

  function Flat(parts: seq<seq<Token>>): (toks: seq<Token>)
  {
    if parts == [] then [] else Flat(parts[..|parts| - 1]) + parts[|parts| - 1]
  }

  lemma FlatOn(parts: seq<seq<Token>>, toks: seq<Token>)
    ensures Flat(parts + [toks]) + [] == Flat(parts) + toks
  {
    assert (parts + [toks])[..|parts|] == parts;
  }

  /** What has gone to the output is taken off the space for it; either there is none left, or all complete bytes of the
      stream have gone. */
  ghost predicate Delivered(s: Deflater, sent: nat, availOut: nat)
    reads s, s.bs, s.bs.w
  {
    s.sent + s.availOut == sent + availOut && sent <= s.sent && s.bs.w.biValid < 8 &&
    (s.sent == sent || s.sent <= |s.bs.w.pending| / 8) && (s.availOut == 0 || |s.bs.w.pending| / 8 <= s.sent)
  }

  /** flush_pending: move complete bytes to the output. */
  method FlushPending(s: Deflater)
    requires s.bs.w.Valid()
    modifies s`sent, s`availOut, s.bs.w
    ensures s.bs.w.Valid() && s.bs.w.Stream() == old(s.bs.w.Stream())
    ensures Delivered(s, old(s.sent), old(s.availOut))
  {
    s.bs.w.FlushBits();
    var pending := |s.bs.w.pending| / 8;
    var len := if pending <= s.sent then 0 else if pending - s.sent < s.availOut then pending - s.sent else s.availOut;
    s.sent, s.availOut := s.sent + len, s.availOut - len;
  }

  /** The bytes of the current block, if they are still in the window. */
  function Current(w: seq<nat>, v: Vars): (buf: Option<seq<nat>>)
    requires v.blockStart <= v.strstart <= |w|
  {
    if v.blockStart >= 0 then Some(w[v.blockStart..v.strstart]) else None
  }

  lemma CurrentIs(w: seq<nat>, v: Vars, input: seq<nat>, base: nat)
    requires HoldsInput(w, v, input, base) && v.blockStart <= v.strstart
    ensures Current(w, v).Some? ==> Current(w, v).value == input[base + v.blockStart..base + v.strstart]
  {
    if v.blockStart >= 0 {
      SubSlice(w, 0, v.strstart + v.lookahead, v.blockStart, v.strstart);
      SubSlice(input, base, |input|, v.blockStart, v.strstart);
      assert input[base..] == input[base..|input|];
    }
  }

  /** The state after a block has been flushed. */
  lemma TracksFlushed(w: seq<nat>, v: Vars, input: seq<nat>, base: nat, blocks: seq<Block>, toks: seq<Token>, b: Block)
    requires HoldsInput(w, v, input, base) && v.blockStart <= v.strstart <= 65535
    requires Tracks(blocks, toks, input, base + v.blockStart, base + v.strstart) && GoodBlock(b, toks, Current(w, v))
    ensures Tracks(blocks + [b], [], input, base + v.strstart, base + v.strstart)
  {
    hide Tracks, GoodBlock;
    CurrentIs(w, v, input, base);
    TracksFlush(blocks, toks, input, base + v.blockStart, base + v.strstart, b, Current(w, v));
  }

  /** zng_tr_flush_block for the current block, with the bytes in the window. */
  method SendBlock(s: Deflater, last: bool) returns (ghost b: Block, ghost dyn: Block)
    requires s.Settings() && s.lz.Sound() && s.bs.Valid() && s.Tracking(s.lz.base + s.lz.v.strstart) &&
      s.lz.v.strstart <= 65535
    modifies s.bs, s.bs.w, s.bs.dynL, s.bs.dynD, s.bs.blTree
    ensures s.bs.Valid() && s.bs.toks == [] && s.lz.Sound()
    ensures Tracks(s.blocks + [b], [], s.lz.input, s.lz.base + s.lz.v.strstart, s.lz.base + s.lz.v.strstart)
    ensures s.bs.w.Stream() == if last then StreamOf([], s.blocks + [b]) else Unfinished([], s.blocks + [b])
    ensures Carries(s.blocks + [b], s.parts + [old(s.bs.toks)])
    ensures IsSent(old(s.bs.toks), b, dyn, s.lz.window[..], s.lz.v, s.fixed)
  {
    hide Below, Tracks, WithBlock, Align, GoodBlock, Unfinished, Tallied, HasCodes, Tokens.Holds, StreamOf, FillForm,
      Multiple, Current, CodedBits, Bytes, Carries, IsSent, Smallest;
    var lz := s.lz;
    WindowSize(lz.window[..], lz.v, lz.input, lz.base);
    var buf := Current(lz.window[..], lz.v);
    CurrentSize(lz.window[..], lz.v);
    ghost var toks := s.bs.toks;
    var predicted;
    predicted, b, dyn := s.bs.FlushBlock(buf, lz.v.strstart - lz.v.blockStart, last, 2, s.fixed);
    TracksFlushed(lz.window[..], lz.v, lz.input, lz.base, s.blocks, toks, b);
    CarriesOn(s.blocks, s.parts, b, toks, buf);
    MakeSent(lz.window[..], lz.v, toks, b, dyn, buf, s.fixed);
    UnfinishedSnoc([], s.blocks, b);
  }

  /** The block b is the smallest form of the symbols, the stored one being possible if the bytes are still in the
      window. */
  ghost predicate IsSent(toks: seq<Token>, b: Block, dyn: Block, w: seq<nat>, v: Vars, fixed: bool)
  {
    v.blockStart <= v.strstart <= |w| &&
    if toks == [] then b == Fixed([])
    else
      dyn.Dynamic? && GoodBlock(dyn, toks, None) &&
      b == Smallest(dyn, Fixed(toks), if v.blockStart < 0 then None else Some(w[v.blockStart..v.strstart]), fixed)
  }

  lemma MakeSent(w: seq<nat>, v: Vars, toks: seq<Token>, b: Block, dyn: Block, buf: Option<seq<nat>>, fixed: bool)
    requires v.blockStart <= v.strstart <= |w| && buf == Current(w, v)
    requires toks == [] ==> b == Fixed([])
    requires toks != [] ==> dyn.Dynamic? && GoodBlock(dyn, toks, buf) && b == Smallest(dyn, Fixed(toks), buf, fixed)
    ensures IsSent(toks, b, dyn, w, v, fixed)
  {
    hide GoodDynamic, Smallest;
  }

  lemma CurrentSize(w: seq<nat>, v: Vars)
    requires v.blockStart <= v.strstart <= |w|
    ensures Current(w, v).Some? ==> |Current(w, v).value| == v.strstart - v.blockStart <= v.strstart
  {
  }

  lemma WindowSize(w: seq<nat>, v: Vars, input: seq<nat>, base: nat)
    requires HoldsInput(w, v, input, base)
    ensures v.strstart + v.lookahead <= |w| && |input| == base + v.strstart + v.lookahead
  {
  }

  /** FLUSH_BLOCK_ONLY for a block that is not the last one. */
  method FlushBlockOnly(s: Deflater)
    requires s.Settings() && s.lz.Sound() && s.bs.Valid() && s.Tracking(s.lz.base + s.lz.v.strstart) &&
      s.lz.v.strstart <= 65535
    modifies s`sent, s`availOut, s`blocks, s`parts, s.lz`v, s.bs, s.bs.w, s.bs.dynL, s.bs.dynD, s.bs.blTree
    ensures s.lz.Sound() && s.Open(s.lz.base + s.lz.v.strstart, 2) &&
      s.lz.v == old(s.lz.v).(blockStart := old(s.lz.v.strstart))
    ensures s.bs.toks == [] && s.Said() == old(s.Said()) && Delivered(s, old(s.sent), old(s.availOut))
  {
    hide Below, Tracks, Unfinished, Tallied, HasCodes, Tokens.Holds, FillForm, Multiple, Flat, Carries, IsSent;
    hide BlockState.Shape;
    FlatOn(s.parts, s.bs.toks);
    ghost var toks := s.bs.toks;
    ghost var b, dyn := SendBlock(s, false);
    s.lz.v := s.lz.v.(blockStart := s.lz.v.strstart);
    FlushPending(s);
    s.blocks, s.parts := s.blocks + [b], s.parts + [toks];
  }

  /** FLUSH_BLOCK for the last block. */
  method FlushLast(s: Deflater)
    requires s.Settings() && s.lz.Sound() && s.bs.Valid() && s.Tracking(s.lz.base + s.lz.v.strstart) &&
      s.lz.v.strstart <= 65535
    modifies s`sent, s`availOut, s`blocks, s`parts, s.lz`v, s.bs, s.bs.w, s.bs.dynL, s.bs.dynD, s.bs.blTree
    ensures s.bs.w.Valid() && |s.blocks| > 0 && s.bs.w.Stream() == StreamOf([], s.blocks)
    ensures Tracks(s.blocks, [], s.lz.input, s.lz.base + s.lz.v.strstart, s.lz.base + s.lz.v.strstart)
    ensures s.lz.v == old(s.lz.v).(blockStart := old(s.lz.v.strstart))
    ensures s.bs.toks == [] && s.Said() == old(s.Said()) && Carries(s.blocks, s.parts)
    ensures Delivered(s, old(s.sent), old(s.availOut))
  {
    hide Below, Tracks, StreamOf, Tallied, HasCodes, Tokens.Holds, FillForm, Multiple, Flat, Carries, IsSent;
    hide Lz.Sound, Deflater.Settings, Deflater.Tracking;
    FlatOn(s.parts, s.bs.toks);
    ghost var toks := s.bs.toks;
    ghost var b, dyn := SendBlock(s, true);
    s.lz.v := s.lz.v.(blockStart := s.lz.v.strstart);
    FlushPending(s);
    s.blocks, s.parts := s.blocks + [b], s.parts + [toks];
  }

  // ---- tallying ----

  lemma TracksLit(blocks: seq<Block>, toks: seq<Token>, input: seq<nat>, b: int, p: int)
    requires Tracks(blocks, toks, input, b, p) && p < |input|
    ensures input[p] < 256 && Tracks(blocks, toks + [Lit(input[p])], input, b, p + 1)
  {
    hide Means, AllSendable, Contents;
    MeansRange(toks, input, b, p);
    MeansLit(toks, input, b, p);
  }

  lemma MeansRange(toks: seq<Token>, input: seq<nat>, b: int, p: int)
    requires Means(toks, input, b, p)
    ensures 0 <= b <= p <= |input|
  {
  }

  lemma TracksMatch(blocks: seq<Block>, toks: seq<Token>, input: seq<nat>, b: int, p: int, dist: nat, len: nat)
    requires Tracks(blocks, toks, input, b, p) && Repeats(input, p, dist, len) && len >= 3
    ensures Tracks(blocks, toks + [Match(len - 3, dist)], input, b, p + len)
  {
    hide Means, AllSendable, Contents, Repeats;
    MeansMatch(toks, input, b, p, dist, len);
  }

  /** Tally the byte at place p of the input as a literal. */
  method PutLiteral(s: Deflater, c: nat, ghost p: int) returns (full: bool)
    requires s.Open(p, 1) && 0 <= p < |s.lz.input| && c == s.lz.input[p]
    modifies s.bs, s.bs.w, s.bs.dynL, s.bs.dynD, s.bs.blTree
    ensures s.Open(p + 1, 0) && |s.bs.toks| == old(|s.bs.toks|) + 1 && (full <==> |s.bs.toks| == s.bs.litBufsize - 1)
    ensures s.Said() == old(s.Said()) + [Lit(c)]
  {
    hide Tracks, Tallied, HasCodes, Tokens.Holds;
    TracksLit(s.blocks, s.bs.toks, s.lz.input, s.lz.base + s.lz.v.blockStart, p);
    full := s.bs.TallyLit(c);
  }

  /** Tally a match at place p of the input. */
  method PutMatch(s: Deflater, dist: nat, len: nat, ghost p: int) returns (full: bool)
    requires s.Open(p, 1) && 3 <= len <= 258 && dist <= 32768 && Repeats(s.lz.input, p, dist, len)
    modifies s.bs, s.bs.w, s.bs.dynL, s.bs.dynD, s.bs.blTree
    ensures s.Open(p + len, 0) && |s.bs.toks| == old(|s.bs.toks|) + 1 && (full <==> |s.bs.toks| == s.bs.litBufsize - 1)
    ensures s.Said() == old(s.Said()) + [Match(len - 3, dist)]
  {
    hide Tracks, Tallied, HasCodes, Tokens.Holds;
    TracksMatch(s.blocks, s.bs.toks, s.lz.input, s.lz.base + s.lz.v.blockStart, p, dist, len);
    full := s.bs.TallyDist(dist, len - 3);
  }

  // ---- more input ----

  lemma TracksMore(blocks: seq<Block>, toks: seq<Token>, input: seq<nat>, b: int, p: int, input': seq<nat>)
    requires Tracks(blocks, toks, input, b, p) && input <= input' && AreBytes(input')
    ensures Tracks(blocks, toks, input', b, p)
  {
    hide AllSendable, Contents;
    MeansMore(toks, input, b, p, input');
    assert input'[..b] == input[..b];
  }

  lemma BytesIn(a: seq<nat>, b: seq<Byte>, a': seq<nat>, b': seq<Byte>)
    requires a + b == a' + b' && AreBytes(a)
    ensures AreBytes(a')
  {
    forall i | 0 <= i < |a'|
      ensures a'[i] < 256
    {
      assert a'[i] == (a + b)[i];
    }
  }

  lemma TracksBytes(blocks: seq<Block>, toks: seq<Token>, input: seq<nat>, b: int, p: int)
    requires Tracks(blocks, toks, input, b, p)
    ensures AreBytes(input) && 0 <= b <= p <= |input|
  {
    hide AllSendable, Contents, Expand, Within;
  }

  lemma SameBlock(v: Vars, base: nat, v': Vars, base': nat)
    requires SamePlace(v, base, v', base')
    ensures base + v.blockStart == base' + v'.blockStart
  {
  }

  /** fill_window: the tokens still stand for the same part of the input. */
  method Refill(s: Deflater, ghost p: int)
    requires s.Ready(p) && s.lz.v.lookahead < MIN_LOOKAHEAD && s.lz.v.strstart < s.lz.v.fillEnd + MIN_LOOKAHEAD
    modifies s.lz, s.lz.window, s.lz.head, s.lz.prev
    ensures s.Ready(p) && s.lz.input + s.lz.nextIn == old(s.lz.input + s.lz.nextIn) && old(s.lz.input) <= s.lz.input
    ensures SamePlace(old(s.lz.v), old(s.lz.base), s.lz.v, s.lz.base) && s.lz.v.lookahead >= old(s.lz.v.lookahead)
    ensures s.lz.v.strstart < s.lz.v.fillEnd && (s.lz.v.lookahead >= MIN_LOOKAHEAD || s.lz.nextIn == [])
    ensures s.lz.v.lookahead + |s.lz.nextIn| == old(s.lz.v.lookahead + |s.lz.nextIn|)
    ensures LinksKept(old(s.lz.prev[..]), s.lz.prev[..], old(s.lz.v), s.lz.base - old(s.lz.base))
    ensures Refills(old(s.lz.Now()), s.lz.Now(), s.lz.roll) && (old(s.lz.RollsOn()) ==> s.lz.RollsOn())
  {
    hide *;
    ghost var b, input, next, u := s.lz.base + s.lz.v.blockStart, s.lz.input, s.lz.nextIn, s.lz.Now();
    ReadyParts(s, p);
    SnapOf(s.lz);
    NowIs(s.lz);
    s.lz.FillWindow();
    SnapOf(s.lz);
    NowIs(s.lz);
    SameBlock(u.v, u.base, s.lz.v, s.lz.base);
    TracksRead(s.blocks, s.bs.toks, input, next, b, p, s.lz.input, s.lz.nextIn);
    ReadyAgain(s, p);
    MakeRefills(u, s.lz.Now(), s.lz.roll);
  }

  lemma ReadyParts(s: Deflater, p: int)
    requires s.Ready(p)
    ensures s.lz.Valid() && s.Settings() && s.bs.Valid() && |s.bs.toks| + 2 <= s.bs.litBufsize
    ensures s.bs.w.biValid <= 64 && s.bs.w.Stream() == Unfinished([], s.blocks) && Carries(s.blocks, s.parts)
    ensures Tracks(s.blocks, s.bs.toks, s.lz.input, s.lz.base + s.lz.v.blockStart, p)
  {
    hide Lz.Valid, BlockState.Valid, Deflater.Settings, Tracks;
  }

  lemma ReadyAgain(s: Deflater, p: int)
    requires s.lz.Valid() && s.Settings() && s.bs.Valid() && |s.bs.toks| + 2 <= s.bs.litBufsize
    requires s.bs.w.biValid <= 64 && s.bs.w.Stream() == Unfinished([], s.blocks) && Carries(s.blocks, s.parts)
    requires Tracks(s.blocks, s.bs.toks, s.lz.input, s.lz.base + s.lz.v.blockStart, p)
    ensures s.Ready(p)
  {
    hide Lz.Valid, BlockState.Valid, Deflater.Settings, Tracks;
  }

  /** The tokens stand for the same bytes when more input has been read. */
  lemma TracksRead(blocks: seq<Block>, toks: seq<Token>, input: seq<nat>, next: seq<Byte>, b: int, p: int,
                   input': seq<nat>, next': seq<Byte>)
    requires Tracks(blocks, toks, input, b, p) && input + next == input' + next' && input <= input'
    ensures Tracks(blocks, toks, input', b, p)
  {
    hide Tracks, AreBytes;
    TracksBytes(blocks, toks, input, b, p);
    BytesIn(input, next, input', next');
    TracksMore(blocks, toks, input, b, p, input');
  }
}
