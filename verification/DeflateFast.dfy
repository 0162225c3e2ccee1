/** deflate_fast.c: greedy matching, with continuation of matches of the maximum length. */
module DeflateFast {
  import opened Arith
  import opened Bits
  import opened Tokens
  import opened GenCodes
  import opened BlockCost
  import opened FlushBlock
  import opened BlockRoundTrip
  import opened MatchFinder
  import opened HashChains
  import opened SlidingWindow
  import opened Reinserts
  import opened LoneRuns
  import opened TokenMeaning
  import opened DeflateState
  import opened LzSearch
  import opened MatchRuns
  import opened FastTurns

  datatype Flush = NoFlush | SyncFlush | Finish

  /** The state at the head of the loop: everything before the current string has been tallied. */
  ghost predicate AtString(s: Deflater)
    reads s, s.lz, s.lz.window, s.lz.head, s.lz.prev, s.bs, s.bs.w, s.bs.dynL, s.bs.dynD, s.bs.blTree
  {
    s.Ready(s.lz.base + s.lz.v.strstart) && s.lz.v.strstart < s.lz.v.fillEnd + MIN_LOOKAHEAD
  }

  /** The same, once the lookahead has been filled. */
  ghost predicate Filled(s: Deflater)
    reads s, s.lz, s.lz.window, s.lz.head, s.lz.prev, s.bs, s.bs.w, s.bs.dynL, s.bs.dynD, s.bs.blTree
  {
    s.Ready(s.lz.base + s.lz.v.strstart) && s.lz.v.strstart <= s.lz.v.fillEnd
  }

  /** All that has been read and all that is still to be read stays the same. */
  ghost predicate SameInput(input: seq<nat>, next: seq<Byte>, input': seq<nat>, next': seq<Byte>)
  {
    input <= input' && input + next == input' + next'
  }

  /** Make sure that there is enough lookahead, except at the end of the input. */
  method Fill(s: Deflater)
    requires AtString(s)
    modifies s.lz, s.lz.window, s.lz.head, s.lz.prev
    ensures Filled(s) && (s.lz.v.lookahead >= MIN_LOOKAHEAD || s.lz.nextIn == [])
    ensures SameInput(old(s.lz.input), old(s.lz.nextIn), s.lz.input, s.lz.nextIn)
    ensures s.lz.v.lookahead + |s.lz.nextIn| == old(s.lz.v.lookahead + |s.lz.nextIn|)
    ensures LinksKept(old(s.lz.prev[..]), s.lz.prev[..], old(s.lz.v), s.lz.base - old(s.lz.base))
    ensures if old(s.lz.v.lookahead) < MIN_LOOKAHEAD then Refills(old(s.lz.Now()), s.lz.Now(), s.lz.roll)
            else s.lz.Now() == old(s.lz.Now())
    ensures !s.lz.roll && LastFiled(old(s.lz.Now())) ==> LastFiled(s.lz.Now())
    ensures !s.lz.roll && LastFiled(old(s.lz.Now())) && NoneEarly(old(s.lz.Now()), false) ==>
      LiveKept(old(s.lz.Now()), s.lz.Now())
    ensures !s.lz.roll && !s.lz.ahead && LastFiled(old(s.lz.Now())) ==>
      Unflushed(old(s.lz.v)) || old(s.lz.nextIn) == [] ==>
      LiveKept(old(s.lz.Now()), s.lz.Now())
    ensures Unflushed(old(s.lz.v)) ==> Unflushed(s.lz.v)
  {
    hide Tracks, Tallied, HasCodes, Tokens.Holds, Below, FillForm, Multiple, HoldsInput, LinksKept, Refills, NoneEarly;
    hide BlockState.Valid, Deflater.Tracking, Deflater.Settings, LastFiled, LiveKept, Lz.Now;
    LinksStay(s.lz.prev[..], s.lz.v);
    ghost var u, none := s.lz.Now(), s.lz.nextIn == [];
    NowIs(s.lz);
    LiveStay(s.lz);
    if !s.lz.ahead && Unflushed(s.lz.v) { UnflushedSafe(s.lz, false); }
    EarlyEnd(s.lz);
    if s.lz.v.lookahead < MIN_LOOKAHEAD {
      Refill(s, s.lz.base + s.lz.v.strstart);
      NowIs(s.lz);
      if none { NoneRead(u, s.lz.Now(), s.lz.roll); }
      if Unflushed(u.v) { UnflushedFill(u, s.lz.Now(), s.lz.roll); }
      if !s.lz.roll && LastFiled(u) {
        RefillFiles(u, s.lz.Now());
        if NoneEarly(u, false) { AllLiveKept(u, s.lz.Now(), false); }
      }
    }
  }

  lemma EarlyEnd(lz: Lz)
    requires lz.Valid()
    ensures lz.v.strstart > 0 || lz.v.strstart < lz.v.fillEnd
  {
    hide Below, HoldsInput, Multiple, FillForm;
    EndPositive(lz.v, lz.wSize, lz.windowSize, lz.base);
  }

  lemma EndPositive(v: Vars, wSize: nat, windowSize: nat, base: nat)
    requires Placed(v, wSize, windowSize, base) && wSize >= 512
    ensures v.fillEnd > 0
  {
    var j: nat :| j >= 2 && v.fillEnd + MIN_LOOKAHEAD == j * wSize;
    MulLe(2, j, wSize);
  }

  lemma LiveStay(lz: Lz)
    requires lz.Valid()
    ensures LiveKept(lz.Now(), lz.Now())
  {
    hide Below, HoldsInput, Placed, Multiple, Enters, Slot;
  }

  lemma BufferEnd(lz: Lz)
    requires lz.Shape() && Placed(lz.v, lz.wSize, lz.windowSize, lz.base) &&
      lz.v.strstart < lz.v.fillEnd + MIN_LOOKAHEAD
    ensures lz.v.strstart <= 65535
  {
    hide Multiple, FillForm;
  }

  /** FLUSH_BLOCK if the block is full; true if the output is full. */
  method FlushFull(s: Deflater, full: bool) returns (stop: bool)
    requires s.lz.Valid() && s.Open(s.lz.base + s.lz.v.strstart, 0) && (!full ==> |s.bs.toks| + 2 <= s.bs.litBufsize)
    requires s.lz.v.strstart < s.lz.v.fillEnd + MIN_LOOKAHEAD
    modifies s`sent, s`availOut, s`blocks, s`parts, s.lz`v, s.bs, s.bs.w, s.bs.dynL, s.bs.dynD, s.bs.blTree
    ensures AtString(s) && s.lz.v == old(s.lz.v).(blockStart := s.lz.v.blockStart)
    ensures |s.bs.toks| <= old(|s.bs.toks|) && s.bs.toks == (if full then [] else old(s.bs.toks)) && (!full ==> !stop)
    ensures s.Said() == old(s.Said()) && (stop <==> full && s.availOut == 0)
    ensures if full then Delivered(s, old(s.sent), old(s.availOut))
            else s.sent == old(s.sent) && s.availOut == old(s.availOut)
  {
    hide Tracks, Tallied, HasCodes, Tokens.Holds, Below, FillForm, Multiple, HoldsInput, Flat, Carries, Delivered;
    hide BlockState.Valid, Deflater.Settings, Deflater.Tracking, Lz.Shape;
    stop := false;
    if full {
      BufferEnd(s.lz);
      FlushBlockOnly(s);
      stop := s.availOut == 0;
    }
  }

  lemma WindowByte(lz: Lz)
    requires HoldsInput(lz.window[..], lz.v, lz.input, lz.base) && lz.v.lookahead > 0
    ensures lz.v.strstart < lz.window.Length && lz.base + lz.v.strstart < |lz.input|
    ensures lz.window[lz.v.strstart] == lz.input[lz.base + lz.v.strstart]
  {
    assert lz.window[..][..lz.v.strstart + lz.v.lookahead][lz.v.strstart] == lz.input[lz.base..][lz.v.strstart];
  }

  /** No match: output a literal byte. */
  method TakeLiteral(s: Deflater) returns (full: bool)
    requires !s.lz.ahead && Inserted(s.lz, s.lz.v.strstart + 1) && s.Open(s.lz.base + s.lz.v.strstart, 2) &&
      s.lz.v.strstart <= s.lz.v.fillEnd
    requires s.lz.v.lookahead > 0
    modifies s.lz`v, s.bs, s.bs.w, s.bs.dynL, s.bs.dynD, s.bs.blTree
    ensures s.lz.Valid() && s.Open(s.lz.base + s.lz.v.strstart, 1) && (!full ==> |s.bs.toks| + 2 <= s.bs.litBufsize)
    ensures s.lz.v == old(s.lz.v).(strstart := old(s.lz.v.strstart) + 1, lookahead := old(s.lz.v.lookahead) - 1)
    ensures |s.bs.toks| == old(|s.bs.toks|) + 1 && (full <==> |s.bs.toks| == s.bs.litBufsize - 1)
    ensures old(s.lz.v.strstart) < s.lz.window.Length
    ensures s.Said() == old(s.Said()) + [Lit(s.lz.window[old(s.lz.v.strstart)])]
  {
    hide *;
    ghost var p := s.lz.base + s.lz.v.strstart;
    WindowByte(s.lz) by { InsertedParts(s.lz, s.lz.v.strstart + 1); }
    OpenRoom(s, p, 2, 1);
    full := PutLiteral(s, s.lz.window[s.lz.v.strstart], p);
    OpenFor(s, p + 1, 1);
    MoveTallied(s, 1, p + 1, 1);
  }

  lemma FoundParts(lz: Lz, start: nat, len: nat)
    requires Found(lz, start, len)
    ensures len <= STD_MAX_MATCH && len <= lz.v.lookahead && 0 < start < lz.v.strstart && lz.v.strstart - start <= 32768
    ensures Repeats(lz.input, lz.base + lz.v.strstart, lz.v.strstart - start, len)
  {
  }

  /** The chains are c with the strings at ps inserted. */
  ghost predicate PutAt(lz: Lz, c: Chains, ps: seq<nat>)
    reads lz.window, lz.head, lz.prev
  {
    Sized(c) && Fit(ps, lz.window.Length) && Chains(lz.head[..], lz.prev[..]) == PutEach(c, lz.window[..], ps)
  }

  lemma PutAtNone(lz: Lz)
    requires Sized(Chains(lz.head[..], lz.prev[..]))
    ensures PutAt(lz, Chains(lz.head[..], lz.prev[..]), [])
  {
    NoPut(Chains(lz.head[..], lz.prev[..]), lz.window[..]);
  }

  /** First the strings at ps, and then those at qs. */
  lemma PutAtJoin(lz: Lz, c: Chains, d: Chains, ps: seq<nat>, qs: seq<nat>)
    requires Sized(c) && Fit(ps, lz.window.Length) && d == PutEach(c, lz.window[..], ps) && PutAt(lz, d, qs)
    ensures PutAt(lz, c, ps + qs)
  {
    hide PutEach;
    PutEachJoin(c, lz.window[..], ps, qs);
  }

  /** Tally a match, insert its strings from str on, and move behind it. */
  method TakeMatch(s: Deflater, start: nat, len: nat, str: nat) returns (full: bool)
    requires !s.lz.ahead && Inserted(s.lz, s.lz.v.strstart + 1) && s.Open(s.lz.base + s.lz.v.strstart, 1) &&
      s.lz.v.strstart <= s.lz.v.fillEnd
    requires Found(s.lz, start, len) && WANT_MIN_MATCH <= len && s.lz.v.strstart <= str <= s.lz.v.strstart + 1
    modifies s.lz`v, s.lz.head, s.lz.prev, s.bs, s.bs.w, s.bs.dynL, s.bs.dynD, s.bs.blTree
    ensures s.lz.Valid() && s.Open(s.lz.base + s.lz.v.strstart, 0) && |s.bs.toks| == old(|s.bs.toks|) + 1
    ensures s.lz.v == old(s.lz.v).(strstart := old(s.lz.v.strstart) + len, lookahead := old(s.lz.v.lookahead) - len)
    ensures len <= STD_MAX_MATCH && (full <==> |s.bs.toks| == s.bs.litBufsize - 1)
    ensures Kept(old(s.lz.prev[..]), s.lz.prev[..], 0, old(s.lz.v.strstart), s.lz.v.strstart)
    ensures IsFirst(s.lz.head[..], s.lz.window[..], s.lz.v.strstart - 1)
    ensures old(start < s.lz.v.strstart) && s.Said() == old(s.Said()) + [Match(len - 3, old(s.lz.v.strstart) - start)]
    ensures 2 <= s.maxLazy
    ensures PutAt(s.lz, old(Chains(s.lz.head[..], s.lz.prev[..])),
                  InsertPlaces(str, s.lz.v.strstart - str, s.lz.v.lookahead, s.maxLazy))
  {
    hide *;
    Sizes();
    FoundParts(s.lz, start, len);
    EnoughInserts(s) by { OpenSettings(s, s.lz.base + s.lz.v.strstart, 1); }
    InsertedApart(s.lz, s.lz.v.strstart + 1);
    var p := s.lz.v.strstart;
    ghost var c := Chains(s.lz.head[..], s.lz.prev[..]);
    SizedIn(s.lz, p + 1);
    full := PutMatch(s, p - start, len, s.lz.base + p);
    InsertedMore(s.lz, p + 1, p + len);
    InsertFast(s.lz, str, p + len - str, len, s.maxLazy);
    IsPutAt(s.lz, c, InsertPlaces(str, p + len - str, s.lz.v.lookahead - len, s.maxLazy));
    MoveTallied(s, len, s.lz.base + p + len, 0);
  }

  /** Move on by n bytes that have been tallied. */
  method MoveTallied(s: Deflater, n: nat, ghost p: int, ghost room: nat)
    requires !s.lz.ahead && Inserted(s.lz, s.lz.v.strstart + n) && n <= s.lz.v.lookahead && s.Open(p, room)
    modifies s.lz`v
    ensures s.lz.Valid() && s.Open(p, room)
    ensures s.lz.v == old(s.lz.v).(strstart := old(s.lz.v.strstart) + n, lookahead := old(s.lz.v.lookahead) - n)
  {
    hide Tracks, Carries, BlockState.Valid, Deflater.Settings, Lz.Valid, Inserted;
    MoveOn(s.lz, n);
  }

  lemma SizedIn(lz: Lz, n: nat)
    requires Inserted(lz, n)
    ensures Sized(Chains(lz.head[..], lz.prev[..]))
  {
    hide Below, HoldsInput, Placed, Multiple;
  }

  lemma IsPutAt(lz: Lz, c: Chains, ps: seq<nat>)
    requires Sized(c) && Fit(ps, lz.window.Length) && Chains(lz.head[..], lz.prev[..]) == PutEach(c, lz.window[..], ps)
    ensures PutAt(lz, c, ps)
  {
    hide PutEach;
  }

  lemma InsertedParts(lz: Lz, n: nat)
    requires Inserted(lz, n)
    ensures lz.Sound() && lz.Shape() && Below(lz.head[..], n) && Below(lz.prev[..], n)
    ensures HoldsInput(lz.window[..], lz.v, lz.input, lz.base) && Placed(lz.v, lz.wSize, lz.windowSize, lz.base)
  {
    hide Below, HoldsInput, Placed, Lz.Shape;
  }

  lemma IsInserted(lz: Lz, n: nat)
    requires lz.Sound() && Below(lz.head[..], n) && Below(lz.prev[..], n)
    ensures Inserted(lz, n)
  {
    hide Below, Lz.Sound;
  }

  lemma OpenRoom(s: Deflater, p: int, n: nat, m: nat)
    requires s.Open(p, n) && m <= n
    ensures s.Open(p, m) && |s.bs.toks| + n <= s.bs.litBufsize && s.Settings() && s.bs.Valid() && s.Tracking(p)
  {
    hide BlockState.Valid, Deflater.Tracking, Deflater.Settings;
  }

  lemma OpenFor(s: Deflater, p: int, n: nat)
    requires s.Open(p, 0) && |s.bs.toks| + n <= s.bs.litBufsize
    ensures s.Open(p, n)
  {
    hide BlockState.Valid, Deflater.Tracking, Deflater.Settings;
  }

  lemma EnoughInserts(s: Deflater)
    requires s.Settings()
    ensures 2 <= s.maxLazy && s.maxChain < 0x1_0000_0000
  {
  }

  lemma InsertedMore(lz: Lz, m: nat, n: nat)
    requires Inserted(lz, m) && m <= n
    ensures Inserted(lz, n)
  {
    hide Below, HoldsInput, Placed;
    BelowMore(lz.head[..], m, n);
    BelowMore(lz.prev[..], m, n);
  }

  /** A match of the maximum length may go on: tally what repeats at the same distance without a search. */
  method ContinueMatch(s: Deflater, dist: nat, full0: bool) returns (full: bool, stop: bool, ghost more: seq<nat>)
    requires !s.lz.ahead && s.lz.Valid() && s.Open(s.lz.base + s.lz.v.strstart, if full0 then 1 else 2) &&
      MIN_LOOKAHEAD <= s.lz.v.lookahead
    requires 1 <= dist < s.lz.v.strstart && dist <= 32768
    requires IsFirst(s.lz.head[..], s.lz.window[..], s.lz.v.strstart - 1)
    modifies s, s.lz`v, s.lz.head, s.lz.prev, s.bs, s.bs.w, s.bs.dynL, s.bs.dynD, s.bs.blTree
    ensures s.lz.Valid() && s.Open(s.lz.base + s.lz.v.strstart, if full then 1 else 2)
    ensures s.lz.v.strstart < s.lz.v.fillEnd + MIN_LOOKAHEAD && 4 <= s.lz.v.lookahead <= old(s.lz.v.lookahead)
    ensures old(s.lz.v.strstart) <= s.lz.v.strstart && s.lz.v.insert == old(s.lz.v.insert)
    ensures Kept(old(s.lz.prev[..]), s.lz.prev[..], 0, old(s.lz.v.strstart), s.lz.v.strstart)
    ensures IsFirst(s.lz.head[..], s.lz.window[..], s.lz.v.strstart - 1)
    ensures RunsOn(s.lz.window[..], old(s.lz.v.strstart), old(s.lz.v.lookahead), dist, more)
    ensures s.lz.v.strstart == old(s.lz.v.strstart) + Length(more)
    ensures s.lz.v.lookahead == old(s.lz.v.lookahead) - Length(more)
    ensures s.Said() == old(s.Said()) + RunTokens(dist, more) && (stop ==> s.availOut == 0)
    ensures (stop || RunOver(s.lz.window[..], s.lz.v.strstart, s.lz.v.lookahead, dist)) && (stop ==> !full)
    ensures 2 <= s.maxLazy && PutAt(s.lz, old(Chains(s.lz.head[..], s.lz.prev[..])),
                                    RunPlaces(old(s.lz.v.strstart), old(s.lz.v.lookahead), more, s.maxLazy))
  {
    hide *;
    Sizes();
    full, stop, more := full0, false, [];
    RingSize(s.lz);
    s.lz.Apart();
    ghost var w, p, look, c := s.lz.window[..], s.lz.v.strstart, s.lz.v.lookahead, Chains(s.lz.head[..], s.lz.prev[..]);
    ghost var said := s.Said();
    NoRun(w, p, look, dist);
    EnoughInserts(s) by { OpenSettings(s, s.lz.base + s.lz.v.strstart, if full0 then 1 else 2); }
    RunPlacesMore(p, look, [], 3, s.maxLazy);
    SizedLz(s.lz);
    PutAtNone(s.lz);
    NoneAfterToks(said);
    ValidEnd(s.lz);
    KeptAll(s.lz.prev[..], s.lz.v.strstart, s.lz.v.strstart);
    while !stop && MIN_LOOKAHEAD <= s.lz.v.lookahead
      invariant s.lz.Valid() && s.Open(s.lz.base + s.lz.v.strstart, if full then 1 else 2)
      invariant dist < s.lz.v.strstart < s.lz.v.fillEnd + MIN_LOOKAHEAD
      invariant 4 <= s.lz.v.lookahead <= look && p <= s.lz.v.strstart && s.lz.v.insert == old(s.lz.v.insert)
      invariant Kept(c.prev, s.lz.prev[..], 0, p, s.lz.v.strstart)
      invariant IsFirst(s.lz.head[..], s.lz.window[..], s.lz.v.strstart - 1)
      invariant s.lz.window[..] == w && RunsOn(w, p, look, dist, more)
      invariant s.lz.v.strstart == p + Length(more) && s.lz.v.lookahead == look - Length(more)
      invariant s.Said() == said + RunTokens(dist, more) && (stop ==> s.availOut == 0 && !full)
      invariant PutAt(s.lz, c, RunPlaces(p, look, more, s.maxLazy))
      decreases s.lz.v.lookahead
    {
      ValidEnd(s.lz);
      var len := Continues(s.lz, dist);
      if len < 8 {
        RunStops(w, s.lz.v.strstart, s.lz.v.lookahead, dist);
        return;
      }
      ReachNow(s.lz);
      ValidInserted(s.lz, s.lz.v.strstart + 1);
      ghost var q, at, d := s.lz.prev[..], s.lz.v.strstart, Chains(s.lz.head[..], s.lz.prev[..]);
      PutAtIs(s.lz, c, RunPlaces(p, look, more, s.maxLazy));
      RunMore(w, p, look, dist, more, len);
      RunPlacesMore(p, look, more, len, s.maxLazy);
      NoneAssoc(said, RunTokens(dist, more), [Match(len - 3, dist)]);
      OpenRoom(s, s.lz.base + s.lz.v.strstart, if full then 1 else 2, 1);
      ghost var toks := s.bs.toks;
      var f := TakeMatch(s, s.lz.v.strstart - dist, len, s.lz.v.strstart);
      PutAtJoin(s.lz, c, d, RunPlaces(p, look, more, s.maxLazy), InsertPlaces(at, len, s.lz.v.lookahead, s.maxLazy));
      KeptThen(c.prev, q, s.lz.prev[..], p, at, at, s.lz.v.strstart);
      more := more + [len];
      ValidEnd(s.lz);
      OpenRoom(s, s.lz.base + s.lz.v.strstart, 0, 0);
      stop := FlushFull(s, full || f);
      AtStringParts(s);
      full := false;
    }
    if !stop { RunShort(w, s.lz.v.strstart, s.lz.v.lookahead, dist); }
  }

  lemma AtStringParts(s: Deflater)
    requires AtString(s)
    ensures s.lz.Valid() && s.Open(s.lz.base + s.lz.v.strstart, 2) && s.lz.v.strstart < s.lz.v.fillEnd + MIN_LOOKAHEAD
  {
    hide Lz.Valid, Deflater.Open;
  }

  lemma NoneAfterToks(toks: seq<Token>)
    ensures toks + [] == toks
  {
  }

  lemma NoneAssoc(a: seq<Token>, b: seq<Token>, c: seq<Token>)
    ensures a + b + c == a + (b + c)
  {
  }

  lemma RunStops(w: seq<nat>, at: nat, lookahead: int, dist: nat)
    requires dist <= at && at + 258 <= |w| && Repeated(w, at - dist, at) < 8
    ensures RunOver(w, at, lookahead, dist)
  {
  }

  lemma RunShort(w: seq<nat>, at: nat, lookahead: int, dist: nat)
    requires lookahead < MIN_LOOKAHEAD
    ensures RunOver(w, at, lookahead, dist)
  {
  }

  lemma PutAtIs(lz: Lz, c: Chains, ps: seq<nat>)
    requires PutAt(lz, c, ps)
    ensures Sized(c) && Fit(ps, lz.window.Length) && Chains(lz.head[..], lz.prev[..]) == PutEach(c, lz.window[..], ps)
  {
    hide PutEach;
  }

  lemma SizedLz(lz: Lz)
    requires lz.Valid()
    ensures Sized(Chains(lz.head[..], lz.prev[..]))
  {
    hide Below, HoldsInput, Placed, Multiple;
  }

  lemma OpenSettings(s: Deflater, p: int, n: nat)
    requires s.Open(p, n)
    ensures s.Settings()
  {
    hide BlockState.Valid, Deflater.Tracking;
  }

  lemma RingSize(lz: Lz)
    requires lz.Valid()
    ensures lz.prev.Length > 0
  {
    hide Below, HoldsInput, Placed, Multiple;
  }

  /** A match with its continuations. */
  method EmitMatch(s: Deflater, start: nat, len: nat) returns (stop: bool, ghost more: seq<nat>)
    requires !s.lz.ahead && Inserted(s.lz, s.lz.v.strstart + 1) && s.Open(s.lz.base + s.lz.v.strstart, 2) &&
      s.lz.v.strstart <= s.lz.v.fillEnd
    requires Found(s.lz, start, len) && WANT_MIN_MATCH <= len
    modifies s, s.lz`v, s.lz.head, s.lz.prev, s.bs, s.bs.w, s.bs.dynL, s.bs.dynD, s.bs.blTree
    ensures AtString(s) && s.lz.v.lookahead < old(s.lz.v.lookahead) && old(s.lz.v.strstart) < s.lz.v.strstart
    ensures s.lz.v.insert == old(s.lz.v.insert) && (old(s.lz.v.lookahead) >= MIN_LOOKAHEAD ==> s.lz.v.lookahead >= 4)
    ensures Kept(old(s.lz.prev[..]), s.lz.prev[..], 0, old(s.lz.v.strstart), s.lz.v.strstart)
    ensures IsFirst(s.lz.head[..], s.lz.window[..], s.lz.v.strstart - 1)
    ensures start < old(s.lz.v.strstart) && 2 <= s.maxLazy && (stop ==> s.availOut == 0)
    ensures Emitted(s.lz.window[..], old(s.lz.v.strstart), old(s.lz.v.lookahead), start, len, more, old(s.Said()),
                    s.Said(), s.lz.v.strstart, s.lz.v.lookahead, stop)
    ensures PutAt(s.lz, old(Chains(s.lz.head[..], s.lz.prev[..])),
                  MatchPlaces(old(s.lz.v.strstart), old(s.lz.v.lookahead), len, more, s.maxLazy))
  {
    hide *;
    Sizes();
    FoundParts(s.lz, start, len);
    InsertedApart(s.lz, s.lz.v.strstart + 1);
    var dist := s.lz.v.strstart - start;
    ghost var p, look0, c, said := s.lz.v.strstart, s.lz.v.lookahead, Chains(s.lz.head[..], s.lz.prev[..]), s.Said();
    OpenRoom(s, s.lz.base + p, 2, 1);
    var full := TakeMatch(s, start, len, s.lz.v.strstart + 1);
    stop, more := false, [];
    ghost var look, ps := s.lz.v.lookahead, InsertPlaces(p + 1, len - 1, s.lz.v.lookahead, s.maxLazy);
    NoRun(s.lz.window[..], s.lz.v.strstart, look, dist);
    RunPlacesMore(p + len, look, [], 3, s.maxLazy);
    NoneAfter(ps);
    OpenFor(s, s.lz.base + s.lz.v.strstart, if full then 1 else 2);
    ValidEnd(s.lz);
    if len == STD_MAX_MATCH && s.lz.v.lookahead >= MIN_LOOKAHEAD {
      ghost var q, at, d := s.lz.prev[..], s.lz.v.strstart, Chains(s.lz.head[..], s.lz.prev[..]);
      PutAtIs(s.lz, c, ps);
      full, stop, more := ContinueMatch(s, dist, full);
      PutAtJoin(s.lz, c, d, ps, RunPlaces(at, look, more, s.maxLazy));
      KeptThen(old(s.lz.prev[..]), q, s.lz.prev[..], old(s.lz.v.strstart), at, at, s.lz.v.strstart);
    } else if len == STD_MAX_MATCH {
      RunShort(s.lz.window[..], s.lz.v.strstart, s.lz.v.lookahead, dist);
    }
    MatchPlacesIs(p, look0, len, more, s.maxLazy);
    OpenRoom(s, s.lz.base + s.lz.v.strstart, if full then 1 else 2, 0);
    if !stop || full {
      stop := FlushFull(s, full);
    } else {
      AtStringNow(s);
    }
    IsEmitted(s.lz.window[..], p, look0, start, len, more, said, s.Said(), s.lz.v.strstart, s.lz.v.lookahead, stop);
  }

  lemma ValidEnd(lz: Lz)
    requires lz.Valid()
    ensures lz.v.strstart + lz.v.lookahead <= lz.v.fillEnd + MIN_LOOKAHEAD
  {
    hide Below, HoldsInput, Multiple, FillForm;
  }

  lemma AtStringNow(s: Deflater)
    requires s.lz.Valid() && s.Open(s.lz.base + s.lz.v.strstart, 2) && s.lz.v.strstart < s.lz.v.fillEnd + MIN_LOOKAHEAD
    ensures AtString(s)
  {
    hide Lz.Valid, Deflater.Open;
  }

  lemma NoneAfter(ps: seq<nat>)
    ensures ps + [] == ps
  {
  }

  lemma InsertedApart(lz: Lz, n: nat)
    requires Inserted(lz, n)
    ensures lz.prev != lz.window && lz.head != lz.window && lz.head != lz.prev
  {
    hide Below, HoldsInput, Placed, Multiple;
  }

  lemma MakeLastFiled(lz: Lz)
    requires lz.v.strstart >= 1 && (lz.v.lookahead >= 3 ==> IsFirst(lz.head[..], lz.window[..], lz.v.strstart - 1))
    ensures LastFiled(lz.Now())
  {
    hide IsFirst;
  }

  lemma NoneAhead(lz: Lz)
    requires lz.v.lookahead == 0
    ensures LastFiled(lz.Now())
  {
  }

  lemma TurnRoom(lz: Lz)
    requires lz.Valid() && lz.v.strstart <= lz.v.fillEnd
    ensures Sized(lz.Now().chains) && lz.v.strstart + 4 <= lz.window.Length
  {
    hide Below, HoldsInput, Multiple, FillForm;
  }

  /** One turn of the loop, with enough lookahead. */
  method FastTurn(s: Deflater) returns (stop: bool, ghost t: Turn)
    requires Filled(s) && s.lz.v.lookahead > 0 && !s.lz.ahead
    modifies s, s.lz`v, s.lz.head, s.lz.prev, s.bs, s.bs.w, s.bs.dynL, s.bs.dynD, s.bs.blTree
    ensures AtString(s) && s.lz.v.lookahead < old(s.lz.v.lookahead)
    ensures s.lz.v.insert == old(s.lz.v.insert) && (old(s.lz.v.lookahead) >= MIN_LOOKAHEAD ==> s.lz.v.lookahead >= 4)
    ensures Kept(old(s.lz.prev[..]), s.lz.prev[..], 0, old(s.lz.v.strstart), s.lz.v.strstart)
    ensures LastFiled(s.lz.Now()) && (stop ==> s.availOut == 0) && t.u == old(s.lz.Now())
    ensures Greedy(t, MaxDist(s.lz), s.maxChain, s.niceMatch, s.goodMatch, stop) && 2 <= s.maxLazy
    ensures s.Said() == old(s.Said()) + TurnTokens(t) && s.lz.v.strstart == old(s.lz.v.strstart) + TurnLength(t)
    ensures Fit(TurnPlaces(t, s.maxLazy), s.lz.window.Length) && Sized(t.u.chains) &&
      Chains(s.lz.head[..], s.lz.prev[..]) == PutEach(t.u.chains, s.lz.window[..], TurnPlaces(t, s.maxLazy))
    ensures Alone(old(s.lz.Now())) && old(|s.bs.toks|) + 3 <= s.bs.litBufsize ==>
      !stop && |s.bs.toks| == old(|s.bs.toks|) + 1 &&
      s.lz.Now() == old(s.lz.Now()).(v := s.lz.v, chains := Entered(old(s.lz.Now()))) &&
      s.lz.v == old(s.lz.v).(strstart := old(s.lz.v.strstart) + 1, lookahead := old(s.lz.v.lookahead) - 1,
                             blockStart := s.lz.v.blockStart)
  {
    hide *;
    Sizes();
    FilledParts(s);
    TurnRoom(s.lz);
    s.lz.Apart();
    NowIs(s.lz);
    ghost var u := s.lz.Now();
    EnteredIs(u);
    var len, start := 0, 0;
    ghost var m := 0;
    RingSize(s.lz);
    KeptAll(s.lz.prev[..], s.lz.v.strstart, s.lz.v.strstart + 1);
    if s.lz.v.lookahead >= WANT_MIN_MATCH {
      if Alone(u) { AloneIs(u); }
      PutFirst(u.chains, u.w, s.lz.v.strstart) by { SizedIs(u.chains); }
      EnteredSize(u);
      len, start, m := SearchFast(s.lz, s.maxChain, s.niceMatch, s.goodMatch);
    } else {
      ReachNow(s.lz);
      ValidInserted(s.lz, s.lz.v.strstart + 1);
    }
    SettingsOf(s);
    if len >= WANT_MIN_MATCH {
      ghost var q, at, c, more := s.lz.prev[..], s.lz.v.strstart, Chains(s.lz.head[..], s.lz.prev[..]), [];
      stop, more := EmitMatch(s, start, len);
      KeptThen(old(s.lz.prev[..]), q, s.lz.prev[..], at, at + 1, at, s.lz.v.strstart);
      t := Turn(u, len, start, m, more);
      GreedyMatch(t, MaxDist(s.lz), s.maxChain, s.niceMatch, s.goodMatch, stop, old(s.Said()), s.Said(),
                  s.lz.v.strstart, s.lz.v.lookahead);
      PutAtIs(s.lz, c, MatchPlaces(at, u.v.lookahead, len, more, s.maxLazy));
      TurnPlacesMatch(t, s.maxLazy, c, Chains(s.lz.head[..], s.lz.prev[..]));
    } else {
      var full := TakeLiteral(s);
      OpenRoom(s, s.lz.base + s.lz.v.strstart, 1, 0);
      stop := FlushFull(s, full);
      t := Turn(u, len, start, m, []);
      GreedyLiteral(t, MaxDist(s.lz), s.maxChain, s.niceMatch, s.goodMatch, stop);
      TurnPlacesLiteral(t, s.maxLazy);
    }
    MakeLastFiled(s.lz);
    NowIs(s.lz);
  }

  lemma SettingsOf(s: Deflater)
    requires s.Open(s.lz.base + s.lz.v.strstart, 2)
    ensures 2 <= s.maxLazy
  {
    hide BlockState.Valid, Deflater.Tracking;
  }

  /** The stream is complete and stands for the whole input. */
  ghost predicate Finished(s: Deflater)
    reads s, s.lz, s.bs, s.bs.w
  {
    s.bs.w.Valid() && |s.blocks| > 0 && s.bs.w.Stream() == StreamOf([], s.blocks) && AllSendable([], s.blocks) &&
    Contents([], s.blocks) == s.lz.input && s.lz.nextIn == [] && s.bs.toks == [] && Carries(s.blocks, s.parts)
  }

  lemma AllTracked(blocks: seq<Block>, input: seq<nat>, p: int)
    requires Tracks(blocks, [], input, p, p) && p == |input|
    ensures AllSendable([], blocks) && Contents([], blocks) == input
  {
    hide AllSendable, Contents, Means;
    assert input[..p] == input;
  }

  /** The end of a strategy when all input has been tallied: flush what there is. */
  method EndOfInput(s: Deflater, flush: Flush) returns (status: BlockStatus)
    requires s.lz.Valid() && s.Open(s.lz.base + s.lz.v.strstart, 1) && s.lz.v.strstart < s.lz.v.fillEnd + MIN_LOOKAHEAD
    requires s.lz.v.lookahead == 0 && s.lz.nextIn == []
    modifies s`sent, s`availOut, s`blocks, s`parts, s.lz`v, s.bs, s.bs.w, s.bs.dynL, s.bs.dynD, s.bs.blTree
    ensures flush == Finish <==> status == FinishDone || status == FinishStarted
    ensures flush == Finish ==> Finished(s) && Delivered(s, old(s.sent), old(s.availOut))
    ensures (status == FinishStarted ==> s.availOut == 0) && (status == FinishDone ==> s.availOut > 0)
    ensures (status == NeedMore ==> s.availOut == 0) && s.Said() == old(s.Said())
    ensures s.lz.v == old(s.lz.v).(insert := LastTwo(s.lz.v), blockStart := s.lz.v.blockStart)
    ensures flush != Finish ==> AtString(s) && |s.bs.toks| <= old(|s.bs.toks|)
  {
    hide *;
    LeaveOver(s);
    if flush == Finish {
      OpenRoom(s, s.lz.base + s.lz.v.strstart, 1, 0);
      FinishUp(s);
      status := if s.availOut == 0 then FinishStarted else FinishDone;
    } else {
      status := EndBlock(s);
    }
  }

  /** The strings at the end that lack input are left over. */
  method LeaveOver(s: Deflater)
    requires s.lz.Valid() && s.Open(s.lz.base + s.lz.v.strstart, 1) && s.lz.v.strstart < s.lz.v.fillEnd + MIN_LOOKAHEAD
    requires s.lz.v.lookahead == 0
    modifies s.lz`v
    ensures s.lz.Valid() && s.Open(s.lz.base + s.lz.v.strstart, 1) && s.lz.v.strstart <= 65535
    ensures s.lz.v == old(s.lz.v).(insert := LastTwo(s.lz.v))
    ensures forall v: Vars :: v.strstart == s.lz.v.strstart ==> LastTwo(v) == LastTwo(s.lz.v)
  {
    hide Tracks, Carries, BlockState.Valid, Deflater.Settings, Lz.Shape, Below, FillForm, Multiple, HoldsInput;
    BufferEnd(s.lz);
    EndInsert(s.lz);
  }

  /** Flush the current block, if there is anything in it. */
  method EndBlock(s: Deflater) returns (status: BlockStatus)
    requires s.lz.Valid() && s.Open(s.lz.base + s.lz.v.strstart, 1) && s.lz.v.strstart < s.lz.v.fillEnd + MIN_LOOKAHEAD
    modifies s`sent, s`availOut, s`blocks, s`parts, s.lz`v, s.bs, s.bs.w, s.bs.dynL, s.bs.dynD, s.bs.blTree
    ensures (status == NeedMore && s.availOut == 0) || status == BlockDone
    ensures s.bs.toks == [] && s.Said() == old(s.Said())
    ensures AtString(s) && s.lz.v == old(s.lz.v).(blockStart := s.lz.v.blockStart)
    ensures |s.bs.toks| <= old(|s.bs.toks|)
  {
    hide *;
    OpenRoom(s, s.lz.base + s.lz.v.strstart, 1, 0);
    if s.bs.symNext == 0 { EmptyRoom(s, s.lz.base + s.lz.v.strstart); }
    var stop := FlushFull(s, s.bs.symNext != 0);
    status := if stop then NeedMore else BlockDone;
  }

  lemma EmptyRoom(s: Deflater, p: int)
    requires s.Open(p, 1) && s.bs.symNext == 0
    ensures |s.bs.toks| + 2 <= s.bs.litBufsize && s.bs.toks == []
  {
    hide Tallied, HasCodes, Tokens.Holds, Deflater.Tracking;
  }

  /** s->insert: the strings at the end that still lack input. */
  method EndInsert(lz: Lz)
    requires lz.Valid() && lz.v.lookahead == 0
    modifies lz`v
    ensures lz.Valid() && lz.v == old(lz.v).(insert := LastTwo(lz.v))
  {
    hide Below, FillForm, Multiple;
    lz.v := lz.v.(insert := if lz.v.strstart < 2 then lz.v.strstart else 2);
  }

  /** The last block. */
  method FinishUp(s: Deflater)
    requires s.lz.Valid() && s.Open(s.lz.base + s.lz.v.strstart, 0) && s.lz.v.lookahead == 0 && s.lz.nextIn == [] &&
      s.lz.v.strstart <= 65535
    modifies s`sent, s`availOut, s`blocks, s`parts, s.lz`v, s.bs, s.bs.w, s.bs.dynL, s.bs.dynD, s.bs.blTree
    ensures Finished(s) && s.Said() == old(s.Said()) && Delivered(s, old(s.sent), old(s.availOut))
    ensures s.lz.v == old(s.lz.v).(blockStart := s.lz.v.blockStart)
  {
    hide Tracks, Tallied, HasCodes, Tokens.Holds, Below, FillForm, Multiple, HoldsInput, Placed, StreamOf, AllSendable,
      Contents, Carries, Flat, Delivered;
    hide BlockState.Valid, Deflater.Settings, Deflater.Tracking, Lz.Shape;
    WindowSize(s.lz.window[..], s.lz.v, s.lz.input, s.lz.base);
    FlushLast(s);
    AllTracked(s.blocks, s.lz.input, s.lz.base + s.lz.v.strstart);
  }

  /** What a strategy may return: need_more only if the output is full, or without a flush at the end of the input; with
      Z_FINISH and space left in the output always finish_done, and then all of the stream that is complete has gone to
      it. */
  ghost predicate RightStatus(s: Deflater, flush: Flush, status: BlockStatus)
    reads s, s.lz, s.bs, s.bs.w
  {
    (status == NeedMore ==>
      s.availOut == 0 || (flush == NoFlush && s.lz.v.lookahead < MIN_LOOKAHEAD && s.lz.nextIn == [])) &&
    (flush == NoFlush ==> status == NeedMore) &&
    (status == FinishDone || status == FinishStarted ==> flush == Finish) &&
    (flush == Finish && s.availOut > 0 ==> status == FinishDone && |s.bs.w.pending| / 8 <= s.sent) &&
    (status == FinishDone ==> s.availOut > 0) && (status == BlockDone ==> flush == SyncFlush)
  }

  /** deflate_fast. However often it is called and whatever it is told to flush, the symbols since the last block
      expand to the input from block_start to strstart; when it finishes, the stream stands for all of the input. At
      every refill the string before the current one heads its chain. */
  method DeflateFast(s: Deflater, flush: Flush) returns (status: BlockStatus, ghost turns: seq<Turn>)
    requires AtString(s) && !s.lz.ahead
    modifies s, s.lz, s.lz.window, s.lz.head, s.lz.prev, s.bs, s.bs.w, s.bs.dynL, s.bs.dynD, s.bs.blTree
    ensures SameInput(old(s.lz.input), old(s.lz.nextIn), s.lz.input, s.lz.nextIn)
    ensures status == FinishDone || status == FinishStarted ==> Finished(s)
    ensures status == NeedMore || status == BlockDone ==> AtString(s)
    ensures flush != Finish ==> status == NeedMore || status == BlockDone
    ensures status == BlockDone ==> s.lz.nextIn == [] && s.lz.v.lookahead == 0
    ensures RightStatus(s, flush, status)
    ensures s.Said() == old(s.Said()) + AllTokens(turns)
    ensures AllGreedy(turns, MaxDist(s.lz), s.maxChain, s.niceMatch, s.goodMatch, s.availOut == 0)
    ensures !s.lz.roll && LastFiled(old(s.lz.Now())) && (status == NeedMore || status == BlockDone) ==>
      LastFiled(s.lz.Now())
    ensures flush == NoFlush && Unflushed(old(s.lz.v)) ==> Unflushed(s.lz.v)
    ensures flush == SyncFlush ==>
      Quiet(old(s.lz.Now()), old(s.lz.nextIn), old(|s.bs.toks|), s.bs.litBufsize, s.lz.roll) ==>
      QuietEnd(old(s.lz.Now()), old(s.lz.nextIn), old(|s.bs.toks|), s.lz.Now(), |s.bs.toks|)
  {
    hide *;
    Sizes();
    SameInputNow(s.lz.input, s.lz.nextIn);
    ghost var u, data, toks := s.lz.Now(), s.lz.nextIn, |s.bs.toks|;
    ghost var quiet, k, said := Quiet(u, data, toks, s.bs.litBufsize, s.lz.roll), -1, s.Said();
    turns := [];
    NoTurns(MaxDist(s.lz), s.maxChain, s.niceMatch, s.goodMatch, said);
    QuietFrom(u, data, toks, s.bs.litBufsize, s.lz.roll);
    while true
      invariant AtString(s) && SameInput(old(s.lz.input), old(s.lz.nextIn), s.lz.input, s.lz.nextIn)
      invariant !s.lz.roll && LastFiled(u) ==> LastFiled(s.lz.Now())
      invariant Unflushed(old(s.lz.v)) ==> Unflushed(s.lz.v) || (flush != NoFlush && s.lz.nextIn == [])
      invariant s.Said() == said + AllTokens(turns)
      invariant AllGreedy(turns, MaxDist(s.lz), s.maxChain, s.niceMatch, s.goodMatch, false)
      invariant quiet ==> QuietRun(u, data, toks, s.lz.Now(), s.lz.nextIn, |s.bs.toks|, k)
      decreases s.lz.v.lookahead + |s.lz.nextIn|
    {
      ghost var rest, t, next, in1 := s.lz.v.lookahead + |s.lz.nextIn|, s.lz.Now(), s.lz.nextIn, s.lz.input;
      NowIs(s.lz);
      Fill(s);
      NowIs(s.lz);
      SameInputOn(old(s.lz.input), old(s.lz.nextIn), in1, next, s.lz.input, s.lz.nextIn);
      assert !s.lz.roll && LastFiled(u) && Unflushed(old(s.lz.v)) ==> LiveKept(t, s.lz.Now());
      if quiet {
        QuietSmall(u, data, toks, s.bs.litBufsize, t, next, |s.bs.toks|, k);
        QuietFill(u, data, toks, s.bs.litBufsize, t, next, |s.bs.toks|, k, s.lz.Now(), s.lz.nextIn);
        k := if k < 0 then 0 else k;
      }
      if s.lz.v.lookahead < MIN_LOOKAHEAD && flush == NoFlush {
        FilledAtString(s);
        WaitingRight(s);
        GreedyCut(turns, MaxDist(s.lz), s.maxChain, s.niceMatch, s.goodMatch, s.availOut == 0);
        return NeedMore, turns;
      }
      if s.lz.v.lookahead == 0 { break; }
      ghost var t1, n, v1 := s.lz.Now(), |s.bs.toks|, s.lz.v;
      if quiet { QuietAlone(u, data, toks, s.bs.litBufsize, t1, s.lz.nextIn, n, k); }
      var stop;
      ghost var turn;
      stop, turn := FastTurn(s);
      GreedyOn(turns, turn, MaxDist(s.lz), s.maxChain, s.niceMatch, s.goodMatch, stop);
      turns := turns + [turn];
      UnflushedTurn(v1, s.lz.v);
      NowIs(s.lz);
      if quiet {
        QuietTurn(u, data, toks, s.bs.litBufsize, t1, s.lz.nextIn, n, k, s.lz.Now());
        k := k + 1;
      }
      if stop {
        StoppedRight(s, flush);
        return NeedMore, turns;
      }
    }
    FilledParts(s);
    NowIs(s.lz);
    ghost var t, n := s.lz.Now(), |s.bs.toks|;
    ghost var sent, out := s.sent, s.availOut;
    status := EndOfInput(s, flush);
    EndRight(s, flush, status, sent, out);
    NowIs(s.lz);
    GreedyCut(turns, MaxDist(s.lz), s.maxChain, s.niceMatch, s.goodMatch, s.availOut == 0);
    if flush != Finish { NoneAhead(s.lz); }
    if quiet && flush == SyncFlush { QuietDone(u, data, toks, t, s.lz.nextIn, n, k, s.lz.Now(), |s.bs.toks|); }
  }

  lemma EndRight(s: Deflater, flush: Flush, status: BlockStatus, sent: nat, out: nat)
    requires flush != NoFlush && (flush == Finish <==> status == FinishDone || status == FinishStarted)
    requires (status == FinishStarted ==> s.availOut == 0) && (status == FinishDone ==> s.availOut > 0)
    requires (status == NeedMore ==> s.availOut == 0) && (flush == Finish ==> Delivered(s, sent, out))
    ensures RightStatus(s, flush, status)
  {
  }

  lemma WaitingRight(s: Deflater)
    requires s.lz.v.lookahead < 262 && s.lz.nextIn == []
    ensures RightStatus(s, NoFlush, NeedMore)
  {
  }

  lemma StoppedRight(s: Deflater, flush: Flush)
    requires s.availOut == 0
    ensures RightStatus(s, flush, NeedMore)
  {
  }

  lemma SameInputNow(input: seq<nat>, next: seq<Byte>)
    ensures SameInput(input, next, input, next)
  {
  }

  lemma SameInputOn(a: seq<nat>, an: seq<Byte>, b: seq<nat>, bn: seq<Byte>, c: seq<nat>, cn: seq<Byte>)
    requires SameInput(a, an, b, bn) && SameInput(b, bn, c, cn)
    ensures SameInput(a, an, c, cn)
    ensures b + bn == c + cn
  {
  }

  lemma FilledParts(s: Deflater)
    requires Filled(s)
    ensures s.lz.Valid() && s.Open(s.lz.base + s.lz.v.strstart, 1) && s.lz.v.strstart < s.lz.v.fillEnd + MIN_LOOKAHEAD
    ensures s.Open(s.lz.base + s.lz.v.strstart, 2) && s.lz.v.strstart <= s.lz.v.fillEnd && s.maxChain < 0x1_0000_0000
  {
    hide BlockState.Valid, Deflater.Tracking, Lz.Valid;
  }

  lemma ReachNow(lz: Lz)
    requires !lz.ahead
    ensures Reach(lz.v, lz.ahead) == lz.v.strstart
  {
  }

  lemma FilledAtString(s: Deflater)
    requires Filled(s)
    ensures AtString(s)
  {
  }
}
