/** deflate_medium_tpl.h deflate_medium: greedy matching that looks one match ahead and lets the next match take over
    the current one. */
module DeflateMedium {
  import opened Tokens
  import opened FlushBlock
  import opened HashFunctions
  import opened MatchFinder
  import opened HashChains
  import opened SlidingWindow
  import opened Reinserts
  import opened TokenMeaning
  import opened DeflateState
  import opened LzSearch
  import opened MatchRuns
  import opened FastTurns
  import opened DeflateFast
  import opened Fizzle
  import opened MediumTurns

  /** The match that was found ahead: none, or one for the current string. */
  ghost predicate NextAt(w: seq<nat>, strstart: nat, next: Found2)
  {
    next.len == 0 || (next.strstart == strstart && Genuine(w, next))
  }

  /** The match for the current string. */
  ghost predicate CurrentAt(w: seq<nat>, v: Vars, cur: Found2)
  {
    Genuine(w, cur) && cur.strstart == v.strstart && 1 <= cur.len <= v.lookahead
  }

  /** All links stay below what the reach will be behind the next len bytes. */
  ghost predicate Linked(lz: Lz, len: nat)
    reads lz, lz.window, lz.head, lz.prev
  {
    lz.Sound() && Below(lz.head[..], Reach(lz.v.(strstart := lz.v.strstart + len), true)) &&
    Below(lz.prev[..], Reach(lz.v.(strstart := lz.v.strstart + len), true))
  }

  /** With enough room, links stay below the place behind the end of the data. */
  lemma ReachIs(lz: Lz)
    requires lz.Valid() && lz.v.strstart <= lz.v.fillEnd && lz.ahead
    ensures Reach(lz.v, lz.ahead) == lz.v.fillEnd + 1 && lz.v.fillEnd + MIN_LOOKAHEAD <= lz.windowSize
  {
    hide Multiple, FillForm, HoldsInput, Below;
  }

  lemma MaxDistIs(lz: Lz)
    requires lz.wSize >= 512
    ensures MaxDist(lz) == lz.wSize - 262 > 0
  {
  }

  /** The match found ahead, or else the best one for the current string. */
  method Choose(s: Deflater, next: Found2) returns (cur: Found2, ghost f: Search)
    requires s.lz.Valid() && s.lz.ahead && s.lz.v.strstart <= s.lz.v.fillEnd && s.maxChain < 0x1_0000_0000
    requires NextAt(s.lz.window[..], s.lz.v.strstart, next) && 1 <= s.lz.v.lookahead && next.len <= s.lz.v.lookahead
    modifies s.lz.head, s.lz.prev
    ensures s.lz.Valid() && CurrentAt(s.lz.window[..], s.lz.v, cur)
    ensures Chosen(s, old(s.lz.Now()), next, cur, f) && (next.len > 0 ==> cur == next)
    ensures PutAt(s.lz, old(Chains(s.lz.head[..], s.lz.prev[..])), ChosenPlaces(s.lz.v, next))
  {
    hide *;
    Sizes();
    s.lz.Apart();
    NowIs(s.lz);
    SizedLz(s.lz);
    s.lz.ValidParts();
    s.lz.ShapeParts();
    ghost var u, c := s.lz.Now(), Chains(s.lz.head[..], s.lz.prev[..]);
    f := Search(0, 0, 0);
    ChosenPlacesIs(s.lz.v, next);
    PutAtNone(s.lz);
    if next.len > 0 {
      cur := next;
      NextCurrent(s.lz.window[..], s.lz.v, next);
      ChosenNext(s, u, next, f);
    } else {
      ReachIs(s.lz);
      var hd: nat := 0;
      var p, b := s.lz.v.strstart, s.lz.v.fillEnd + 1;
      if s.lz.v.lookahead >= WANT_MIN_MATCH {
        HeadIs(c, u.w, p);
        hd := InsertKnuth(s.lz.window, s.lz.head, s.lz.prev, p, b, b);
        OnePut(c, u.w, p);
        IsPutAt(s.lz, c, [p]);
      }
      FiledIs(s.lz, u, ChosenPlaces(s.lz.v, next));
      cur, f := FindBest(s.lz, p, hd, s.maxChain, s.niceMatch, s.goodMatch, b);
      BestChosen(s, u, next, s.lz.prev[..], hd, cur, f);
      BestCurrent(s.lz.window[..], s.lz.v, cur);
      s.lz.MakeValid();
    }
  }

  lemma ChosenPlacesIs(v: Vars, next: Found2)
    ensures ChosenPlaces(v, next) == if next.len == 0 && v.lookahead >= 4 then [v.strstart] else []
  {
  }

  lemma NextCurrent(w: seq<nat>, v: Vars, next: Found2)
    requires NextAt(w, v.strstart, next) && 0 < next.len <= v.lookahead
    ensures CurrentAt(w, v, next)
  {
    hide Genuine;
  }

  lemma BestCurrent(w: seq<nat>, v: Vars, cur: Found2)
    requires Genuine(w, cur) && cur.strstart == v.strstart && v.lookahead >= 1
    requires cur.len == 1 || WANT_MIN_MATCH <= cur.len <= v.lookahead
    ensures CurrentAt(w, v, cur)
  {
    hide Genuine;
  }

  lemma ChosenNext(s: Deflater, u: Snap, next: Found2, f: Search)
    requires next.len > 0
    ensures Chosen(s, u, next, next, f)
  {
    hide BestAt, Filed, HeadAt, ChosenPlaces;
  }

  lemma BestChosen(s: Deflater, u: Snap, next: Found2, prev: seq<nat>, hd: nat, cur: Found2, f: Search)
    requires next.len == 0 && prev == Filed(u, ChosenPlaces(u.v, next)).prev
    requires hd == if u.v.lookahead >= 4 then HeadAt(u.chains, u.w, u.v.strstart) else 0
    requires BestAt(u.w, prev, u.v.lookahead, u.v.strstart, hd, s.lz.wSize - MIN_LOOKAHEAD, s.maxChain, s.niceMatch,
                    s.goodMatch, u.v.fillEnd + 1, f, cur)
    ensures Chosen(s, u, next, cur, f)
  {
    hide BestAt, Filed, HeadAt, ChosenPlaces;
  }

  lemma HeadIs(c: Chains, w: seq<nat>, p: nat)
    requires Sized(c) && p + 4 <= |w|
    ensures HeadAt(c, w, p) == c.head[HashKnuth(Load32(w, p))]
  {
    hide HashKnuth, Load32;
  }

  lemma FiledIs(lz: Lz, u: Snap, ps: seq<nat>)
    requires PutAt(lz, u.chains, ps) && u.w == lz.window[..]
    ensures Filed(u, ps) == Chains(lz.head[..], lz.prev[..]) && Sized(Filed(u, ps))
  {
    hide PutEach;
  }

  /** Insert the strings of the current match. */
  method InsertCurrent(s: Deflater, cur: Found2)
    requires s.lz.Valid() && s.lz.ahead && s.lz.v.strstart <= s.lz.v.fillEnd && 2 <= s.maxLazy
    requires CurrentAt(s.lz.window[..], s.lz.v, cur)
    modifies s.lz.head, s.lz.prev
    ensures Linked(s.lz, cur.len)
    ensures PutAt(s.lz, old(Chains(s.lz.head[..], s.lz.prev[..])), MatchInserts(s.lz.v, cur, s.maxLazy))
  {
    hide *;
    Sizes();
    s.lz.Apart();
    CurrentParts(s.lz.window[..], s.lz.v, cur);
    ReachIs(s.lz);
    ghost var c := Chains(s.lz.head[..], s.lz.prev[..]);
    SizedLz(s.lz);
    PutAtNone(s.lz);
    MatchInsertsIs(s.lz.v, cur, s.maxLazy);
    LinkedAgain(s.lz, cur.len);
    if cur.len >= WANT_MIN_MATCH && s.lz.v.lookahead > cur.len + WANT_MIN_MATCH {
      LinkedParts(s.lz, cur.len);
      InsertMatch(s.lz, cur, s.maxLazy, Reach(s.lz.v.(strstart := s.lz.v.strstart + cur.len), true));
      IsPutAt(s.lz, c, MatchedPlaces(cur, s.maxLazy));
      IsLinked(s.lz, cur.len);
    }
  }

  lemma CurrentParts(w: seq<nat>, v: Vars, cur: Found2)
    requires CurrentAt(w, v, cur)
    ensures Genuine(w, cur) && cur.strstart == v.strstart && 1 <= cur.len <= v.lookahead
    ensures cur.len == 1 || 4 <= cur.len <= 258
    ensures cur.len > 1 ==> cur.orgstart <= cur.strstart + cur.len && cur.start < cur.strstart
  {
    hide Same;
  }

  lemma MatchInsertsIs(v: Vars, m: Found2, maxInserts: nat)
    requires maxInserts >= 2
    ensures m.len >= 4 && v.lookahead > m.len + 4 ==> MatchInserts(v, m, maxInserts) == MatchedPlaces(m, maxInserts)
    ensures m.len < 4 || v.lookahead <= m.len + 4 ==> MatchInserts(v, m, maxInserts) == []
  {
    hide MatchedPlaces;
  }

  lemma LinkedParts(lz: Lz, len: nat)
    requires Linked(lz, len)
    ensures lz.Sound() && lz.Shape()
    ensures Below(lz.head[..], Reach(lz.v.(strstart := lz.v.strstart + len), true))
    ensures Below(lz.prev[..], Reach(lz.v.(strstart := lz.v.strstart + len), true))
    ensures lz.v.strstart + len <= Reach(lz.v.(strstart := lz.v.strstart + len), true)
    ensures HoldsInput(lz.window[..], lz.v, lz.input, lz.base) && Placed(lz.v, lz.wSize, lz.windowSize, lz.base)
  {
    hide Below, HoldsInput, Placed, Lz.Shape;
  }

  lemma IsLinked(lz: Lz, len: nat)
    requires lz.Sound() && Below(lz.head[..], Reach(lz.v.(strstart := lz.v.strstart + len), true))
    requires Below(lz.prev[..], Reach(lz.v.(strstart := lz.v.strstart + len), true))
    ensures Linked(lz, len)
  {
    hide Below, Lz.Sound;
  }

  /** Look one match ahead: the two matches together still cover the same bytes. */
  method LookAhead(s: Deflater, cur: Found2) returns (cur': Found2, next: Found2, ghost n: Found2, ghost f: Search)
    requires Linked(s.lz, cur.len) && s.lz.ahead && s.maxChain < 0x1_0000_0000
    requires CurrentAt(s.lz.window[..], s.lz.v, cur) && cur.strstart + cur.len < s.lz.v.fillEnd
    modifies s.lz.head, s.lz.prev
    ensures s.lz.Valid() && (cur' == cur || cur'.len <= 1)
    ensures cur'.len > 0 ==> CurrentAt(s.lz.window[..], s.lz.v, cur')
    ensures NextAt(s.lz.window[..], s.lz.v.strstart + cur'.len, next) && (cur'.len == 0 ==> cur.len < next.len)
    ensures MaxDist(s.lz) >= 0 && Settled(s.lz.window[..], cur, n, MaxDist(s.lz), cur', next)
    ensures FoundAhead(s, s.lz.v, s.lz.window[..], old(Chains(s.lz.head[..], s.lz.prev[..])), s.lz.v.strstart + cur.len,
                       n, f)
    ensures PutAt(s.lz, old(Chains(s.lz.head[..], s.lz.prev[..])), [s.lz.v.strstart + cur.len])
  {
    hide *;
    Sizes();
    LinkedParts(s.lz, cur.len);
    s.lz.ShapeParts();
    MaxDistIs(s.lz);
    CurrentParts(s.lz.window[..], s.lz.v, cur);
    ghost var c, w := Chains(s.lz.head[..], s.lz.prev[..]), s.lz.window[..];
    var e, b := cur.strstart + cur.len, s.lz.v.fillEnd + 1;
    LinkedRoom(s.lz, cur.len);
    SizedNow(s.lz);
    HeadIs(c, w, e);
    var hd := InsertKnuth(s.lz.window, s.lz.head, s.lz.prev, e, b, b);
    OnePut(c, w, e);
    IsPutAt(s.lz, c, [e]);
    next, f := FindBest(s.lz, e, hd, s.maxChain, s.niceMatch, s.goodMatch, b);
    n := next;
    IsFoundAhead(s, s.lz.v, w, c, e, n, f);
    s.lz.MakeValid();
    cur' := cur;
    if cur.len > 1 && next.len >= WANT_MIN_MATCH && cur.len - 1 <= next.start {
      cur', next := FizzleMatches(s.lz.window, cur, next, s.lz.wSize - MIN_LOOKAHEAD);
      FizzledIs(w, s.lz.v, cur, n, cur', next);
      TookOver(w, cur, n, s.lz.wSize - MIN_LOOKAHEAD, cur', next);
    } else {
      NextIsAt(w, e, next);
      NotTaken(w, cur, n, s.lz.wSize - MIN_LOOKAHEAD);
    }
  }

  lemma NextIsAt(w: seq<nat>, e: nat, next: Found2)
    requires Genuine(w, next) && next.strstart == e
    ensures NextAt(w, e, next)
  {
    hide Genuine;
  }

  lemma SizedNow(lz: Lz)
    requires lz.Shape()
    ensures Sized(Chains(lz.head[..], lz.prev[..]))
  {
    hide Multiple;
  }

  lemma IsFoundAhead(s: Deflater, v: Vars, w: seq<nat>, c: Chains, e: nat, n: Found2, f: Search)
    requires Sized(c) && e + 4 <= |w|
    requires BestAt(w, Put(c, HashKnuth(Load32(w, e)), e).prev, v.lookahead, e, c.head[HashKnuth(Load32(w, e))],
                    s.lz.wSize - MIN_LOOKAHEAD, s.maxChain, s.niceMatch, s.goodMatch, v.fillEnd + 1, f, n)
    ensures FoundAhead(s, v, w, c, e, n, f)
  {
    hide BestAt, Put, HashKnuth, Load32;
  }

  lemma TookOver(w: seq<nat>, c: Found2, n: Found2, maxDist: nat, c': Found2, n': Found2)
    requires c.len > 1 && n.len >= 4 && c.len - 1 <= n.start && n.strstart == c.strstart + c.len
    requires (c', n') == (AfterFizzle(w, c, n, maxDist), NextFizzle(w, c, n, maxDist))
    ensures Settled(w, c, n, maxDist, c', n')
  {
    hide AfterFizzle, NextFizzle;
  }

  lemma NotTaken(w: seq<nat>, c: Found2, n: Found2, maxDist: nat)
    requires c.len <= 1 || n.len < 4 || n.start < c.len - 1
    ensures Settled(w, c, n, maxDist, c, n)
  {
    hide AfterFizzle, NextFizzle;
  }

  lemma LinkedRoom(lz: Lz, len: nat)
    requires Linked(lz, len) && lz.v.strstart + len < lz.v.fillEnd
    ensures Reach(lz.v.(strstart := lz.v.strstart + len), true) == lz.v.fillEnd + 1 == Reach(lz.v, true)
    ensures lz.v.fillEnd + MIN_LOOKAHEAD <= lz.windowSize
  {
    hide Below, HoldsInput, Multiple, FillForm;
  }

  lemma FizzledIs(w: seq<nat>, v: Vars, c: Found2, n: Found2, c': Found2, n': Found2)
    requires Fizzled(w, c, n, c', n') && CurrentAt(w, v, c) && Genuine(w, n) && n.strstart == c.strstart + c.len &&
      n.len >= WANT_MIN_MATCH
    ensures c' == c || c'.len <= 1
    ensures c'.len > 0 ==> CurrentAt(w, v, c')
    ensures NextAt(w, v.strstart + c'.len, n') && (c'.len == 0 ==> c.len < n'.len)
  {
  }

  // ---- emitting ----

  lemma CurrentFound(lz: Lz, cur: Found2)
    requires lz.Sound() && CurrentAt(lz.window[..], lz.v, cur) && cur.len > 1
    ensures Found(lz, cur.start, cur.len) && WANT_MIN_MATCH <= cur.len
  {
    hide Multiple, HoldsInput, Placed, Same;
    FoundAt(lz, cur.start, cur.len);
  }

  /** The symbol of the current match, or a literal. */
  function Symbol(w: seq<nat>, cur: Found2): (t: Token)
  {
    if cur.len < 3 then Lit(if cur.strstart < |w| then w[cur.strstart] else 0)
    else Match(cur.len - 3, if cur.start <= cur.strstart then cur.strstart - cur.start else 0)
  }

  /** Emit the current match, or a literal, and move on. */
  method EmitCurrent(s: Deflater, cur: Found2) returns (full: bool)
    requires Linked(s.lz, cur.len) && s.lz.ahead && s.Open(s.lz.base + s.lz.v.strstart, 2)
    requires CurrentAt(s.lz.window[..], s.lz.v, cur)
    modifies s.lz`v, s.bs, s.bs.w, s.bs.dynL, s.bs.dynD, s.bs.blTree
    ensures s.lz.Valid() && s.Open(s.lz.base + s.lz.v.strstart, if full then 1 else 2)
    ensures s.lz.v == old(s.lz.v).(strstart := old(s.lz.v.strstart) + cur.len,
      lookahead := old(s.lz.v.lookahead) - cur.len)
    ensures s.Said() == old(s.Said()) + [Symbol(s.lz.window[..], cur)]
  {
    hide *;
    Sizes();
    var p := s.lz.v.strstart;
    CurrentParts(s.lz.window[..], s.lz.v, cur);
    LinkedParts(s.lz, cur.len);
    OpenRoom(s, s.lz.base + p, 2, 1);
    if cur.len == 1 {
      WindowByte(s.lz);
      LiteralSymbol(s.lz.window[..], cur);
      full := PutLiteral(s, s.lz.window[p], s.lz.base + p);
    } else {
      CurrentFound(s.lz, cur);
      FoundParts(s.lz, cur.start, cur.len);
      MatchSymbol(s.lz.window[..], cur);
      full := PutMatch(s, cur.strstart - cur.start, cur.len, s.lz.base + p);
    }
    OpenFor(s, s.lz.base + p + cur.len, if full then 1 else 2);
    MoveAhead(s, cur.len, s.lz.base + p + cur.len, if full then 1 else 2);
  }

  lemma LiteralSymbol(w: seq<nat>, cur: Found2)
    requires cur.len == 1 && cur.strstart < |w|
    ensures Symbol(w, cur) == Lit(w[cur.strstart])
  {
  }

  lemma MatchSymbol(w: seq<nat>, cur: Found2)
    requires cur.len >= 3 && cur.start <= cur.strstart
    ensures Symbol(w, cur) == Match(cur.len - 3, cur.strstart - cur.start)
  {
  }

  /** Move on by n bytes that have been tallied. */
  method MoveAhead(s: Deflater, n: nat, ghost p: int, ghost room: nat)
    requires s.lz.ahead && Linked(s.lz, n) && n <= s.lz.v.lookahead && s.Open(p, room)
    modifies s.lz`v
    ensures s.lz.Valid() && s.Open(p, room)
    ensures s.lz.v == old(s.lz.v).(strstart := old(s.lz.v.strstart) + n, lookahead := old(s.lz.v.lookahead) - n)
  {
    hide Tracks, Carries, BlockState.Valid, Deflater.Settings, Lz.Valid, Below, Lz.Sound, Reach;
    MoveOn(s.lz, n);
  }

  /** One continuation of a match of the maximum length. */
  method PutContinued(s: Deflater, dist: nat, len: nat) returns (full: bool)
    requires s.lz.Valid() && s.lz.ahead && s.Open(s.lz.base + s.lz.v.strstart, 1) && MIN_LOOKAHEAD <= s.lz.v.lookahead
    requires 1 <= dist < s.lz.v.strstart && 8 <= len <= STD_MAX_MATCH && Found(s.lz, s.lz.v.strstart - dist, len)
    modifies s.lz`v, s.lz.head, s.lz.prev, s.bs, s.bs.w, s.bs.dynL, s.bs.dynD, s.bs.blTree
    ensures s.lz.Valid() && s.Open(s.lz.base + s.lz.v.strstart, 0) && |s.bs.toks| == old(|s.bs.toks|) + 1
    ensures full <==> |s.bs.toks| == s.bs.litBufsize - 1
    ensures s.lz.v == old(s.lz.v).(strstart := old(s.lz.v.strstart) + len, lookahead := old(s.lz.v.lookahead) - len)
    ensures s.Said() == old(s.Said()) + [Match(len - 3, dist)] && 2 <= s.maxLazy
    ensures PutAt(s.lz, old(Chains(s.lz.head[..], s.lz.prev[..])),
                  ContinuationPlaces(old(s.lz.v.strstart), dist, len, s.maxLazy))
  {
    hide *;
    Sizes();
    var p := s.lz.v.strstart;
    s.lz.Apart();
    OpenSettings(s, s.lz.base + p, 1);
    EnoughInserts(s);
    FoundParts(s.lz, p - dist, len);
    InsertContinued(s, dist, len);
    full := PutMatch(s, dist, len, s.lz.base + p);
    ghost var c := old(Chains(s.lz.head[..], s.lz.prev[..]));
    PutAtIs(s.lz, c, ContinuationPlaces(p, dist, len, s.maxLazy));
    MoveAhead(s, len, s.lz.base + p + len, 0);
    IsPutAt(s.lz, c, ContinuationPlaces(p, dist, len, s.maxLazy));
  }

  /** The inserts of a continuation. */
  method InsertContinued(s: Deflater, dist: nat, len: nat)
    requires s.lz.Valid() && s.lz.ahead && s.Settings() && MIN_LOOKAHEAD <= s.lz.v.lookahead
    requires 8 <= len <= STD_MAX_MATCH
    modifies s.lz.head, s.lz.prev
    ensures Linked(s.lz, len) && 2 <= s.maxLazy
    ensures PutAt(s.lz, old(Chains(s.lz.head[..], s.lz.prev[..])),
                  ContinuationPlaces(s.lz.v.strstart, dist, len, s.maxLazy))
  {
    hide *;
    Sizes();
    s.lz.ValidParts();
    s.lz.ShapeParts();
    ValidPlaced(s.lz);
    ReachIs(s.lz);
    EnoughInserts(s);
    LinkedAgain(s.lz, len);
    LinkedParts(s.lz, len);
    SizedNow(s.lz);
    var p := s.lz.v.strstart;
    var m := Found2(0, len, p, if dist < len then p + len - dist else p);
    ghost var c, w := Chains(s.lz.head[..], s.lz.prev[..]), s.lz.window[..];
    ghost var b := Reach(s.lz.v.(strstart := p + len), true);
    ContinuationIs(p, dist, len, s.maxLazy);
    var _ := InsertKnuth(s.lz.window, s.lz.head, s.lz.prev, p, b, b);
    OnePut(c, w, p);
    ghost var d := Chains(s.lz.head[..], s.lz.prev[..]);
    SizedNow(s.lz);
    InsertMatch(s.lz, m, s.maxLazy, b);
    IsPutAt(s.lz, d, MatchedPlaces(m, s.maxLazy));
    PutAtJoin(s.lz, c, d, [p], MatchedPlaces(m, s.maxLazy));
    IsLinked(s.lz, len);
  }

  lemma ContinuationIs(p: nat, dist: nat, len: nat, maxInserts: nat)
    requires maxInserts >= 2 && len >= 4
    ensures ContinuationPlaces(p, dist, len, maxInserts) ==
            [p] + MatchedPlaces(Found2(0, len, p, if dist < len then p + len - dist else p), maxInserts)
  {
    hide MatchedPlaces;
  }

  /** The continuations at one distance. */
  method ContinueMedium(s: Deflater, dist: nat, full0: bool) returns (full: bool, stop: bool, ghost more: seq<nat>)
    requires s.lz.Valid() && s.lz.ahead && s.Open(s.lz.base + s.lz.v.strstart, if full0 then 1 else 2) &&
      MIN_LOOKAHEAD <= s.lz.v.lookahead
    requires 1 <= dist < s.lz.v.strstart && dist <= 32768
    modifies s, s.lz`v, s.lz.head, s.lz.prev, s.bs, s.bs.w, s.bs.dynL, s.bs.dynD, s.bs.blTree
    ensures s.lz.Valid() && s.Open(s.lz.base + s.lz.v.strstart, if full then 1 else 2)
    ensures s.lz.v.strstart < s.lz.v.fillEnd + MIN_LOOKAHEAD && s.lz.v.lookahead <= old(s.lz.v.lookahead)
    ensures RunsOn(s.lz.window[..], old(s.lz.v.strstart), old(s.lz.v.lookahead), dist, more)
    ensures s.lz.v == old(s.lz.v).(strstart := old(s.lz.v.strstart) + Length(more), lookahead := s.lz.v.lookahead,
                                   blockStart := s.lz.v.blockStart)
    ensures s.lz.v.lookahead + Length(more) == old(s.lz.v.lookahead)
    ensures s.Said() == old(s.Said()) + RunTokens(dist, more) && (stop ==> s.availOut == 0)
    ensures (stop || RunOver(s.lz.window[..], s.lz.v.strstart, s.lz.v.lookahead, dist)) && (stop ==> !full)
    ensures 2 <= s.maxLazy && PutAt(s.lz, old(Chains(s.lz.head[..], s.lz.prev[..])),
                                    ContinuedPlaces(old(s.lz.v.strstart), dist, more, s.maxLazy))
  {
    hide *;
    Sizes();
    full, stop, more := full0, false, [];
    s.lz.Apart();
    ghost var w, p, look, c := s.lz.window[..], s.lz.v.strstart, s.lz.v.lookahead, Chains(s.lz.head[..], s.lz.prev[..]);
    ghost var said := s.Said();
    NoRun(w, p, look, dist);
    EnoughInserts(s) by { OpenSettings(s, s.lz.base + s.lz.v.strstart, if full0 then 1 else 2); }
    ContinuedMore(p, dist, [], 0, s.maxLazy);
    SizedLz(s.lz);
    PutAtNone(s.lz);
    NoneAfterToks(said);
    ValidPlaced(s.lz);
    while !stop && MIN_LOOKAHEAD <= s.lz.v.lookahead
      invariant s.lz.Valid() && s.Open(s.lz.base + s.lz.v.strstart, if full then 1 else 2)
      invariant dist < s.lz.v.strstart < s.lz.v.fillEnd + MIN_LOOKAHEAD && s.lz.v.lookahead <= look
      invariant s.lz.window[..] == w && RunsOn(w, p, look, dist, more)
      invariant s.lz.v == old(s.lz.v).(strstart := p + Length(more), lookahead := s.lz.v.lookahead,
                                       blockStart := s.lz.v.blockStart)
      invariant s.lz.v.lookahead + Length(more) == look
      invariant s.Said() == said + RunTokens(dist, more) && (stop ==> s.availOut == 0 && !full)
      invariant PutAt(s.lz, c, ContinuedPlaces(p, dist, more, s.maxLazy))
      decreases s.lz.v.lookahead
    {
      ValidPlaced(s.lz);
      var len := Continues(s.lz, dist);
      if len < 8 {
        RunStops(w, s.lz.v.strstart, s.lz.v.lookahead, dist);
        return;
      }
      FoundParts(s.lz, s.lz.v.strstart - dist, len);
      ghost var at, d := s.lz.v.strstart, Chains(s.lz.head[..], s.lz.prev[..]);
      PutAtIs(s.lz, c, ContinuedPlaces(p, dist, more, s.maxLazy));
      RunMore(w, p, look, dist, more, len);
      ContinuedMore(p, dist, more, len, s.maxLazy);
      NoneAssoc(said, RunTokens(dist, more), [Match(len - 3, dist)]);
      OpenRoom(s, s.lz.base + s.lz.v.strstart, if full then 1 else 2, 1);
      var f := PutContinued(s, dist, len);
      PutAtJoin(s.lz, c, d, ContinuedPlaces(p, dist, more, s.maxLazy), ContinuationPlaces(at, dist, len, s.maxLazy));
      more := more + [len];
      ValidEnd(s.lz);
      OpenRoom(s, s.lz.base + s.lz.v.strstart, 0, 0);
      stop := FlushFull(s, full || f);
      AtStringParts(s);
      full := false;
    }
    if !stop { RunShort(w, s.lz.v.strstart, s.lz.v.lookahead, dist); }
  }

  lemma ValidPlaced(lz: Lz)
    requires lz.Valid() && MIN_LOOKAHEAD <= lz.v.lookahead
    ensures lz.v.strstart <= lz.v.fillEnd
  {
    hide Below, FillForm, Multiple, HoldsInput;
  }

  /** Emit the current match with its continuations, and flush the block if it is full. */
  method EmitMedium(s: Deflater, cur: Found2) returns (stop: bool, ghost more: seq<nat>)
    requires Linked(s.lz, cur.len) && s.lz.ahead && s.Open(s.lz.base + s.lz.v.strstart, 2) &&
      s.lz.v.strstart <= s.lz.v.fillEnd
    requires CurrentAt(s.lz.window[..], s.lz.v, cur)
    modifies s, s.lz`v, s.lz.head, s.lz.prev, s.bs, s.bs.w, s.bs.dynL, s.bs.dynD, s.bs.blTree
    ensures AtString(s) && s.lz.v.lookahead < old(s.lz.v.lookahead) && (stop ==> s.availOut == 0) && 2 <= s.maxLazy
    ensures cur.len == 1 || 4 <= cur.len <= 258
    ensures s.lz.v == old(s.lz.v).(strstart := s.lz.v.strstart, lookahead := s.lz.v.lookahead,
                                   blockStart := s.lz.v.blockStart)
    ensures if cur.len == 1 then
              more == [] && cur.strstart < s.lz.window.Length && s.lz.v.strstart == cur.strstart + 1 &&
              s.lz.v.lookahead == old(s.lz.v.lookahead) - 1 &&
              s.Said() == old(s.Said()) + [Lit(s.lz.window[cur.strstart])]
            else
              Emitted(s.lz.window[..], old(s.lz.v.strstart), old(s.lz.v.lookahead), cur.start, cur.len, more,
                      old(s.Said()), s.Said(), s.lz.v.strstart, s.lz.v.lookahead, stop)
    ensures cur.start < cur.strstart || cur.len == 1
    ensures PutAt(s.lz, old(Chains(s.lz.head[..], s.lz.prev[..])),
                  ContinuedPlaces(old(s.lz.v.strstart) + cur.len,
                                  if cur.start <= cur.strstart then cur.strstart - cur.start else 0, more, s.maxLazy))
  {
    hide *;
    Sizes();
    CurrentParts(s.lz.window[..], s.lz.v, cur);
    LinkedParts(s.lz, cur.len);
    s.lz.ShapeParts();
    EnoughInserts(s) by { OpenSettings(s, s.lz.base + s.lz.v.strstart, 2); }
    if cur.len > 1 {
      CurrentFound(s.lz, cur);
      FoundParts(s.lz, cur.start, cur.len);
      MatchSymbol(s.lz.window[..], cur);
    } else {
      WindowByte(s.lz);
      LiteralSymbol(s.lz.window[..], cur);
    }
    ghost var w, p, look0, said := s.lz.window[..], s.lz.v.strstart, s.lz.v.lookahead, s.Said();
    ghost var dist := if cur.start <= cur.strstart then cur.strstart - cur.start else 0;
    SizedNow(s.lz);
    PutAtNone(s.lz);
    var full := EmitCurrent(s, cur);
    stop, more := false, [];
    NoRun(w, s.lz.v.strstart, s.lz.v.lookahead, dist);
    ContinuedMore(p + cur.len, dist, [], 0, s.maxLazy);
    NoneAfterToks(said + [Symbol(w, cur)]);
    ValidEnd(s.lz);
    if cur.len == STD_MAX_MATCH && s.lz.v.lookahead >= MIN_LOOKAHEAD {
      full, stop, more := ContinueMedium(s, cur.strstart - cur.start, full);
    } else if cur.len == STD_MAX_MATCH {
      RunShort(w, s.lz.v.strstart, s.lz.v.lookahead, dist);
    }
    OpenRoom(s, s.lz.base + s.lz.v.strstart, if full then 1 else 2, 0);
    if !stop || full {
      stop := FlushFull(s, full);
    } else {
      AtStringNow(s);
    }
    if cur.len > 1 {
      IsEmitted(w, p, look0, cur.start, cur.len, more, said, s.Said(), s.lz.v.strstart, s.lz.v.lookahead, stop);
    }
  }

  /** All strings that have been inserted before the tally. */
  function SearchPlaces(t: Step, maxInserts: nat, fizzle: bool): (ps: seq<nat>)
    requires maxInserts >= 2
  {
    FirstPlaces(t, maxInserts) + if Looks(t.u.v, t.first, fizzle) then [t.u.v.strstart + t.first.len] else []
  }

  /** The part of a turn before the tally: the current match and the one behind it. */
  method SearchMedium(s: Deflater, next0: Found2, fizzle: bool) returns (cur: Found2, next: Found2, ghost t: Step)
    requires s.lz.Valid() && s.lz.ahead && s.lz.v.strstart <= s.lz.v.fillEnd && s.Settings()
    requires NextAt(s.lz.window[..], s.lz.v.strstart, next0) && next0.len <= s.lz.v.lookahead && 1 <= s.lz.v.lookahead
    modifies s.lz.head, s.lz.prev
    ensures Linked(s.lz, cur.len) && NextAt(s.lz.window[..], s.lz.v.strstart + cur.len, next)
    ensures cur.len > 0 ==> CurrentAt(s.lz.window[..], s.lz.v, cur)
    ensures cur.len == 0 ==> s.lz.Valid() && next.len > next0.len && s.lz.v.lookahead > MIN_LOOKAHEAD
    ensures t.u == old(s.lz.Now()) && t.next0 == next0 && (t.cur, t.next, t.more) == (cur, next, []) && 2 <= s.maxLazy
    ensures Searched(s, t, fizzle) && PutAt(s.lz, t.u.chains, SearchPlaces(t, s.maxLazy, fizzle))
    ensures next.len == 0 || cur.len < STD_MAX_MATCH
  {
    hide *;
    Sizes();
    NowIs(s.lz);
    s.lz.Apart();
    s.lz.ValidParts();
    s.lz.ShapeParts();
    MaxDistIs(s.lz);
    EnoughInserts(s);
    ghost var u, w, p := s.lz.Now(), s.lz.window[..], s.lz.v.strstart;
    var first;
    ghost var f, n, g := Search(0, 0, 0), Found2(0, 0, 0, 0), Search(0, 0, 0);
    first, f := Choose(s, next0);
    CurrentParts(w, u.v, first);
    ghost var d, qs, rs := Chains(s.lz.head[..], s.lz.prev[..]), ChosenPlaces(u.v, next0),
      MatchInserts(u.v, first, s.maxLazy);
    PutAtIs(s.lz, u.chains, qs);
    InsertCurrent(s, first);
    PutAtJoin(s.lz, u.chains, d, qs, rs);
    cur, next := first, next0.(len := 0);
    NextNone(w, p + cur.len, next);
    LooksIs(u.v, first, fizzle);
    FiledIs(s.lz, u, qs + rs);
    if fizzle && first.len != STD_MAX_MATCH && s.lz.v.lookahead > MIN_LOOKAHEAD &&
      first.strstart + first.len < s.lz.v.fillEnd {
      d := Chains(s.lz.head[..], s.lz.prev[..]);
      PutAtIs(s.lz, u.chains, qs + rs);
      cur, next, n, g := LookAhead(s, first);
      PutAtJoin(s.lz, u.chains, d, qs + rs, [p + first.len]);
      LinkedAgain(s.lz, cur.len);
    } else {
      NoneAfter(qs + rs);
    }
    t := Step(u, next0, first, f, n, g, cur, next, []);
    IsSearched(s, t, fizzle);
  }

  lemma NextNone(w: seq<nat>, strstart: nat, next: Found2)
    requires next.len == 0
    ensures NextAt(w, strstart, next)
  {
  }

  lemma LooksIs(v: Vars, first: Found2, fizzle: bool)
    ensures Looks(v, first, fizzle) <==>
            fizzle && first.len != 258 && v.lookahead > 262 && v.strstart + first.len < v.fillEnd
  {
  }

  lemma IsSearched(s: Deflater, t: Step, fizzle: bool)
    requires 2 <= s.maxLazy && MaxDist(s.lz) >= 0 && Chosen(s, t.u, t.next0, t.first, t.search)
    requires Looks(t.u.v, t.first, fizzle) ==>
      FoundAhead(s, t.u.v, t.u.w,
                 Filed(t.u, ChosenPlaces(t.u.v, t.next0) + MatchInserts(t.u.v, t.first, s.maxLazy)),
                 t.u.v.strstart + t.first.len, t.ahead, t.searchAhead) &&
      Settled(t.u.w, t.first, t.ahead, MaxDist(s.lz), t.cur, t.next)
    requires !Looks(t.u.v, t.first, fizzle) ==> t.cur == t.first && t.next.len == 0
    ensures Searched(s, t, fizzle)
    ensures SearchPlaces(t, s.maxLazy, fizzle) ==
            ChosenPlaces(t.u.v, t.next0) + MatchInserts(t.u.v, t.first, s.maxLazy) +
            if Looks(t.u.v, t.first, fizzle) then [t.u.v.strstart + t.first.len] else []
  {
    hide Chosen, FoundAhead, Settled, Looks, Filed, ChosenPlaces, MatchInserts;
  }

  /** One turn of the loop. A turn that emits nothing leaves a longer match for the same string. */
  method MediumTurn(s: Deflater, next0: Found2, fizzle: bool) returns (stop: bool, next: Found2, ghost t: Step)
    requires Filled(s) && s.lz.v.lookahead > 0 && s.lz.ahead
    requires NextAt(s.lz.window[..], s.lz.v.strstart, next0) && (next0.len > 0 ==> s.lz.v.lookahead >= MIN_LOOKAHEAD)
    modifies s, s.lz`v, s.lz.head, s.lz.prev, s.bs, s.bs.w, s.bs.dynL, s.bs.dynD, s.bs.blTree
    ensures AtString(s) && NextAt(s.lz.window[..], s.lz.v.strstart, next)
    ensures s.lz.v.lookahead < old(s.lz.v.lookahead) ||
      (s.lz.v.lookahead == old(s.lz.v.lookahead) > MIN_LOOKAHEAD && next.len > next0.len)
    ensures t.u == old(s.lz.Now()) && t.next0 == next0 && t.next == next && (stop ==> s.availOut == 0) && 2 <= s.maxLazy
    ensures GoodStep(s, t, fizzle, stop) && s.Said() == old(s.Said()) + StepTokens(t)
    ensures s.lz.v == old(s.lz.v).(strstart := old(s.lz.v.strstart) + StepLength(t),
                                   lookahead := s.lz.v.lookahead, blockStart := s.lz.v.blockStart)
    ensures s.lz.v.lookahead + StepLength(t) == old(s.lz.v.lookahead)
    ensures PutAt(s.lz, t.u.chains, StepPlaces(t, s.maxLazy, fizzle))
  {
    hide *;
    Sizes();
    FilledParts(s);
    NowIs(s.lz);
    s.lz.Apart();
    TurnRoom(s.lz);
    OpenSettings(s, s.lz.base + s.lz.v.strstart, 2);
    EnoughInserts(s);
    NextShort(s.lz.window[..], s.lz.v.strstart, next0);
    ghost var u, p, said := s.lz.Now(), s.lz.v.strstart, s.Said();
    var cur;
    cur, next, t := SearchMedium(s, next0, fizzle);
    ghost var c, ps, more := Chains(s.lz.head[..], s.lz.prev[..]), SearchPlaces(t, s.maxLazy, fizzle), [];
    PutAtIs(s.lz, u.chains, ps);
    stop := false;
    if cur.len == 0 {
      ShortStep(s, t, fizzle, false, said);
      NoPlaces(t, s.maxLazy, fizzle);
      FilledEnd(s.lz);
      AtStringNow(s);
    } else {
      CurrentParts(s.lz.window[..], s.lz.v, cur);
      stop, more := EmitMedium(s, cur);
      t := t.(more := more);
      Emits(s, t, fizzle, stop, said, s.Said(), s.lz.v.strstart, s.lz.v.lookahead);
      ContinuedThen(t, s.maxLazy, fizzle);
      PutAtJoin(s.lz, u.chains, c, ps,
                ContinuedPlaces(p + cur.len, if cur.start <= p then p - cur.start else 0, more, s.maxLazy));
      if next.len == 0 { NextNone(s.lz.window[..], s.lz.v.strstart, next); }
    }
  }

  lemma FilledEnd(lz: Lz)
    requires lz.Valid() && lz.v.lookahead >= 262
    ensures lz.v.strstart < lz.v.fillEnd + 262
  {
    hide Below, HoldsInput, Multiple, FillForm;
  }

  lemma Emits(s: Deflater, t: Step, fizzle: bool, stop: bool, said: seq<Token>, said': seq<Token>, p': nat,
              lookahead': nat)
    requires Searched(s, t.(more := []), fizzle) && t.cur.strstart == t.u.v.strstart < |t.u.w|
    requires t.cur.len <= t.u.v.lookahead && (t.cur.len == 1 || 4 <= t.cur.len <= 258)
    requires if t.cur.len == 1 then
               t.more == [] && p' == t.cur.strstart + 1 && lookahead' == t.u.v.lookahead - 1 &&
               said' == said + [Lit(t.u.w[t.cur.strstart])]
             else
               t.cur.start < t.cur.strstart &&
               Emitted(t.u.w, t.u.v.strstart, t.u.v.lookahead, t.cur.start, t.cur.len, t.more, said, said', p',
                       lookahead', stop)
    ensures GoodStep(s, t, fizzle, stop) && said' == said + StepTokens(t)
    ensures p' == t.u.v.strstart + StepLength(t) && lookahead' + StepLength(t) == t.u.v.lookahead
    ensures t.cur.len < 258 ==> StepLength(t) == t.cur.len
    ensures StepLength(t) > 0
  {
    hide *;
    Sizes();
    SearchedMore(s, t, fizzle);
    if t.cur.len == 1 {
      ShortStep(s, t, fizzle, stop, said);
    } else {
      MatchStep(s, t, fizzle, stop, said, said', p', lookahead');
      EmittedShort(t, stop, said, said', p', lookahead');
    }
  }

  lemma EmittedShort(t: Step, stop: bool, said: seq<Token>, said': seq<Token>, p': nat, lookahead': nat)
    requires Emitted(t.u.w, t.u.v.strstart, t.u.v.lookahead, t.cur.start, t.cur.len, t.more, said, said', p',
                     lookahead', stop)
    ensures t.cur.len < 258 ==> StepLength(t) == t.cur.len
    ensures StepLength(t) > 0
  {
    hide RunsOn, RunOver, RunTokens;
  }

  lemma SearchedMore(s: Deflater, t: Step, fizzle: bool)
    requires Searched(s, t.(more := []), fizzle)
    ensures Searched(s, t, fizzle)
  {
    hide Chosen, FoundAhead, Settled, Looks, Filed, ChosenPlaces, MatchInserts;
  }

  lemma NoPlaces(t: Step, maxInserts: nat, fizzle: bool)
    requires maxInserts >= 2 && t.more == []
    ensures StepPlaces(t, maxInserts, fizzle) == SearchPlaces(t, maxInserts, fizzle)
  {
    hide FirstPlaces, Looks;
  }

  lemma ContinuedThen(t: Step, maxInserts: nat, fizzle: bool)
    requires maxInserts >= 2
    ensures SearchPlaces(t, maxInserts, fizzle) == SearchPlaces(t.(more := []), maxInserts, fizzle)
    ensures var p := t.u.v.strstart;
      StepPlaces(t, maxInserts, fizzle) == SearchPlaces(t, maxInserts, fizzle) +
        ContinuedPlaces(p + t.cur.len, if t.cur.start <= p then p - t.cur.start else 0, t.more, maxInserts)
  {
    hide Looks, ChosenPlaces, MatchInserts, ContinuedPlaces;
  }

  lemma NextShort(w: seq<nat>, strstart: nat, next: Found2)
    requires NextAt(w, strstart, next)
    ensures next.len <= STD_MAX_MATCH
  {
  }

  lemma LinkedAgain(lz: Lz, len: nat)
    requires lz.Valid() && lz.ahead
    ensures Linked(lz, len)
  {
    hide HoldsInput, Placed, Below;
    BelowMore(lz.head[..], Reach(lz.v, true), Reach(lz.v.(strstart := lz.v.strstart + len), true));
    BelowMore(lz.prev[..], Reach(lz.v, true), Reach(lz.v.(strstart := lz.v.strstart + len), true));
  }

  /** How long a turn may go on without emitting anything. */
  function Patience(lookahead: nat, len: nat)
    : (n: int) { if lookahead >= MIN_LOOKAHEAD then STD_MAX_MATCH - len else STD_MAX_MATCH + 1 }

  /** deflate_medium, with or without the search ahead. Whatever it emits repeats the input, and when it finishes the
      stream stands for all of the input. */
  method DeflateMedium(s: Deflater, flush: Flush, fizzle: bool) returns (status: BlockStatus, ghost ts: seq<Step>)
    requires AtString(s) && s.lz.ahead
    modifies s, s.lz, s.lz.window, s.lz.head, s.lz.prev, s.bs, s.bs.w, s.bs.dynL, s.bs.dynD, s.bs.blTree
    ensures SameInput(old(s.lz.input), old(s.lz.nextIn), s.lz.input, s.lz.nextIn)
    ensures status == FinishDone || status == FinishStarted ==> Finished(s)
    ensures status == NeedMore || status == BlockDone ==> AtString(s)
    ensures status == BlockDone ==> s.lz.nextIn == [] && s.lz.v.lookahead == 0
    ensures RightStatus(s, flush, status)
    ensures s.Said() == old(s.Said()) + AllSteps(ts) && StepRun(s, ts, fizzle, s.availOut == 0)
  {
    hide *;
    Sizes();
    SameInputNow(s.lz.input, s.lz.nextIn);
    ghost var said := s.Said();
    var next := Found2(0, 0, 0, 0);
    ts := [];
    NextNone(s.lz.window[..], s.lz.v.strstart, next);
    NoSteps(s, fizzle, said);
    while true
      invariant AtString(s) && SameInput(old(s.lz.input), old(s.lz.nextIn), s.lz.input, s.lz.nextIn)
      invariant NextAt(s.lz.window[..], s.lz.v.strstart, next)
      invariant s.Said() == said + AllSteps(ts) && StepRun(s, ts, fizzle, false)
      invariant if ts == [] then next.len == 0 else EndsAt(ts[|ts| - 1], s.lz.v, s.lz.base, next)
      decreases s.lz.v.lookahead + |s.lz.nextIn|, Patience(s.lz.v.lookahead, next.len)
    {
      ghost var rest, in1, v, base, next1 := s.lz.nextIn, s.lz.input, s.lz.v, s.lz.base, next;
      NextShort(s.lz.window[..], s.lz.v.strstart, next);
      PatienceIs(s.lz.v.lookahead, next.len);
      NowIs(s.lz);
      StaysInPlace(s.lz.v, s.lz.base);
      if s.lz.v.lookahead < MIN_LOOKAHEAD {
        ghost var u := s.lz.Now();
        Fill(s);
        NowIs(s.lz);
        RefillsPlace(u, s.lz.Now(), s.lz.roll);
        SameInputOn(old(s.lz.input), old(s.lz.nextIn), in1, rest, s.lz.input, s.lz.nextIn);
        if s.lz.v.lookahead < MIN_LOOKAHEAD && flush == NoFlush {
          FilledAtString(s);
          WaitingRight(s);
          StepCut(s, ts, fizzle, s.availOut == 0);
          return NeedMore, ts;
        }
        if s.lz.v.lookahead == 0 { break; }
        next := next.(len := 0);
        NextNone(s.lz.window[..], s.lz.v.strstart, next);
      } else {
        AlreadyFilled(s);
      }
      var stop;
      ghost var t;
      PatienceIs(s.lz.v.lookahead, next.len);
      NowIs(s.lz);
      stop, next, t := MediumTurn(s, next, fizzle);
      if ts != [] { IsNextStep(ts[|ts| - 1], t, v, base, next1); }
      IsEndsAt(t, s.lz.v, s.lz.base, next);
      StepsOn(s, ts, t, fizzle, stop);
      ts := ts + [t];
      NextShort(s.lz.window[..], s.lz.v.strstart, next);
      PatienceIs(s.lz.v.lookahead, next.len);
      if stop {
        StoppedRight(s, flush);
        return NeedMore, ts;
      }
    }
    FilledParts(s);
    ghost var sent, out := s.sent, s.availOut;
    status := EndOfInput(s, flush);
    EndRight(s, flush, status, sent, out);
    StepCut(s, ts, fizzle, s.availOut == 0);
  }

  /** The turn t has ended at v with the match next. */
  ghost predicate EndsAt(t: Step, v: Vars, base: nat, next: Found2)
  {
    v == t.u.v.(strstart := t.u.v.strstart + StepLength(t), lookahead := v.lookahead, blockStart := v.blockStart) &&
    v.lookahead + StepLength(t) == t.u.v.lookahead && base == t.u.base && next == t.next
  }

  lemma IsEndsAt(t: Step, v: Vars, base: nat, next: Found2)
    requires v == t.u.v.(strstart := t.u.v.strstart + StepLength(t), lookahead := v.lookahead,
                         blockStart := v.blockStart)
    requires v.lookahead + StepLength(t) == t.u.v.lookahead && base == t.u.base && next == t.next
    ensures EndsAt(t, v, base, next)
  {
  }

  lemma IsNextStep(t: Step, t': Step, v: Vars, base: nat, next: Found2)
    requires EndsAt(t, v, base, next) && SamePlace(v, base, t'.u.v, t'.u.base)
    requires t'.next0 == if v.lookahead < 262 then next.(len := 0) else next
    ensures NextStep(t, t')
  {
    hide SamePlace;
  }

  lemma RefillsPlace(u: Snap, u': Snap, roll: bool)
    requires Refills(u, u', roll)
    ensures SamePlace(u.v, u.base, u'.v, u'.base)
  {
    hide Refilled, HoldsInput, SamePlace, LinksKept;
  }

  lemma PatienceIs(lookahead: nat, len: nat)
    requires len <= 258
    ensures Patience(lookahead, len) == if lookahead >= 262 then 258 - len else 259
  {
  }

  lemma AlreadyFilled(s: Deflater)
    requires AtString(s) && s.lz.v.lookahead >= MIN_LOOKAHEAD
    ensures Filled(s)
  {
    hide BlockState.Valid, Deflater.Tracking, Deflater.Settings, Deflater.Open, Lz.Valid, Lz.Shape;
    ValidPlaced(s.lz);
  }
}
