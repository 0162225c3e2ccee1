/** deflate_slow.c: lazy matching. A match is adopted only if there is no better one at the next string. */
module DeflateSlow {
  import opened Tokens
  import opened GenCodes
  import opened BlockCost
  import opened FlushBlock
  import opened BlockRoundTrip
  import opened HashFunctions
  import opened MatchFinder
  import opened MatchFinderSlow
  import opened HashChains
  import opened SlidingWindow
  import opened TokenMeaning
  import opened DeflateState
  import opened LzSearch
  import opened DeflateFast
  import opened LazyTurns
  import opened Reinserts

  /** How many bytes before the current string have not been tallied. */
  function Pending(avail: bool): (n: nat) { if avail then 1 else 0 }

  /** A match of the previous string that is waiting to be adopted. */
  ghost predicate Waiting(v: Vars, input: seq<nat>, base: nat, avail: bool)
  {
    (avail ==> v.strstart >= 1) && v.prevLength <= STD_MAX_MATCH &&
    (v.prevLength >= STD_MIN_MATCH ==> avail && v.prevLength <= v.lookahead + 1 && WaitingMatch(v, input, base))
  }

  ghost predicate WaitingMatch(v: Vars, input: seq<nat>, base: nat)
  {
    v.matchStart + 1 < v.strstart && v.strstart - 1 - v.matchStart <= 32768 &&
    Repeats(input, base + v.strstart - 1, v.strstart - 1 - v.matchStart, v.prevLength)
  }

  /** The place up to which the input has been tallied. */
  ghost function Tallied0(s: Deflater): (p: int)
    reads s, s.lz
  {
    s.lz.base + s.lz.v.strstart - Pending(s.matchAvailable)
  }

  ghost predicate SlowAt(s: Deflater)
    reads s, s.lz, s.lz.window, s.lz.head, s.lz.prev, s.bs, s.bs.w, s.bs.dynL, s.bs.dynD, s.bs.blTree
  {
    !s.lz.ahead && s.Ready(Tallied0(s)) && s.lz.v.strstart < s.lz.v.fillEnd + MIN_LOOKAHEAD &&
    Waiting(s.lz.v, s.lz.input, s.lz.base, s.matchAvailable) && s.lz.RollsOn()
  }

  /** It holds at the start. */
  lemma SlowStart(s: Deflater)
    requires s.Ready(0) && !s.lz.ahead && !s.matchAvailable && s.lz.base == 0 && s.lz.input == []
    requires s.lz.v == Vars(0, 0, s.lz.v.fillEnd, 0, 0, 0, 0, 0, 0)
    ensures SlowAt(s)
  {
    hide BlockState.Valid, Deflater.Settings, Deflater.Tracking, Lz.Valid, Lz.Shape;
  }

  lemma WaitingMoved(v: Vars, input: seq<nat>, base: nat, avail: bool, v': Vars, input': seq<nat>, base': nat)
    requires Waiting(v, input, base, avail) && SamePlace(v, base, v', base') && input <= input' &&
      v.lookahead <= v'.lookahead
    ensures Waiting(v', input', base', avail)
  {
    if v'.prevLength >= STD_MIN_MATCH {
      var p, d, n := base + v.strstart - 1, v.strstart - 1 - v.matchStart, v.prevLength;
      PrefixSlice(input, input', p - d, p - d + n);
      PrefixSlice(input, input', p, p + n);
    }
  }

  lemma PrefixSlice(a: seq<nat>, b: seq<nat>, i: nat, j: nat)
    requires a <= b && i <= j <= |a|
    ensures b[i..j] == a[i..j]
  {
    assert b[..|a|][i..j] == b[i..j];
  }

  /** Enough lookahead, except at the end of the input. */
  method FillSlow(s: Deflater)
    requires SlowAt(s)
    modifies s.lz, s.lz.window, s.lz.head, s.lz.prev
    ensures SlowAt(s) && s.lz.v.strstart <= s.lz.v.fillEnd && (s.lz.v.lookahead >= MIN_LOOKAHEAD || s.lz.nextIn == [])
    ensures SameInput(old(s.lz.input), old(s.lz.nextIn), s.lz.input, s.lz.nextIn)
    ensures s.lz.v.lookahead + |s.lz.nextIn| == old(s.lz.v.lookahead + |s.lz.nextIn|)
    ensures SamePlace(old(s.lz.v), old(s.lz.base), s.lz.v, s.lz.base)
  {
    hide Tracks, Tallied, HasCodes, Tokens.Holds, Below, FillForm, Multiple, HoldsInput, Waiting, SamePlace;
    hide BlockState.Valid, Deflater.Settings, Deflater.Tracking, LinksKept, Lz.Now, Reinserts.Refills, Lz.Shape;
    StaysInPlace(s.lz.v, s.lz.base);
    if s.lz.v.lookahead < MIN_LOOKAHEAD {
      ghost var v, input, base := s.lz.v, s.lz.input, s.lz.base;
      ghost var p := Tallied0(s);
      Refill(s, p);
      WaitingMoved(v, input, base, s.matchAvailable, s.lz.v, s.lz.input, s.lz.base);
      PlaceIs(v, base, s.lz.v, s.lz.base);
    }
  }

  // ---- the search ----

  /** What the search at the current string has found: a length of at least 3 is a match at the new match_start. */
  ghost predicate Better(lz: Lz, v0: Vars, len: nat)
    reads lz, lz.window
  {
    lz.v == v0.(matchStart := lz.v.matchStart, insH := lz.v.insH) &&
    (len >= STD_MIN_MATCH && len > v0.prevLength ==> Found(lz, lz.v.matchStart, len))
  }

  /** Insert the current string and return the head of its chain. */
  method InsertSlow(lz: Lz) returns (hd: nat)
    requires lz.Valid() && !lz.ahead && lz.v.strstart <= lz.v.fillEnd && lz.RollsOn()
    modifies lz`v, lz.head, lz.prev
    ensures Inserted(lz, lz.v.strstart + 1) && Below(lz.prev[..], lz.v.strstart) && (hd == 0 || hd < lz.v.strstart)
    ensures lz.v == old(lz.v).(insH := lz.v.insH) &&
      Kept(old(lz.prev[..]), lz.prev[..], 0, lz.v.strstart, lz.v.strstart + 1)
    ensures LazyTurns.Fits(old(lz.Now())) && hd == CurrentHead(old(lz.Now()), lz.roll)
    ensures Hashed(lz.roll, lz.window[..], lz.v)
    ensures Chains(lz.head[..], lz.prev[..]) == WithCurrent(old(lz.Now()), lz.roll)
  {
    hide Below, FillForm, Multiple, HoldsInput, Kept, Put, HashRoll, HashKnuth, HashThree, Load32, Rolling, RollsAt;
    var p := lz.v.strstart;
    KeptAll(lz.prev[..], p, p + 1);
    Bounds(lz.v, lz.wSize, lz.windowSize, lz.base);
    hd := 0;
    if lz.v.lookahead >= WANT_MIN_MATCH {
      if lz.roll { RollsHere(lz.window[..], lz.v, lz.input, lz.base); }
      if lz.roll {
        var h;
        hd, h := InsertRoll(lz.window, lz.head, lz.prev, lz.v.insH, p, p, p + 1);
        StillThere(lz.window[..], lz.v, lz.v.(insH := h), lz.input, lz.base);
        lz.v := lz.v.(insH := h);
      } else {
        hd := InsertKnuth(lz.window, lz.head, lz.prev, p, p, p + 1);
      }
    } else {
      BelowMore(lz.head[..], p, p + 1);
    }
    BelowMore(lz.prev[..], p, p + 1);
  }

  /** The hash after the current string has been inserted is what the next one needs. */
  ghost predicate Hashed(roll: bool, w: seq<nat>, v: Vars)
  {
    roll && v.lookahead >= WANT_MIN_MATCH ==> RollsAt(w, v.insH, v.strstart + 1)
  }

  /** The rolling hash of the current string is the one of its own bytes. */
  lemma RollsHere(w: seq<nat>, v: Vars, input: seq<nat>, base: nat)
    requires HoldsInput(w, v, input, base) && v.lookahead >= 4 && Rolling(true, input, base, v)
    requires v.strstart + 4 <= |w|
    ensures HashRoll(v.insH, w[v.strstart + 2]) == HashThree(w, v.strstart)
    ensures RollsAt(w, HashRoll(v.insH, w[v.strstart + 2]), v.strstart + 1)
  {
    hide RollsAt, HashRoll, HashThree;
    RollsSame(w, v, input, base);
    RollsNext(w, v.insH, v.strstart);
  }

  lemma StillThere(w: seq<nat>, v: Vars, v': Vars, input: seq<nat>, base: nat)
    requires HoldsInput(w, v, input, base) && v'.strstart == v.strstart && v'.lookahead == v.lookahead
    ensures HoldsInput(w, v', input, base)
  {
  }

  /** Find the longest match, discarding those that are not longer than prev_length, or than match_discard. */
  method SearchSlow(lz: Lz, hd: nat, maxLazy: nat, maxChain: nat, niceMatch: nat, goodMatch: nat, filtered: bool)
    returns (len: nat, ghost best: nat, ghost walks: seq<Walk>)
    requires Inserted(lz, lz.v.strstart + 1) && Below(lz.prev[..], lz.v.strstart) && (hd == 0 || hd < lz.v.strstart)
    requires lz.v.strstart <= lz.v.fillEnd && maxChain < 0x1_0000_0000 && lz.v.prevLength <= STD_MAX_MATCH
    modifies lz`v
    ensures Inserted(lz, lz.v.strstart + 1) && Better(lz, old(lz.v), len) && len <= STD_MAX_MATCH
    ensures
      var p, maxDist, entry := lz.v.strstart, lz.wSize - MIN_LOOKAHEAD, Entry(ToBeat(old(lz.v), filtered, goodMatch));
      if WithinReach(p, hd, maxDist) && maxDist >= 0 && old(lz.v.prevLength) < maxLazy then
        LongestSlow(lz.window[..], lz.prev[..], lz.head[..], lz.roll, p, lz.v.lookahead, hd, maxDist,
                    Tries(entry, goodMatch, maxChain), niceMatch, entry, p, best, lz.v.matchStart, walks) &&
        len == if best <= Discard(filtered) then STD_MIN_MATCH - 1 else best
      else len == STD_MIN_MATCH - 1 && walks == [] && lz.v.matchStart == old(lz.v.matchStart)
    ensures lz.v == old(lz.v).(matchStart := lz.v.matchStart)
  {
    hide Below, FillForm, Multiple, Found, HoldsInput, IsMatch, LongestSlow;
    var p, maxDist := lz.v.strstart, lz.wSize - MIN_LOOKAHEAD;
    var discard := if filtered then 5 else 0;
    var floor := if goodMatch > 0 && goodMatch - 1 < discard then goodMatch - 1 else discard;
    len, best, walks := STD_MIN_MATCH - 1, 0, [];
    Bounds(lz.v, lz.wSize, lz.windowSize, lz.base);
    if p - hd <= maxDist && p - hd > 0 && lz.v.prevLength < maxLazy && hd != 0 {
      var entry := if lz.v.prevLength < floor then floor else lz.v.prevLength;
      var start;
      len, start, walks := LongestMatchSlow(lz.window, lz.prev, lz.head, lz.roll, p, lz.v.lookahead, hd, maxDist,
                                            maxChain, niceMatch, goodMatch, entry, lz.v.matchStart, p);
      best := len;
      StillThere(lz.window[..], lz.v, lz.v.(matchStart := start), lz.input, lz.base);
      lz.v := lz.v.(matchStart := start);
      if len <= discard {
        len := STD_MIN_MATCH - 1;
      } else if len >= STD_MIN_MATCH && len > old(lz.v.prevLength) {
        FoundNow(lz, start, len, p);
      }
    }
  }

  // ---- the three outcomes ----

  /** Insert the strings of a match, or only the last ones if it repeats a short pattern. */
  method InsertLazy(lz: Lz, len: nat, dist: nat)
    requires Inserted(lz, lz.v.strstart + 1) && lz.v.strstart <= lz.v.fillEnd && STD_MIN_MATCH <= len <= STD_MAX_MATCH
    requires len <= lz.v.lookahead + 1 && Hashed(lz.roll, lz.window[..], lz.v)
    modifies lz`v, lz.head, lz.prev
    ensures Inserted(lz, lz.v.strstart + len - 1) && lz.v == old(lz.v).(insH := lz.v.insH)
    ensures Kept(old(lz.prev[..]), lz.prev[..], 0, lz.v.strstart + 1, lz.v.strstart + len - 1)
    ensures var cnt := InsertCount(lz.v, len);
      lz.head.Length == HASH_SIZE && lz.prev.Length > 0 && lz.v.strstart + cnt + 4 <= lz.window.Length &&
      Chains(lz.head[..], lz.prev[..]) ==
      LazyPut(old(Chains(lz.head[..], lz.prev[..])), lz.window[..], lz.roll, lz.v.strstart, cnt, TailCount(dist))
    ensures HashedAt(lz.roll, lz.window[..], lz.v, len)
  {
    hide Below, FillForm, Multiple, HoldsInput, Kept, LazyPut, RollsAt;
    KeptAll(lz.prev[..], lz.v.strstart + 1, lz.v.strstart + len - 1);
    Bounds(lz.v, lz.wSize, lz.windowSize, lz.base);
    var b := lz.v.strstart + len - 1;
    InsertedMore(lz, lz.v.strstart + 1, b);
    var most := lz.v.strstart + lz.v.lookahead - STD_MIN_MATCH;
    var cnt := 0;
    if most > lz.v.strstart {
      cnt := len - 2;
      if cnt > most - lz.v.strstart { cnt := most - lz.v.strstart; }
    }
    LazyNone(Chains(lz.head[..], lz.prev[..]), lz.window[..], lz.roll, lz.v.strstart, cnt, TailCount(dist));
    if cnt > 0 {
      var tail := dist + 2;
      if tail < 64 { tail := 64; }
      var h := InsertInside(lz, cnt, tail, b);
      KeptLess(old(lz.prev[..]), lz.prev[..], 0, lz.v.strstart + 1, lz.v.strstart + 1 + cnt, lz.v.strstart + 1, b);
      StillThere(lz.window[..], lz.v, lz.v.(insH := h), lz.input, lz.base);
      lz.v := lz.v.(insH := h);
    }
  }

  /** The cnt strings behind the current one, or of them the last ones. */
  method InsertInside(lz: Lz, cnt: nat, tail: nat, ghost b: nat) returns (h: nat)
    requires lz.Shape() && 0 < cnt && lz.v.strstart + cnt + 4 <= lz.window.Length && lz.v.strstart + 1 + cnt <= b
    requires Below(lz.head[..], b) && Below(lz.prev[..], b)
    requires lz.roll ==> RollsAt(lz.window[..], lz.v.insH, lz.v.strstart + 1)
    modifies lz.head, lz.prev
    ensures Below(lz.head[..], b) && Below(lz.prev[..], b)
    ensures Kept(old(lz.prev[..]), lz.prev[..], 0, lz.v.strstart + 1, lz.v.strstart + 1 + cnt)
    ensures lz.head.Length == HASH_SIZE && lz.prev.Length > 0 &&
      Chains(lz.head[..], lz.prev[..]) ==
      LazyPut(old(Chains(lz.head[..], lz.prev[..])), lz.window[..], lz.roll, lz.v.strstart, cnt, tail)
    ensures lz.roll ==> RollsAt(lz.window[..], h, lz.v.strstart + 1 + cnt)
    ensures !lz.roll ==> h == lz.v.insH
  {
    hide *;
    Sizes();
    lz.ShapeParts();
    ghost var c, w := Chains(lz.head[..], lz.prev[..]), lz.window[..];
    var p := lz.v.strstart;
    h := lz.v.insH;
    if tail >= cnt {
      LazyWhole(c, w, lz.roll, h, p, cnt, tail);
      if lz.roll {
        h := InsertRollBatch(lz.window, lz.head, lz.prev, h, p + 1, cnt, b);
      } else {
        InsertKnuthBatch(lz.window, lz.head, lz.prev, p + 1, cnt, b);
      }
    } else {
      TailStringHashes(c, w, lz.roll, p, cnt, tail);
      TailRolls(w, h, p + 1, cnt, tail);
      TailRollNone(w, h, p + 1, cnt, tail);
      h := InsertTail(lz.window, lz.head, lz.prev, lz.roll, h, p + 1, cnt, tail, b);
    }
  }

  lemma TailRollNone(w: seq<nat>, h: nat, str: nat, cnt: nat, tail: nat)
    requires tail < cnt && str + cnt + 3 <= |w|
    ensures TailRoll(w, false, h, str, cnt, tail) == h
  {
    hide HashRoll, RollHash;
  }

  /** The hash behind a match of len bytes, if it is needed there. */
  ghost predicate HashedAt(roll: bool, w: seq<nat>, v: Vars, len: nat)
  {
    roll && v.lookahead + 1 >= len + STD_MIN_MATCH ==> RollsAt(w, v.insH, v.strstart + len - 1)
  }

  lemma LazyNone(c: Chains, w: seq<nat>, roll: bool, p: nat, cnt: int, tail: nat)
    requires |c.head| == HASH_SIZE && |c.prev| > 0 && p + 1 + cnt + 3 <= |w|
    ensures cnt <= 0 ==> LazyPut(c, w, roll, p, cnt, tail) == c
  {
    hide PutAll, StringHashes, Skipped;
  }

  lemma LazyWhole(c: Chains, w: seq<nat>, roll: bool, h: nat, p: nat, cnt: nat, tail: nat)
    requires |c.head| == HASH_SIZE && |c.prev| > 0 && p + 1 + cnt + 3 <= |w| && tail >= cnt > 0
    requires roll ==> RollsAt(w, h, p + 1)
    ensures roll ==> PutAll(c, RollHashes(w, h, p + 1, cnt), p + 1) == LazyPut(c, w, roll, p, cnt, tail)
    ensures roll ==> RollsAt(w, RollHash(w, h, p + 1, cnt), p + 1 + cnt)
    ensures !roll ==> PutAll(c, KnuthHashes(w, p + 1, cnt), p + 1) == LazyPut(c, w, roll, p, cnt, tail)
  {
    hide PutAll, StringHashes, Skipped, RollsAt, RollHashes, RollHash, KnuthHashes;
    if roll {
      RollStringHashes(w, h, p + 1, cnt);
      RollsAfter(w, h, p + 1, cnt);
    } else {
      KnuthStringHashes(w, p + 1, cnt);
    }
  }

  lemma TailRolls(w: seq<nat>, h: nat, str: nat, cnt: nat, tail: nat)
    requires tail < cnt && str + cnt + 3 <= |w|
    ensures RollsAt(w, TailRoll(w, true, h, str, cnt, tail), str + cnt)
  {
    hide RollsAt, HashRoll, RollHash;
    var at := str + (cnt - tail);
    RollsFirst(w, at);
    RollsAfter(w, HashRoll(w[at], w[at + 1]), at, tail);
  }

  /** The previous match, seen from the current string. */
  ghost predicate Previous(lz: Lz, start: nat, len: nat)
    reads lz
  {
    STD_MIN_MATCH <= len <= STD_MAX_MATCH && len <= lz.v.lookahead + 1 && start + 1 < lz.v.strstart &&
      lz.v.strstart - 1 - start <= 32768 &&
    Repeats(lz.input, lz.base + lz.v.strstart - 1, lz.v.strstart - 1 - start, len)
  }

  /** Move behind an adopted match. */
  method MoveLazy(lz: Lz, len: nat)
    requires !lz.ahead && STD_MIN_MATCH <= len <= lz.v.lookahead + 1 && Inserted(lz, lz.v.strstart + len - 1)
    modifies lz`v
    ensures lz.Valid() && lz.v == old(lz.v).(strstart := old(lz.v.strstart) + len - 1,
      lookahead := old(lz.v.lookahead) - (len - 1), prevLength := 0)
  {
    hide Below, FillForm, Multiple;
    lz.v := lz.v.(strstart := lz.v.strstart + len - 1, lookahead := lz.v.lookahead - (len - 1), prevLength := 0);
  }

  /** Tally the previous match, insert its strings and move behind it. */
  method PutPrevious(s: Deflater, start: nat, len: nat) returns (full: bool)
    requires !s.lz.ahead && Inserted(s.lz, s.lz.v.strstart + 1) && s.Open(s.lz.base + s.lz.v.strstart - 1, 2) &&
      s.lz.v.strstart <= s.lz.v.fillEnd
    requires Previous(s.lz, start, len) && Hashed(s.lz.roll, s.lz.window[..], s.lz.v)
    modifies s.lz`v, s.lz.head, s.lz.prev, s.bs, s.bs.w, s.bs.dynL, s.bs.dynD, s.bs.blTree
    ensures s.lz.RollsOn()
    ensures s.lz.Valid() && s.Open(s.lz.base + s.lz.v.strstart, 0) && (!full ==> |s.bs.toks| + 2 <= s.bs.litBufsize)
    ensures s.lz.v.strstart < s.lz.v.fillEnd + MIN_LOOKAHEAD && s.lz.v.prevLength == 0 &&
      s.lz.v.lookahead < old(s.lz.v.lookahead)
    ensures Adopted(s, old(s.lz.v), s.lz.v, start, len, old(s.Said()), old(Chains(s.lz.head[..], s.lz.prev[..])))
  {
    hide *;
    Sizes();
    PreviousParts(s.lz, start, len);
    InsertedApart(s.lz, s.lz.v.strstart + 1);
    ghost var v, said, c := s.lz.v, s.Said(), Chains(s.lz.head[..], s.lz.prev[..]);
    var dist := s.lz.v.strstart - 1 - start;
    OpenRoom(s, s.lz.base + s.lz.v.strstart - 1, 2, 1);
    full := PutMatch(s, dist, len, s.lz.base + s.lz.v.strstart - 1);
    ghost var toks := s.bs.toks;
    InsertStrings(s, len, dist, s.lz.base + v.strstart - 1 + len);
    ghost var v1 := s.lz.v;
    MoveLazyTallied(s, len, s.lz.base + v.strstart - 1 + len);
    ValidEnd(s.lz);
    s.lz.ValidParts();
    RollsBehind(s.lz.roll, s.lz.window[..], v1, s.lz.v, len);
    RollsInput(s.lz.window[..], s.lz.v, s.lz.input, s.lz.base, s.lz.roll);
    s.lz.MakeRollsOn();
    IsAdopted(s, v, v1, s.lz.v, start, len, said, c);
  }

  /** The waiting match of len bytes at start has been tallied and its strings have been inserted. */
  ghost predicate Adopted(s: Deflater, v: Vars, v': Vars, start: nat, len: nat, said: seq<Token>, c: Chains)
    reads s, s.bs, s.lz.window, s.lz.head, s.lz.prev
  {
    len >= STD_MIN_MATCH && start + 1 < v.strstart && s.Said() == said + [Match(len - 3, v.strstart - 1 - start)] &&
    v' == v.(strstart := v.strstart + len - 1, lookahead := v'.lookahead, prevLength := 0, insH := v'.insH,
             blockStart := v'.blockStart) &&
    v'.lookahead + len - 1 == v.lookahead && |c.head| == HASH_SIZE && |c.prev| > 0 &&
    v.strstart + InsertCount(v, len) + 4 <= s.lz.window.Length &&
    Chains(s.lz.head[..], s.lz.prev[..]) ==
    LazyPut(c, s.lz.window[..], s.lz.roll, v.strstart, InsertCount(v, len), TailCount(v.strstart - 1 - start))
  }

  lemma RollsBehind(roll: bool, w: seq<nat>, v: Vars, v': Vars, len: nat)
    requires HashedAt(roll, w, v, len) && v'.insH == v.insH && v'.strstart == v.strstart + len - 1
    requires v'.lookahead == v.lookahead - (len - 1)
    ensures roll && v'.lookahead >= 3 ==> RollsAt(w, v'.insH, v'.strstart)
  {
    hide RollsAt;
  }

  lemma IsAdopted(s: Deflater, v: Vars, v1: Vars, v': Vars, start: nat, len: nat, said: seq<Token>, c: Chains)
    requires len >= 3 && start + 1 < v.strstart && s.Said() == said + [Match(len - 3, v.strstart - 1 - start)]
    requires v1 == v.(insH := v1.insH) && len - 1 <= v.lookahead
    requires v' == v1.(strstart := v.strstart + len - 1, lookahead := v.lookahead - (len - 1), prevLength := 0)
    requires |c.head| == HASH_SIZE && |c.prev| > 0 && v.strstart + InsertCount(v1, len) + 4 <= s.lz.window.Length
    requires Chains(s.lz.head[..], s.lz.prev[..]) ==
             LazyPut(c, s.lz.window[..], s.lz.roll, v.strstart, InsertCount(v1, len),
                     TailCount(v.strstart - 1 - start))
    ensures Adopted(s, v, v', start, len, said, c)
  {
    hide LazyPut, Deflater.Said;
  }

  lemma PreviousParts(lz: Lz, start: nat, len: nat)
    requires Previous(lz, start, len)
    ensures 3 <= len <= 258 && len <= lz.v.lookahead + 1 && start + 1 < lz.v.strstart &&
      lz.v.strstart - 1 - start <= 32768
    ensures Repeats(lz.input, lz.base + lz.v.strstart - 1, lz.v.strstart - 1 - start, len)
  {
    hide Repeats;
  }

  /** The strings of the match, with the symbols as they are. */
  method InsertStrings(s: Deflater, len: nat, dist: nat, ghost p: int)
    requires Inserted(s.lz, s.lz.v.strstart + 1) && s.lz.v.strstart <= s.lz.v.fillEnd
    requires STD_MIN_MATCH <= len <= STD_MAX_MATCH && len <= s.lz.v.lookahead + 1 && s.Open(p, 0)
    requires Hashed(s.lz.roll, s.lz.window[..], s.lz.v)
    modifies s.lz`v, s.lz.head, s.lz.prev
    ensures HashedAt(s.lz.roll, s.lz.window[..], s.lz.v, len)
    ensures Inserted(s.lz, s.lz.v.strstart + len - 1) && s.lz.v == old(s.lz.v).(insH := s.lz.v.insH) && s.Open(p, 0)
    ensures var cnt := InsertCount(s.lz.v, len);
      s.lz.head.Length == HASH_SIZE && s.lz.prev.Length > 0 && s.lz.v.strstart + cnt + 4 <= s.lz.window.Length &&
      Chains(s.lz.head[..], s.lz.prev[..]) ==
      LazyPut(old(Chains(s.lz.head[..], s.lz.prev[..])), s.lz.window[..], s.lz.roll, s.lz.v.strstart, cnt,
              TailCount(dist))
  {
    hide Tracks, Carries, BlockState.Valid, Deflater.Settings, Lz.Valid, Inserted, LazyPut, Kept, Hashed, HashedAt;
    InsertLazy(s.lz, len, dist);
  }

  method MoveLazyTallied(s: Deflater, len: nat, ghost p: int)
    requires !s.lz.ahead && STD_MIN_MATCH <= len <= s.lz.v.lookahead + 1 && Inserted(s.lz, s.lz.v.strstart + len - 1)
    requires s.Open(p, 0)
    modifies s.lz`v
    ensures s.lz.Valid() && s.Open(p, 0) && s.lz.v == old(s.lz.v).(strstart := old(s.lz.v.strstart) + len - 1,
      lookahead := old(s.lz.v.lookahead) - (len - 1), prevLength := 0)
  {
    hide Tracks, Carries, BlockState.Valid, Deflater.Settings, Lz.Valid, Inserted;
    MoveLazy(s.lz, len);
  }

  /** There was a match at the previous step and the current one is not better: adopt the previous match. */
  method AdoptPrevious(s: Deflater, start: nat, len: nat) returns (stop: bool)
    requires !s.lz.ahead && Inserted(s.lz, s.lz.v.strstart + 1) && s.Open(s.lz.base + s.lz.v.strstart - 1, 2) &&
      s.lz.v.strstart <= s.lz.v.fillEnd
    requires Previous(s.lz, start, len) && Hashed(s.lz.roll, s.lz.window[..], s.lz.v)
    modifies s, s.lz`v, s.lz.head, s.lz.prev, s.bs, s.bs.w, s.bs.dynL, s.bs.dynD, s.bs.blTree
    ensures SlowAt(s) && s.lz.v.lookahead < old(s.lz.v.lookahead) && !s.matchAvailable && (stop ==> s.availOut == 0)
    ensures Adopted(s, old(s.lz.v), s.lz.v, start, len, old(s.Said()), old(Chains(s.lz.head[..], s.lz.prev[..])))
  {
    hide *;
    ghost var v, said, c := s.lz.v, s.Said(), Chains(s.lz.head[..], s.lz.prev[..]);
    InsertedApart(s.lz, s.lz.v.strstart + 1);
    var full := PutPrevious(s, start, len);
    ghost var v1 := s.lz.v;
    AdoptedParts(s, v, v1, start, len, said, c);
    stop := FlushNone(s, full);
    AdoptedStill(s, v, v1, s.lz.v, start, len, said, c);
    NoneWaiting(s);
  }

  /** FLUSH_BLOCK, with no byte that waits. */
  method FlushNone(s: Deflater, full: bool) returns (stop: bool)
    requires s.lz.Valid() && s.Open(s.lz.base + s.lz.v.strstart, 0) && (!full ==> |s.bs.toks| + 2 <= s.bs.litBufsize)
    requires s.lz.v.strstart < s.lz.v.fillEnd + MIN_LOOKAHEAD
    modifies s, s.lz`v, s.bs, s.bs.w, s.bs.dynL, s.bs.dynD, s.bs.blTree
    ensures AtString(s) && s.lz.v == old(s.lz.v).(blockStart := s.lz.v.blockStart) && !s.matchAvailable
    ensures s.Said() == old(s.Said()) && (stop ==> s.availOut == 0) && (old(s.lz.RollsOn()) ==> s.lz.RollsOn())
  {
    hide Tracks, Carries, BlockState.Valid, Lz.Valid, AtString, Flat, RollsAt;
    s.matchAvailable := false;
    stop := FlushFull(s, full);
  }

  lemma AdoptedStill(s: Deflater, v: Vars, v1: Vars, v': Vars, start: nat, len: nat, said: seq<Token>, c: Chains)
    requires v' == v1.(blockStart := v'.blockStart) && len >= 3 && start + 1 < v.strstart
    requires s.Said() == said + [Match(len - 3, v.strstart - 1 - start)]
    requires AdoptedVars(v, v1, len)
    requires |c.head| == HASH_SIZE && |c.prev| > 0 && v.strstart + InsertCount(v, len) + 4 <= s.lz.window.Length
    requires Chains(s.lz.head[..], s.lz.prev[..]) ==
             LazyPut(c, s.lz.window[..], s.lz.roll, v.strstart, InsertCount(v, len),
                     TailCount(v.strstart - 1 - start))
    ensures Adopted(s, v, v', start, len, said, c)
  {
    hide LazyPut, Deflater.Said;
  }

  predicate AdoptedVars(v: Vars, v': Vars, len: nat)
  {
    v' == v.(strstart := v'.strstart, lookahead := v'.lookahead, prevLength := 0, insH := v'.insH,
             blockStart := v'.blockStart) &&
    v'.strstart + 1 == v.strstart + len && v'.lookahead + len == v.lookahead + 1
  }

  lemma AdoptedParts(s: Deflater, v: Vars, v': Vars, start: nat, len: nat, said: seq<Token>, c: Chains)
    requires Adopted(s, v, v', start, len, said, c)
    ensures len >= 3 && start + 1 < v.strstart && s.Said() == said + [Match(len - 3, v.strstart - 1 - start)]
    ensures AdoptedVars(v, v', len)
    ensures |c.head| == HASH_SIZE && |c.prev| > 0 && v.strstart + InsertCount(v, len) + 4 <= s.lz.window.Length
    ensures Chains(s.lz.head[..], s.lz.prev[..]) ==
            LazyPut(c, s.lz.window[..], s.lz.roll, v.strstart, InsertCount(v, len),
                    TailCount(v.strstart - 1 - start))
  {
    hide LazyPut, Deflater.Said;
  }

  lemma NoneWaiting(s: Deflater)
    requires AtString(s) && !s.lz.ahead && !s.matchAvailable && s.lz.v.prevLength == 0 && s.lz.RollsOn()
    ensures SlowAt(s)
  {
    hide Lz.RollsOn, BlockState.Valid, Deflater.Settings, Lz.Shape, Lz.Valid, Deflater.Tracking;
  }

  /** Go to the next string; the match of the current one waits. */
  method Step(lz: Lz, len: nat)
    requires !lz.ahead && Inserted(lz, lz.v.strstart + 1) && lz.v.lookahead > 0
    modifies lz`v
    ensures lz.Valid() && lz.v == old(lz.v).(strstart := old(lz.v.strstart) + 1, lookahead := old(lz.v.lookahead) - 1,
      prevLength := len)
  {
    hide Below, FillForm, Multiple;
    lz.v := lz.v.(strstart := lz.v.strstart + 1, lookahead := lz.v.lookahead - 1, prevLength := len);
  }

  lemma NowWaits(v: Vars, input: seq<nat>, base: nat, len: nat)
    requires len <= STD_MAX_MATCH && v.lookahead > 0
    requires len >= STD_MIN_MATCH ==>
      len <= v.lookahead && 0 < v.matchStart < v.strstart && v.strstart - v.matchStart <= 32768
    requires len >= STD_MIN_MATCH ==> Repeats(input, base + v.strstart, v.strstart - v.matchStart, len)
    ensures Waiting(v.(strstart := v.strstart + 1, lookahead := v.lookahead - 1, prevLength := len), input, base, true)
  {
    hide Repeats;
  }

  lemma PreviousByte(lz: Lz)
    requires HoldsInput(lz.window[..], lz.v, lz.input, lz.base) && lz.v.strstart > 0
    ensures lz.v.strstart - 1 < lz.window.Length && lz.base + lz.v.strstart - 1 < |lz.input|
    ensures lz.window[lz.v.strstart - 1] == lz.input[lz.base + lz.v.strstart - 1]
  {
    assert lz.window[..][..lz.v.strstart + lz.v.lookahead][lz.v.strstart - 1] == lz.input[lz.base..][lz.v.strstart - 1];
  }

  /** The byte before the current string becomes a literal. */
  method LiteralAndFlush(s: Deflater)
    requires !s.lz.ahead && Inserted(s.lz, s.lz.v.strstart + 1) && s.Open(s.lz.base + s.lz.v.strstart - 1, 2) &&
      s.lz.v.strstart <= s.lz.v.fillEnd
    requires s.lz.v.strstart > 0
    modifies s`sent, s`availOut, s`blocks, s`parts, s.lz`v, s.bs, s.bs.w, s.bs.dynL, s.bs.dynD, s.bs.blTree
    ensures Inserted(s.lz, s.lz.v.strstart + 1) && s.Open(s.lz.base + s.lz.v.strstart, 2)
    ensures s.lz.v == old(s.lz.v).(blockStart := s.lz.v.blockStart) && s.lz.v.strstart - 1 < s.lz.window.Length
    ensures s.Said() == old(s.Said()) + [Lit(s.lz.window[s.lz.v.strstart - 1])]
  {
    hide *;
    ghost var n, p := s.lz.v.strstart + 1, s.lz.base + s.lz.v.strstart - 1;
    Sizes();
    InsertedParts(s.lz, n);
    PreviousByte(s.lz);
    OpenRoom(s, p, 2, 1);
    var full := PutLiteral(s, s.lz.window[s.lz.v.strstart - 1], p);
    OpenRoom(s, p + 1, 0, 0);
    if full {
      BufferEnd(s.lz);
      FlushBlockOnly(s);
    } else {
      OpenFor(s, p + 1, 2);
    }
    IsInserted(s.lz, n);
  }

  /** No match at the previous position, or a longer one at the current: the previous byte becomes a literal. */
  method LiteralBefore(s: Deflater, len: nat) returns (stop: bool)
    requires !s.lz.ahead && Inserted(s.lz, s.lz.v.strstart + 1) && s.Open(s.lz.base + s.lz.v.strstart - 1, 2) &&
      s.lz.v.strstart <= s.lz.v.fillEnd
    requires s.lz.v.strstart > 0 && s.lz.v.lookahead > 0 && s.matchAvailable
    requires Hashed(s.lz.roll, s.lz.window[..], s.lz.v)
    requires Waiting(s.lz.v.(strstart := s.lz.v.strstart + 1, lookahead := s.lz.v.lookahead - 1, prevLength := len),
      s.lz.input, s.lz.base, true)
    modifies s, s.lz`v, s.bs, s.bs.w, s.bs.dynL, s.bs.dynD, s.bs.blTree
    ensures SlowAt(s) && s.lz.v.lookahead < old(s.lz.v.lookahead) && s.matchAvailable && (stop ==> s.availOut == 0)
    ensures old(s.lz.v.strstart) - 1 < s.lz.window.Length
    ensures s.Said() == old(s.Said()) + [Lit(s.lz.window[old(s.lz.v.strstart) - 1])]
    ensures s.lz.v == old(s.lz.v).(strstart := old(s.lz.v.strstart) + 1, lookahead := old(s.lz.v.lookahead) - 1,
                                   prevLength := len, blockStart := s.lz.v.blockStart)
  {
    hide *;
    ghost var v := s.lz.v;
    LiteralAndFlush(s);
    WaitingBlock(s.lz.v.(strstart := s.lz.v.strstart + 1, lookahead := s.lz.v.lookahead - 1, prevLength := len),
                 v.(strstart := v.strstart + 1, lookahead := v.lookahead - 1, prevLength := len), s.lz.input,
                 s.lz.base);
    stop := s.availOut == 0;
    HashedBlock(s.lz.roll, s.lz.window[..], v, s.lz.v);
    WaitForNext(s, len);
  }

  lemma WaitingBlock(v: Vars, v0: Vars, input: seq<nat>, base: nat)
    requires Waiting(v0, input, base, true) && v == v0.(blockStart := v.blockStart)
    ensures Waiting(v, input, base, true)
  {
  }

  lemma HashedBlock(roll: bool, w: seq<nat>, v: Vars, v': Vars)
    requires Hashed(roll, w, v) && v' == v.(blockStart := v'.blockStart)
    ensures Hashed(roll, w, v')
  {
    hide RollsAt;
  }

  /** Nothing to compare with yet: wait for the next step to decide. */
  method WaitForNext(s: Deflater, len: nat)
    requires !s.lz.ahead && Inserted(s.lz, s.lz.v.strstart + 1) && s.Open(s.lz.base + s.lz.v.strstart, 2) &&
      s.lz.v.strstart <= s.lz.v.fillEnd
    requires s.lz.v.lookahead > 0 && Hashed(s.lz.roll, s.lz.window[..], s.lz.v)
    requires Waiting(s.lz.v.(strstart := s.lz.v.strstart + 1, lookahead := s.lz.v.lookahead - 1, prevLength := len),
      s.lz.input, s.lz.base, true)
    modifies s`matchAvailable, s.lz`v
    ensures SlowAt(s) && s.lz.v.lookahead < old(s.lz.v.lookahead) && s.matchAvailable
    ensures s.lz.v == old(s.lz.v).(strstart := old(s.lz.v.strstart) + 1, lookahead := old(s.lz.v.lookahead) - 1,
                                   prevLength := len)
  {
    hide Tracks, Tallied, HasCodes, Tokens.Holds, Below, FillForm, Multiple, HoldsInput, Waiting;
    hide BlockState.Valid, Lz.Shape, Lz.Valid, RollsAt, Rolling, Hashed;
    ghost var v := s.lz.v;
    Step(s.lz, len);
    s.lz.ValidParts();
    HashedStep(s.lz.roll, s.lz.window[..], v, s.lz.v);
    RollsInput(s.lz.window[..], s.lz.v, s.lz.input, s.lz.base, s.lz.roll);
    s.matchAvailable := true;
  }

  lemma HashedStep(roll: bool, w: seq<nat>, v: Vars, v': Vars)
    requires Hashed(roll, w, v) && v'.strstart == v.strstart + 1 && v'.lookahead + 1 == v.lookahead && v'.insH == v.insH
    ensures roll && v'.lookahead >= 3 ==> RollsAt(w, v'.insH, v'.strstart)
  {
    hide RollsAt;
  }

  // ---- the loop ----

  /** What is known after the search at a string: the match of the string before still waits, and len is the current
      one. */
  ghost predicate Searched(s: Deflater, v0: Vars, len: nat)
    reads s, s.lz, s.lz.window, s.lz.head, s.lz.prev, s.bs, s.bs.w, s.bs.dynL, s.bs.dynD, s.bs.blTree
  {
    !s.lz.ahead && Inserted(s.lz, s.lz.v.strstart + 1) && s.Open(Tallied0(s), 2) &&
      s.lz.v.strstart <= s.lz.v.fillEnd && s.lz.v.lookahead > 0 &&
    Better(s.lz, v0, len) && len <= STD_MAX_MATCH && Waiting(v0, s.lz.input, s.lz.base, s.matchAvailable)
  }

  method SearchTurn(s: Deflater, filtered: bool) returns (len: nat, ghost v0: Vars, ghost t: Lazy)
    requires SlowAt(s) && s.lz.v.strstart <= s.lz.v.fillEnd && s.lz.v.lookahead > 0
    modifies s.lz`v, s.lz.head, s.lz.prev
    ensures Searched(s, v0, len) && v0.matchStart == old(s.lz.v.matchStart) && v0.lookahead == old(s.lz.v.lookahead)
    ensures t.u == old(s.lz.Now()) && t.avail == s.matchAvailable && t.len == len && LazySearch(s, t, filtered)
    ensures AfterSearch(s, t)
  {
    hide Tracks, Tallied, HasCodes, Tokens.Holds, Below, FillForm, Multiple, HoldsInput, Placed, WaitingMatch, Found,
      Inserted, Carries, LongestSlow, CurrentHead, CurrentHash, WithCurrent, RollsAt, Rolling;
    hide BlockState.Valid, Lz.Shape, Lz.Sound, Deflater.Settings;
    ChainLimit(s);
    RingSize(s.lz);
    s.lz.Apart();
    ghost var u := s.lz.Now();
    var hd := InsertSlow(s.lz);
    v0 := s.lz.v;
    WaitingSame(old(s.lz.v), v0, s.lz.input, s.lz.base, s.matchAvailable);
    ghost var best, walks;
    len, best, walks := SearchSlow(s.lz, hd, s.maxLazy, s.maxChain, s.niceMatch, s.goodMatch, filtered);
    t := Lazy(u, s.matchAvailable, len, best, s.lz.v.matchStart, walks);
  }

  /** The state after the search of a turn. */
  ghost predicate AfterSearch(s: Deflater, t: Lazy)
    reads s.lz, s.lz.window, s.lz.head, s.lz.prev
  {
    LazyTurns.Fits(t.u) && s.lz.window[..] == t.u.w && s.lz.base == t.u.base &&
    s.lz.v == t.u.v.(insH := s.lz.v.insH, matchStart := t.start) && Hashed(s.lz.roll, t.u.w, s.lz.v) &&
    Chains(s.lz.head[..], s.lz.prev[..]) == WithCurrent(t.u, s.lz.roll)
  }

  lemma ChainLimit(s: Deflater)
    requires s.Settings()
    ensures s.maxChain < 0x1_0000_0000
  {
  }

  lemma WaitingSame(v: Vars, v': Vars, input: seq<nat>, base: nat, avail: bool)
    requires Waiting(v, input, base, avail) && v' == v.(insH := v'.insH)
    ensures Waiting(v', input, base, avail)
  {
  }

  lemma NextWaits(lz: Lz, v0: Vars, len: nat)
    requires Better(lz, v0, len) && len <= STD_MAX_MATCH && lz.v.lookahead > 0 &&
      (len >= STD_MIN_MATCH ==> len > v0.prevLength)
    ensures Waiting(lz.v.(strstart := lz.v.strstart + 1, lookahead := lz.v.lookahead - 1, prevLength := len), lz.input,
      lz.base, true)
  {
    hide Repeats, Waiting;
    NowWaits(lz.v, lz.input, lz.base, len);
  }

  lemma StillPrevious(lz: Lz, v0: Vars, len: nat, avail: bool)
    requires Better(lz, v0, len) && Waiting(v0, lz.input, lz.base, avail) && v0.prevLength >= STD_MIN_MATCH
    ensures avail && Previous(lz, v0.matchStart, v0.prevLength)
  {
    hide Found, Repeats;
  }

  /** Adopt the previous match, emit the previous byte, or wait. */
  method Decide(s: Deflater, len: nat, prevMatch: nat, ghost v0: Vars, ghost t: Lazy) returns (stop: bool)
    requires Searched(s, v0, len) && prevMatch == v0.matchStart == t.u.v.matchStart && AfterSearch(s, t)
    requires t.len == len && t.avail == s.matchAvailable
    modifies s, s.lz`v, s.lz.head, s.lz.prev, s.bs, s.bs.w, s.bs.dynL, s.bs.dynD, s.bs.blTree
    ensures SlowAt(s) && s.lz.v.lookahead < old(s.lz.v.lookahead) && (stop ==> s.availOut == 0)
    ensures s.Said() == old(s.Said()) + LazyTokens(t) && LazyMoved(t, s.lz.v, s.matchAvailable)
    ensures LazyChains(s, t, Chains(s.lz.head[..], s.lz.prev[..]))
  {
    hide *;
    Sizes();
    stop := false;
    SearchedParts(s, v0, len);
    AfterParts(s, t);
    InsertedApart(s.lz, s.lz.v.strstart + 1);
    ghost var v, c, said := s.lz.v, Chains(s.lz.head[..], s.lz.prev[..]), s.Said();
    if s.lz.v.prevLength >= STD_MIN_MATCH && len <= s.lz.v.prevLength {
      StillPrevious(s.lz, v0, len, s.matchAvailable);
      WaitingOpen(s);
      stop := AdoptPrevious(s, prevMatch, s.lz.v.prevLength);
      AdoptedParts(s, v, s.lz.v, prevMatch, v.prevLength, said, c);
      TurnAdopts(s, t, v, c, s.lz.v);
    } else {
      NextWaits(s.lz, v0, len);
      if s.matchAvailable {
        WaitingOpen(s);
        WaitingStart(v0, s.lz.input, s.lz.base);
        stop := LiteralBefore(s, len);
        TurnWaits(s, t, v, c, s.lz.v);
      } else {
        NoneOpen(s);
        WaitForNext(s, len);
        TurnWaits(s, t, v, c, s.lz.v);
        NoneAfterToks(said);
      }
    }
  }

  lemma SearchedParts(s: Deflater, v0: Vars, len: nat)
    requires Searched(s, v0, len)
    ensures !s.lz.ahead && Inserted(s.lz, s.lz.v.strstart + 1) && s.Open(Tallied0(s), 2)
    ensures s.lz.v.strstart <= s.lz.v.fillEnd && s.lz.v.lookahead > 0 && Better(s.lz, v0, len) && len <= 258
    ensures Waiting(v0, s.lz.input, s.lz.base, s.matchAvailable)
    ensures (s.lz.v.strstart, s.lz.v.prevLength) == (v0.strstart, v0.prevLength)
  {
    hide Inserted, Deflater.Open, Found, Waiting;
  }

  lemma AfterParts(s: Deflater, t: Lazy)
    requires AfterSearch(s, t)
    ensures LazyTurns.Fits(t.u) && s.lz.window[..] == t.u.w
    ensures s.lz.v == t.u.v.(insH := s.lz.v.insH, matchStart := t.start) && Hashed(s.lz.roll, t.u.w, s.lz.v)
    ensures Chains(s.lz.head[..], s.lz.prev[..]) == WithCurrent(t.u, s.lz.roll)
  {
    hide Hashed, WithCurrent;
  }

  lemma WaitingOpen(s: Deflater)
    requires s.Open(Tallied0(s), 2) && s.matchAvailable
    ensures s.Open(s.lz.base + s.lz.v.strstart - 1, 2)
  {
    hide Deflater.Open;
  }

  lemma NoneOpen(s: Deflater)
    requires s.Open(Tallied0(s), 2) && !s.matchAvailable
    ensures s.Open(s.lz.base + s.lz.v.strstart, 2)
  {
    hide Deflater.Open;
  }

  lemma WaitingStart(v: Vars, input: seq<nat>, base: nat)
    requires Waiting(v, input, base, true)
    ensures v.strstart >= 1
  {
    hide WaitingMatch;
  }

  lemma TurnAdopts(s: Deflater, t: Lazy, v: Vars, c: Chains, v': Vars)
    requires LazyTurns.Fits(t.u) && v == t.u.v.(insH := v.insH, matchStart := t.start)
    requires c == WithCurrent(t.u, s.lz.roll) && v.prevLength >= 3 && t.len <= v.prevLength
    requires t.u.v.matchStart + 1 < v.strstart && AdoptedVars(v, v', v.prevLength)
    requires v.strstart + InsertCount(v, v.prevLength) + 4 <= s.lz.window.Length && s.lz.window[..] == t.u.w
    requires |c.head| == HASH_SIZE && |c.prev| > 0
    requires Chains(s.lz.head[..], s.lz.prev[..]) ==
             LazyPut(c, s.lz.window[..], s.lz.roll, v.strstart, InsertCount(v, v.prevLength),
                     TailCount(v.strstart - 1 - t.u.v.matchStart))
    ensures LazyTokens(t) == [Match(v.prevLength - 3, v.strstart - 1 - t.u.v.matchStart)] && LazyMoved(t, v', false)
    ensures LazyChains(s, t, Chains(s.lz.head[..], s.lz.prev[..]))
  {
    hide LazyPut, WithCurrent;
  }

  lemma TurnWaits(s: Deflater, t: Lazy, v: Vars, c: Chains, v': Vars)
    requires LazyTurns.Fits(t.u) && v == t.u.v.(insH := v.insH, matchStart := t.start)
    requires c == WithCurrent(t.u, s.lz.roll) == Chains(s.lz.head[..], s.lz.prev[..]) && v.lookahead > 0
    requires !(v.prevLength >= 3 && t.len <= v.prevLength) && (t.avail ==> 1 <= v.strstart)
    requires v' == v.(strstart := v.strstart + 1, lookahead := v.lookahead - 1, prevLength := t.len,
                      blockStart := v'.blockStart)
    ensures LazyTokens(t) == if t.avail then [Lit(t.u.w[v.strstart - 1])] else []
    ensures LazyMoved(t, v', true) && LazyChains(s, t, Chains(s.lz.head[..], s.lz.prev[..]))
  {
    hide WithCurrent;
  }

  /** One turn of the loop. A match that waits is adopted exactly if no string that has been tried gives a better one;
      and if the byte before becomes a literal instead, the match that waits now is longer. */
  method SlowTurn(s: Deflater, filtered: bool) returns (stop: bool, ghost t: Lazy)
    requires SlowAt(s) && s.lz.v.strstart <= s.lz.v.fillEnd && s.lz.v.lookahead > 0
    modifies s, s.lz`v, s.lz.head, s.lz.prev, s.bs, s.bs.w, s.bs.dynL, s.bs.dynD, s.bs.blTree
    ensures SlowAt(s) && s.lz.v.lookahead < old(s.lz.v.lookahead) && (stop ==> s.availOut == 0)
    ensures t.u == old(s.lz.Now()) && t.avail == old(s.matchAvailable) && LazySearch(s, t, filtered)
    ensures s.Said() == old(s.Said()) + LazyTokens(t) && LazyMoved(t, s.lz.v, s.matchAvailable)
    ensures LazyChains(s, t, Chains(s.lz.head[..], s.lz.prev[..]))
    ensures LazyTurns.Fits(t.u)
    ensures old(s.lz.v.prevLength) >= STD_MIN_MATCH ==> old(s.lz.v.matchStart + 1 < s.lz.v.strstart)
    ensures old(s.lz.v.prevLength) >= STD_MIN_MATCH ==>
      (s.Said() ==
       old(s.Said()) + [Match(old(s.lz.v.prevLength) - 3, old(s.lz.v.strstart - 1 - s.lz.v.matchStart))] <==>
       NoneBetter(s, t, filtered))
    ensures old(s.lz.v.prevLength) >= STD_MIN_MATCH && !NoneBetter(s, t, filtered) ==>
      s.Said() == old(s.Said()) + [Lit(t.u.w[old(s.lz.v.strstart) - 1])] && s.lz.v.prevLength > old(s.lz.v.prevLength)
  {
    hide *;
    Sizes();
    var prevMatch := s.lz.v.matchStart;
    var len;
    ghost var v0, said := s.lz.v, s.Said();
    SlowParts(s);
    NowIs(s.lz);
    len, v0, t := SearchTurn(s, filtered);
    SearchedLook(s, v0, len);
    AfterParts(s, t);
    stop := Decide(s, len, prevMatch, v0, t);
    if t.u.v.prevLength >= STD_MIN_MATCH {
      LazyRule(s, t, filtered);
      LazyEffect(s, t, filtered, said, s.Said(), s.lz.v, s.matchAvailable);
    }
  }

  lemma SlowParts(s: Deflater)
    requires SlowAt(s)
    ensures s.lz.v.prevLength >= 3 ==> s.matchAvailable && s.lz.v.matchStart + 1 < s.lz.v.strstart
  {
    hide Deflater.Ready;
  }

  lemma LazyEffect(s: Deflater, t: Lazy, filtered: bool, said: seq<Token>, said': seq<Token>, v': Vars, avail: bool)
    requires LazySearch(s, t, filtered) && t.u.v.prevLength >= 3 && t.avail && t.u.v.matchStart + 1 < t.u.v.strstart
    requires said' == said + LazyTokens(t) && LazyMoved(t, v', avail)
    ensures LazyTurns.Fits(t.u)
    ensures Adopts(t) <==> said' == said + [Match(t.u.v.prevLength - 3, t.u.v.strstart - 1 - t.u.v.matchStart)]
    ensures !Adopts(t) ==> said' == said + [Lit(t.u.w[t.u.v.strstart - 1])] && v'.prevLength > t.u.v.prevLength
  {
    hide LongestSlow, CurrentHead, WithCurrent;
    if !Adopts(t) {
      assert said'[|said|] == Lit(t.u.w[t.u.v.strstart - 1]);
    }
  }

  lemma SearchedLook(s: Deflater, v0: Vars, len: nat)
    requires Searched(s, v0, len)
    ensures s.lz.v.lookahead == v0.lookahead
  {
    hide Found, Below;
  }

  /** The literal of the last byte of the input, if it waits. */
  function LastByte(input: seq<nat>, avail: bool): (toks: seq<Token>)
  {
    if avail && |input| > 0 then [Lit(input[|input| - 1])] else []
  }

  /** The last byte, if it still waits. */
  method LastLiteral(s: Deflater)
    requires SlowAt(s) && s.lz.v.lookahead == 0
    modifies s`matchAvailable, s.bs, s.bs.w, s.bs.dynL, s.bs.dynD, s.bs.blTree
    ensures s.lz.Valid() && s.Open(s.lz.base + s.lz.v.strstart, 1) && !s.matchAvailable
    ensures s.Said() == old(s.Said()) + LastByte(s.lz.input, old(s.matchAvailable))
  {
    hide *;
    ghost var p, said := Tallied0(s), s.Said();
    EndOpen(s);
    if s.matchAvailable {
      PreviousByte(s.lz);
      LastByteIs(s.lz.input, s.lz.base + s.lz.v.strstart - 1);
      OpenRoom(s, p, 2, 1);
      var _ := PutLiteral(s, s.lz.window[s.lz.v.strstart - 1], p);
      OpenFor(s, p + 1, 1);
    } else {
      OpenRoom(s, p, 2, 1);
      LastByteNone(s.lz.input);
      NoneAfterToks(said);
    }
    NothingWaits(s, s.lz.base + s.lz.v.strstart, 1);
  }

  method NothingWaits(s: Deflater, ghost p: int, ghost n: nat)
    requires s.Open(p, n)
    modifies s`matchAvailable
    ensures s.Open(p, n) && !s.matchAvailable
  {
    hide Tracks, Carries, BlockState.Valid;
    s.matchAvailable := false;
  }

  lemma EndOpen(s: Deflater)
    requires SlowAt(s) && s.lz.v.lookahead == 0
    ensures s.lz.Valid() && s.Open(Tallied0(s), 2) && HoldsInput(s.lz.window[..], s.lz.v, s.lz.input, s.lz.base)
    ensures s.matchAvailable ==> s.lz.v.strstart > 0 && Tallied0(s) == s.lz.base + s.lz.v.strstart - 1
    ensures !s.matchAvailable ==> Tallied0(s) == s.lz.base + s.lz.v.strstart
    ensures |s.lz.input| == s.lz.base + s.lz.v.strstart
  {
    hide Deflater.Open, Below, Placed, Lz.Shape;
  }

  lemma LastByteIs(input: seq<nat>, p: int)
    requires 0 <= p == |input| - 1
    ensures LastByte(input, true) == [Lit(input[p])]
  {
  }

  /** The end of deflate_slow. */
  method EndSlow(s: Deflater, flush: Flush) returns (status: BlockStatus)
    requires SlowAt(s) && s.lz.v.lookahead == 0 && s.lz.nextIn == []
    modifies s, s.lz`v, s.bs, s.bs.w, s.bs.dynL, s.bs.dynD, s.bs.blTree
    ensures flush == Finish <==> status == FinishDone || status == FinishStarted
    ensures flush == Finish ==> Finished(s)
    ensures (flush != Finish ==> SlowAt(s)) && s.lz.v.lookahead == 0
    ensures flush != NoFlush ==> RightStatus(s, flush, status)
    ensures !s.matchAvailable && s.Said() == old(s.Said()) + LastByte(s.lz.input, old(s.matchAvailable))
  {
    hide Tracks, Tallied, HasCodes, Tokens.Holds, Below, FillForm, Multiple, HoldsInput, StreamOf, AllSendable,
      Contents, Waiting, Carries, Flat, RightStatus, Delivered;
    hide BlockState.Valid, Deflater.Settings, Deflater.Tracking, Lz.Valid;
    ghost var v0, avail := s.lz.v, s.matchAvailable;
    LastLiteral(s);
    ghost var sent, out := s.sent, s.availOut;
    status := EndOfInput(s, flush);
    if flush != NoFlush { EndRight(s, flush, status, sent, out); }
    if flush != Finish { EndWaits(v0, s.lz.v, s.lz.input, s.lz.base, avail); }
  }

  /** At the end of the input no match can wait. */
  lemma EndWaits(v0: Vars, v: Vars, input: seq<nat>, base: nat, avail: bool)
    requires Waiting(v0, input, base, avail) && v0.lookahead == 0 &&
      v == v0.(insert := v.insert, blockStart := v.blockStart)
    ensures Waiting(v, input, base, false)
  {
  }

  /** deflate_slow. The symbols since the last block expand to the input from block_start to strstart, less the one byte
      that waits; when it finishes, the stream stands for all of the input. The symbols are those of the turns, each of
      which follows the lazy rule and begins where the one before it has ended, and at the end of the input the byte
      that waits. */
  method DeflateSlow(s: Deflater, flush: Flush, filtered: bool)
    returns (status: BlockStatus, ghost turns: seq<Lazy>, ghost waits: bool)
    requires SlowAt(s)
    modifies s, s.lz, s.lz.window, s.lz.head, s.lz.prev, s.bs, s.bs.w, s.bs.dynL, s.bs.dynD, s.bs.blTree
    ensures SameInput(old(s.lz.input), old(s.lz.nextIn), s.lz.input, s.lz.nextIn)
    ensures status == FinishDone || status == FinishStarted ==> Finished(s)
    ensures status == NeedMore || status == BlockDone ==> SlowAt(s)
    ensures status == BlockDone ==> s.lz.nextIn == [] && s.lz.v.lookahead == 0
    ensures RightStatus(s, flush, status) && LazyRun(s, turns, filtered)
    ensures s.Said() == old(s.Said()) + AllLazy(turns) + LastByte(s.lz.input, waits)
    ensures turns != [] ==> FirstLazy(turns[0], old(s.lz.v), old(s.lz.base), old(s.matchAvailable))
    ensures waits ==> s.lz.v.lookahead == 0 && s.lz.nextIn == [] && !s.matchAvailable
  {
    hide *;
    Sizes();
    ghost var said, v1, base1 := s.Said(), s.lz.v, s.lz.base;
    turns, waits := [], false;
    NoLazy(s, filtered, said);
    NoneAfterToks(said + AllLazy([]));
    SameInputNow(s.lz.input, s.lz.nextIn);
    LastByteNone(s.lz.input);
    while true
      invariant SlowAt(s) && SameInput(old(s.lz.input), old(s.lz.nextIn), s.lz.input, s.lz.nextIn)
      invariant LazyRun(s, turns, filtered) && s.Said() == said + AllLazy(turns)
      invariant if turns == [] then
                  s.matchAvailable == old(s.matchAvailable) && v1 == old(s.lz.v) && base1 == old(s.lz.base)
                else LazyMoved(turns[|turns| - 1], v1, s.matchAvailable) && base1 == turns[|turns| - 1].u.base
      invariant v1 == s.lz.v && base1 == s.lz.base
      invariant turns != [] ==> FirstLazy(turns[0], old(s.lz.v), old(s.lz.base), old(s.matchAvailable))
      decreases s.lz.v.lookahead + |s.lz.nextIn|
    {
      ghost var input, next := s.lz.input, s.lz.nextIn;
      FillSlow(s);
      SameInputOn(old(s.lz.input), old(s.lz.nextIn), input, next, s.lz.input, s.lz.nextIn);
      LastByteNone(s.lz.input);
      NoneAfterToks(said + AllLazy(turns));
      if s.lz.v.lookahead < MIN_LOOKAHEAD && flush == NoFlush {
        WaitingRight(s);
        return NeedMore, turns, false;
      }
      if s.lz.v.lookahead == 0 { break; }
      var stop;
      ghost var t;
      NowIs(s.lz);
      stop, t := SlowTurn(s, filtered);
      if turns == [] { IsFirstLazy(t, v1, base1); } else { IsLazyNext(turns[|turns| - 1], t, v1, base1); }
      LazyOn(s, turns, t, filtered);
      NoneAssoc(said, AllLazy(turns), LazyTokens(t));
      turns, v1, base1 := turns + [t], s.lz.v, s.lz.base;
      NoneAfterToks(said + AllLazy(turns));
      if stop {
        StoppedRight(s, flush);
        return NeedMore, turns, false;
      }
    }
    waits := s.matchAvailable;
    status := EndSlow(s, flush);
  }

  /** The first turn begins where the call has begun, after a refill. */
  ghost predicate FirstLazy(t: Lazy, v: Vars, base: nat, avail: bool)
  {
    t.avail == avail && SamePlace(v, base, t.u.v, t.u.base)
  }

  lemma IsFirstLazy(t: Lazy, v: Vars, base: nat)
    requires SamePlace(v, base, t.u.v, t.u.base)
    ensures FirstLazy(t, v, base, t.avail)
  {
    hide SamePlace;
  }

  lemma IsLazyNext(t: Lazy, t': Lazy, v: Vars, base: nat)
    requires LazyMoved(t, v, t'.avail) && base == t.u.base && SamePlace(v, base, t'.u.v, t'.u.base)
    ensures LazyNext(t, t')
  {
    hide SamePlace, LazyMoved;
  }

  lemma LastByteNone(input: seq<nat>)
    ensures LastByte(input, false) == []
  {
  }
}
