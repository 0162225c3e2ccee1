/** What the strategies do at one string: insert it, search for a match, and move on. */
module LzSearch {
  import opened HashFunctions
  import opened MatchFinder
  import opened HashChains
  import opened SlidingWindow
  import opened TokenMeaning

  /** The state after the strings up to before place n of the window may have been inserted. */
  ghost predicate Inserted(lz: Lz, n: nat)
    reads lz, lz.window, lz.head, lz.prev
  {
    lz.Sound() && Below(lz.head[..], n) && Below(lz.prev[..], n)
  }

  lemma ValidInserted(lz: Lz, n: nat)
    requires lz.Valid() && Reach(lz.v, lz.ahead) <= n
    ensures Inserted(lz, n)
  {
    hide Below;
    BelowMore(lz.head[..], Reach(lz.v, lz.ahead), n);
    BelowMore(lz.prev[..], Reach(lz.v, lz.ahead), n);
  }

  function MaxDist(lz: Lz): (d: int) { lz.wSize - MIN_LOOKAHEAD }

  /** A match that may be tallied. */
  ghost predicate Found(lz: Lz, start: nat, len: nat)
    reads lz, lz.window
  {
    len <= STD_MAX_MATCH && len <= lz.v.lookahead && 0 < start < lz.v.strstart && lz.v.strstart - start <= 32768 &&
    Repeats(lz.input, lz.base + lz.v.strstart, lz.v.strstart - start, len)
  }

  lemma FoundNow(lz: Lz, start: nat, len: nat, bound: nat)
    requires lz.Shape() && HoldsInput(lz.window[..], lz.v, lz.input, lz.base) && MaxDist(lz) >= 0 &&
      bound <= lz.v.strstart
    requires IsMatch(lz.window[..], start, lz.v.strstart, len, lz.v.lookahead, MaxDist(lz), bound)
    ensures Found(lz, start, len)
  {
    hide Multiple;
    WindowRepeats(lz.window[..], lz.input, lz.base, lz.v.strstart + lz.v.lookahead, start, lz.v.strstart, len);
  }

  lemma Bounds(v: Vars, wSize: nat, windowSize: nat, base: nat)
    requires Placed(v, wSize, windowSize, base) && v.strstart <= v.fillEnd
    ensures v.strstart + MIN_LOOKAHEAD <= windowSize
  {
  }

  /** A chain that begins at hd is worth a search for the string at p. */
  predicate WithinReach(p: nat, hd: nat, maxDist: int) { p - hd <= maxDist && p - hd > 0 && hd != 0 }

  /** The search for the string that has just been inserted: the longest match along the chain of its hash, or none. */
  ghost predicate FastSearch(u: Snap, maxDist: int, maxChain: nat, niceMatch: nat, goodMatch: nat, len: nat, start: nat,
                             m: nat)
  {
    |u.chains.head| == HASH_SIZE && |u.chains.prev| > 0 && u.v.strstart + 4 <= |u.w| &&
    var p, h := u.v.strstart, HashKnuth(Load32(u.w, u.v.strstart));
    var hd, prev := u.chains.head[h], Put(u.chains, h, p).prev;
    if WithinReach(p, hd, maxDist) && maxDist >= 0 then
      Longest(u.w, prev, p, u.v.lookahead, hd, maxDist, maxChain, niceMatch, goodMatch, p, len, start, m)
    else len == 0
  }

  /** Insert the current string and look for a match: the part of deflate_fast before the tally. */
  method SearchFast(lz: Lz, maxChain: nat, niceMatch: nat, goodMatch: nat) returns (len: nat, start: nat, ghost m: nat)
    requires lz.Valid() && !lz.ahead && lz.v.strstart <= lz.v.fillEnd && maxChain < 0x1_0000_0000
    modifies lz.head, lz.prev
    ensures Inserted(lz, lz.v.strstart + 1) && Kept(old(lz.prev[..]), lz.prev[..], 0, lz.v.strstart, lz.v.strstart + 1)
    ensures len >= STD_MIN_MATCH ==> Found(lz, start, len)
    ensures lz.v.strstart + 4 <= lz.window.Length && lz.head.Length == HASH_SIZE && lz.prev.Length > 0
    ensures var h := HashKnuth(Load32(lz.window[..], lz.v.strstart));
      Chains(lz.head[..], lz.prev[..]) == Put(old(Chains(lz.head[..], lz.prev[..])), h, lz.v.strstart) &&
      (old(lz.head[..])[h] == 0 ==> len == 0)
    ensures FastSearch(old(lz.Now()), MaxDist(lz), maxChain, niceMatch, goodMatch, len, start, m)
  {
    hide Below, Kept, Put, FillForm, Multiple, Found, HoldsInput, Placed, IsMatch, HashKnuth, Load32, Longest;
    var p, maxDist := lz.v.strstart, lz.wSize - MIN_LOOKAHEAD;
    len, start, m := 0, 0, 0;
    Bounds(lz.v, lz.wSize, lz.windowSize, lz.base);
    var hd := InsertKnuth(lz.window, lz.head, lz.prev, p, p, p + 1);
    if p - hd <= maxDist && p - hd > 0 && hd != 0 {
      len, start, m := LongestMatch(lz.window, lz.prev, p, lz.v.lookahead, hd, maxDist, maxChain, niceMatch, goodMatch,
        lz.v.matchStart, p);
      if len >= STD_MIN_MATCH { FoundNow(lz, start, len, p); }
    }
    BelowMore(lz.prev[..], p, p + 1);
  }

  /** Move on by n bytes, all of whose strings may have been inserted. */
  method MoveOn(lz: Lz, n: nat)
    requires Inserted(lz, if lz.ahead then Reach(lz.v.(strstart := lz.v.strstart + n), true) else lz.v.strstart + n) &&
      n <= lz.v.lookahead
    modifies lz`v
    ensures lz.Valid() && lz.v == old(lz.v).(strstart := old(lz.v.strstart) + n, lookahead := old(lz.v.lookahead) - n)
  {
    hide Below, FillForm, Multiple;
    lz.v := lz.v.(strstart := lz.v.strstart + n, lookahead := lz.v.lookahead - n);
  }

  /** max_match_continues: 0, or the length of a match at the same distance. */
  method Continues(lz: Lz, dist: nat) returns (len: nat)
    requires lz.Valid() && lz.v.strstart <= lz.v.fillEnd && MIN_LOOKAHEAD <= lz.v.lookahead &&
      1 <= dist < lz.v.strstart && dist <= 32768
    ensures len == 0 || (8 <= len <= STD_MAX_MATCH && Found(lz, lz.v.strstart - dist, len))
    ensures lz.v.strstart + 258 <= lz.window.Length
    ensures len == Repeated(lz.window[..], lz.v.strstart - dist, lz.v.strstart)
  {
    hide *;
    Sizes();
    lz.ValidParts();
    lz.ShapeParts();
    var p, w := lz.v.strstart, lz.window;
    Bounds(lz.v, lz.wSize, lz.windowSize, lz.base);
    DiffIs(w[..], p - dist, p);
    if FirstDiff(w[..], p - dist, p, 8) != 8 {
      NotRepeated(w[..], p - dist, p);
      return 0;
    }
    len := CompareFrom(w, p - dist, p);
    AtLeastEight(w[..], p - dist, p, len);
    IsRepeated(w[..], p - dist, p, len);
    FoundAt(lz, p - dist, len);
  }

  /** How many bytes are the same at a and at b, at most 258, or 0 if fewer than eight. */
  function Repeated(w: seq<nat>, a: nat, b: nat): (k: nat)
    requires a + 258 <= |w| && b + 258 <= |w|
    ensures k <= 258 && Same(w, a, b, k) && (k == 0 || k >= 8)
  {
    var k := FirstDiff(w, a, b, STD_MAX_MATCH);
    if k < 8 then 0 else k
  }

  lemma NotRepeated(w: seq<nat>, a: nat, b: nat)
    requires a + 258 <= |w| && b + 258 <= |w| && FirstDiff(w, a, b, 8) < 8
    ensures Repeated(w, a, b) == 0
  {
    hide FirstDiff, NoLonger;
    DiffIs258(w, a, b);
    NotLonger(w, a, b, FirstDiff(w, a, b, 8), STD_MAX_MATCH) by { DiffIs8(w, a, b); }
    LongestIs(w, a, b, FirstDiff(w, a, b, STD_MAX_MATCH), FirstDiff(w, a, b, 8));
  }

  lemma DiffIs8(w: seq<nat>, a: nat, b: nat)
    requires a + 8 <= |w| && b + 8 <= |w|
    ensures var k := FirstDiff(w, a, b, 8); k <= 8 && (k < 8 ==> w[a + k] != w[b + k])
  {
  }

  lemma DiffIs258(w: seq<nat>, a: nat, b: nat)
    requires a + 258 <= |w| && b + 258 <= |w|
    ensures var k := FirstDiff(w, a, b, STD_MAX_MATCH);
      k <= 258 && Same(w, a, b, k) && (k < 258 ==> w[a + k] != w[b + k])
  {
    hide Same;
  }

  /** Bytes that are the same are no more than the bound on them. */
  lemma LongestIs(w: seq<nat>, a: nat, b: nat, k: nat, len: nat)
    requires Same(w, a, b, k) && k <= STD_MAX_MATCH && NoLonger(w, a, b, STD_MAX_MATCH, len)
    ensures k <= len
  {
    hide Same;
  }

  lemma IsRepeated(w: seq<nat>, a: nat, b: nat, len: nat)
    requires a + 258 <= |w| && b + 258 <= |w| && 8 <= len <= 258 && Same(w, a, b, len)
    requires NoLonger(w, a, b, STD_MAX_MATCH, len)
    ensures Repeated(w, a, b) == len
  {
    hide FirstDiff, NoLonger, Same;
    DiffIs258(w, a, b);
    var k := FirstDiff(w, a, b, STD_MAX_MATCH);
    LongestIs(w, a, b, k, len);
    if k < len { SameAt(w, a, b, len, k); }
  }

  lemma DiffIs(w: seq<nat>, a: nat, b: nat)
    requires a + 8 <= |w| && b + 8 <= |w|
    ensures FirstDiff(w, a, b, 8) == 8 ==> Same(w, a, b, 8)
  {
    hide Same;
  }

  lemma AtLeastEight(w: seq<nat>, a: nat, b: nat, len: nat)
    requires Same(w, a, b, 8) && NoLonger(w, a, b, STD_MAX_MATCH, len)
    ensures len >= 8
  {
    hide Same;
  }

  lemma FoundAt(lz: Lz, start: nat, len: nat)
    requires lz.Shape() && HoldsInput(lz.window[..], lz.v, lz.input, lz.base) &&
      Same(lz.window[..], start, lz.v.strstart, len)
    requires len <= STD_MAX_MATCH && len <= lz.v.lookahead && 0 < start < lz.v.strstart &&
      lz.v.strstart - start <= 32768
    ensures Found(lz, start, len)
  {
    hide Multiple;
    WindowRepeats(lz.window[..], lz.input, lz.base, lz.v.strstart + lz.v.lookahead, start, lz.v.strstart, len);
  }

  /** The places that deflate_fast inserts for a match, of count strings from str on with left bytes behind them. */
  function InsertPlaces(str: nat, count: nat, left: int, maxInserts: nat): (ps: seq<nat>)
    requires count >= 3 && maxInserts >= 2
  {
    if left >= WANT_MIN_MATCH then SpreadAt(str, count, maxInserts) else [str + count - 1]
  }

  /** The inserts of deflate_fast after a match of len bytes, before the string moves on. */
  method InsertFast(lz: Lz, str: nat, count: nat, len: nat, maxInserts: nat)
    requires Inserted(lz, lz.v.strstart + len) && lz.v.strstart <= lz.v.fillEnd &&
      WANT_MIN_MATCH <= len <= STD_MAX_MATCH
    requires lz.v.strstart <= str && str + count == lz.v.strstart + len && 3 <= count && 2 <= maxInserts &&
      len <= lz.v.lookahead
    modifies lz.head, lz.prev
    ensures Inserted(lz, lz.v.strstart + len) &&
      Kept(old(lz.prev[..]), lz.prev[..], 0, lz.v.strstart, lz.v.strstart + len)
    ensures IsFirst(lz.head[..], lz.window[..], lz.v.strstart + len - 1)
    ensures var ps := InsertPlaces(str, count, lz.v.lookahead - len, maxInserts);
      lz.head.Length == HASH_SIZE && lz.prev.Length > 0 && Fit(ps, lz.window.Length) &&
      Chains(lz.head[..], lz.prev[..]) == PutEach(old(Chains(lz.head[..], lz.prev[..])), lz.window[..], ps)
  {
    hide Below, Kept, Put, FillForm, Multiple, HoldsInput, Placed, IsFirst, PutEach, HashKnuth, Load32, SpreadAt;
    Bounds(lz.v, lz.wSize, lz.windowSize, lz.base);
    if lz.v.lookahead - len >= WANT_MIN_MATCH {
      InsertSpread(lz.window, lz.head, lz.prev, str, count, maxInserts, lz.v.strstart + len);
      KeptLess(old(lz.prev[..]), lz.prev[..], 0, str, str + count, lz.v.strstart, lz.v.strstart + len);
    } else {
      KeptAll(lz.prev[..], lz.v.strstart, lz.v.strstart + len);
      OnePut(Chains(lz.head[..], lz.prev[..]), lz.window[..], str + count - 1);
      InsertWithin(lz.window, lz.head, lz.prev, lz.v.strstart + 2 - STD_MIN_MATCH + len, lz.v.strstart,
                   lz.v.strstart + len, lz.v.strstart + len, lz.prev[..]);
    }
  }
}
