/** deflate_slow.c: what a turn of the loop searches, tallies and inserts. */
module LazyTurns {
  import opened Tokens
  import opened HashFunctions
  import opened MatchFinder
  import opened MatchFinderSlow
  import opened HashChains
  import opened SlidingWindow
  import opened DeflateState
  import opened LzSearch

  /** A turn at the string of u, while a byte before it waits or not: the search has come to best bytes at start along
      the walks, and len is what counts of it. */
  datatype Lazy = Lazy(u: Snap, avail: bool, len: nat, best: nat, start: nat, walks: seq<Walk>)

  // ---- the search ----

  /** Matches this long or shorter are discarded. */
  function Discard(filtered: bool): (n: nat) { if filtered then 5 else 0 }

  /** The same for longest_match, below good_match. */
  function Floor(filtered: bool, goodMatch: nat): (n: nat)
  {
    if goodMatch > 0 && goodMatch - 1 < Discard(filtered) then goodMatch - 1 else Discard(filtered)
  }

  /** The length that longest_match has to beat. */
  function ToBeat(v: Vars, filtered: bool, goodMatch: nat): (n: nat)
  {
    if v.prevLength < Floor(filtered, goodMatch) then Floor(filtered, goodMatch) else v.prevLength
  }

  ghost predicate Fits(u: Snap)
  {
    |u.chains.head| == HASH_SIZE && |u.chains.prev| > 0 && u.v.strstart + 4 <= |u.w|
  }

  /** The hash of the current string. */
  ghost function CurrentHash(u: Snap, roll: bool): (h: nat)
    requires Fits(u)
    ensures h < HASH_SIZE
  {
    StringHash(u.w, roll, u.v.strstart)
  }

  /** The head of its chain, if there is enough input for a match. */
  ghost function CurrentHead(u: Snap, roll: bool): (hd: nat)
    requires Fits(u)
  {
    if u.v.lookahead >= WANT_MIN_MATCH then u.chains.head[CurrentHash(u, roll)] else 0
  }

  /** The chains with the current string in them. */
  ghost function WithCurrent(u: Snap, roll: bool): (c: Chains)
    requires Fits(u)
    ensures |c.head| == HASH_SIZE && |c.prev| == |u.chains.prev|
  {
    if u.v.lookahead >= WANT_MIN_MATCH then Put(u.chains, CurrentHash(u, roll), u.v.strstart) else u.chains
  }

  /** Unless the match before is good enough already, the longest match that beats it is searched along the chain; what
      is too short is discarded. */
  ghost predicate LazySearch(s: Deflater, t: Lazy, filtered: bool)
  {
    Fits(t.u) &&
    var p, c := t.u.v.strstart, WithCurrent(t.u, s.lz.roll);
    var hd, maxDist := CurrentHead(t.u, s.lz.roll), s.lz.wSize - MIN_LOOKAHEAD;
    if WithinReach(p, hd, maxDist) && maxDist >= 0 && t.u.v.prevLength < s.maxLazy then
      var entry := Entry(ToBeat(t.u.v, filtered, s.goodMatch));
      LongestSlow(t.u.w, c.prev, c.head, s.lz.roll, p, t.u.v.lookahead, hd, maxDist,
                  Tries(entry, s.goodMatch, s.maxChain), s.niceMatch, entry, p, t.best, t.start, t.walks) &&
      t.len == if t.best <= Discard(filtered) then STD_MIN_MATCH - 1 else t.best
    else t.len == STD_MIN_MATCH - 1 && t.walks == [] && t.start == t.u.v.matchStart
  }

  // ---- the lazy rule ----

  /** The match of the string before is adopted. */
  predicate Adopts(t: Lazy) { t.u.v.prevLength >= STD_MIN_MATCH && t.len <= t.u.v.prevLength }

  /** No string that has been tried at the current position gives a match longer than the one that waits, and longer
      than what is discarded. */
  ghost predicate NoneBetter(s: Deflater, t: Lazy, filtered: bool)
    requires Fits(t.u)
  {
    AllTried(t.u.w, WithCurrent(t.u, s.lz.roll).prev, t.walks, t.u.v.strstart, AtMost(t.u.v.lookahead),
             if t.u.v.prevLength < Discard(filtered) then Discard(filtered) else t.u.v.prevLength)
  }

  /** The lazy rule: a match that waits is adopted exactly if none of the strings that have been tried is better. */
  lemma LazyRule(s: Deflater, t: Lazy, filtered: bool)
    requires LazySearch(s, t, filtered) && t.u.v.prevLength >= STD_MIN_MATCH
    ensures Adopts(t) <==> NoneBetter(s, t, filtered)
  {
    hide CurrentHash, CurrentHead, WithCurrent, StringHash, AllTried, InTurn, FirstWalk, SearchEnds,
      Turns, HasTurned, IsMatch, TriedAt, Tries, Limit;
    var p, c := t.u.v.strstart, WithCurrent(t.u, s.lz.roll);
    var w, look := t.u.v.prevLength, t.u.v.lookahead;
    var most := if w < Discard(filtered) then Discard(filtered) else w;
    if WithinReach(p, CurrentHead(t.u, s.lz.roll), s.lz.wSize - MIN_LOOKAHEAD) && w < s.maxLazy {
      if t.len <= w {
        TriedWeaker(t.u.w, c.prev, t.walks, p, AtMost(look), t.best, AtMost(look), most);
      } else if NoneBetter(s, t, filtered) {
        BetterTried(t.u.w, c.prev, t.walks, p, look, t.start, t.best, s.lz.wSize - MIN_LOOKAHEAD, p, most);
      }
    } else {
      NoWalks(t.u.w, c.prev, p);
    }
  }

  /** A longer match among the strings that have been tried. */
  lemma BetterTried(w: seq<nat>, prev: seq<nat>, walks: seq<Walk>, p: nat, look: nat, start: nat, best: nat,
                    maxDist: nat, bound: nat, most: nat)
    requires IsMatch(w, start, p, best, look, maxDist, bound) && TriedAt(prev, walks, start) && best > most
    ensures !AllTried(w, prev, walks, p, AtMost(look), most)
  {
    hide Same, Cand, NoneLonger, NoLonger, AmongFirst;
    var k: nat :| k < |walks| && AmongFirst(prev, walks[k].first, walks[k].off, walks[k].count, start);
    if NoneLonger(w, prev, walks[k].first, walks[k].off, walks[k].count, p, AtMost(look), most) {
      NoneAt(w, prev, walks[k], p, AtMost(look), most, start);
      SameBound(w, start, p, AtMost(look), most, best);
    }
  }

  lemma NoneAt(w: seq<nat>, prev: seq<nat>, x: Walk, p: nat, cap: nat, most: nat, start: nat)
    requires NoneLonger(w, prev, x.first, x.off, x.count, p, cap, most)
    requires AmongFirst(prev, x.first, x.off, x.count, start)
    ensures NoLonger(w, start, p, cap, most)
  {
    hide NoLonger, Cand;
    var i: nat :| i < x.count && start + x.off == Cand(prev, x.first, i);
    assert NoLonger(w, Cand(prev, x.first, i) - x.off, p, cap, most);
  }

  lemma SameBound(w: seq<nat>, start: nat, p: nat, cap: nat, most: nat, n: nat)
    requires NoLonger(w, start, p, cap, most) && Same(w, start, p, n) && n <= cap
    ensures n <= most
  {
    hide Same;
  }

  // ---- what a turn does ----

  /** The symbols of a turn: the match that waits, or the byte before if it waits and the match at the current string is
      better or there is none. */
  function LazyTokens(t: Lazy): (toks: seq<Token>)
  {
    var p := t.u.v.strstart;
    if Adopts(t) then
      [Match(t.u.v.prevLength - STD_MIN_MATCH, if t.u.v.matchStart < p then p - 1 - t.u.v.matchStart else 0)]
    else if t.avail then [Lit(if 1 <= p <= |t.u.w| then t.u.w[p - 1] else 0)]
    else []
  }

  /** Behind the match, with nothing waiting; or one string on, where the match that has been found waits. */
  ghost predicate LazyMoved(t: Lazy, v: Vars, avail: bool)
  {
    var u := t.u.v;
    if Adopts(t) then
      v == u.(strstart := u.strstart + u.prevLength - 1, lookahead := v.lookahead, prevLength := 0,
              matchStart := t.start, insH := v.insH, blockStart := v.blockStart) &&
      v.lookahead + u.prevLength - 1 == u.lookahead && !avail
    else
      v == u.(strstart := u.strstart + 1, lookahead := v.lookahead, prevLength := t.len, matchStart := t.start,
              insH := v.insH, blockStart := v.blockStart) &&
      v.lookahead + 1 == u.lookahead && avail
  }

  /** The number of strings behind the current one that are inserted when a match of len bytes is adopted. */
  function InsertCount(v: Vars, len: nat): (n: int)
  {
    var most := v.strstart + v.lookahead - STD_MIN_MATCH;
    if most > v.strstart then (if len - 2 > most - v.strstart then most - v.strstart else len - 2) else 0
  }

  /** How many of them are, if the match is at distance dist. */
  function TailCount(dist: nat): (n: nat) { if dist + 2 > 64 then dist + 2 else 64 }

  /** The chains after cnt strings behind p have been inserted, or only the last ones if a short pattern repeats. */
  function LazyPut(c: Chains, w: seq<nat>, roll: bool, p: nat, cnt: int, tail: nat): (c': Chains)
    requires |c.head| == HASH_SIZE && |c.prev| > 0 && p + 1 + cnt + 3 <= |w|
  {
    if cnt <= 0 then c
    else if tail >= cnt then PutAll(c, StringHashes(w, roll, p + 1, cnt), p + 1)
    else
      var skip := cnt - tail;
      PutAll(Chains(c.head, Skipped(c.prev, p + 1, skip)), StringHashes(w, roll, p + 1 + skip, tail), p + 1 + skip)
  }

  /** The hashes of n strings from p on, each one of its own bytes. */
  function StringHashes(w: seq<nat>, roll: bool, p: nat, n: nat): (hs: seq<nat>)
    requires p + n + 3 <= |w|
    ensures |hs| == n && InTable(hs, HASH_SIZE)
  {
    if n == 0 then [] else StringHashes(w, roll, p, n - 1) + [StringHash(w, roll, p + n - 1)]
  }

  /** The rolling hashes of a batch are those, if the hash before it is what its first string needs. */
  lemma {:induction false} RollStringHashes(w: seq<nat>, h: nat, p: nat, n: nat)
    requires p + n + 3 <= |w| && (n > 0 ==> RollsAt(w, h, p))
    ensures RollHashes(w, h, p, n) == StringHashes(w, true, p, n)
  {
    hide HashThree, HashRoll;
    if n > 0 {
      RollStringHashes(w, h, p, n - 1);
      RollsAfter(w, h, p, n - 1);
      RollHashIs(w, h, p, n);
    }
  }

  lemma {:induction false} KnuthStringHashes(w: seq<nat>, p: nat, n: nat)
    requires p + n + 3 <= |w|
    ensures KnuthHashes(w, p, n) == StringHashes(w, false, p, n)
  {
    hide HashKnuth, Load32;
    if n > 0 { KnuthStringHashes(w, p, n - 1); }
  }

  /** The strings of a tail as well. */
  lemma TailStringHashes(c: Chains, w: seq<nat>, roll: bool, p: nat, cnt: nat, tail: nat)
    requires |c.head| == HASH_SIZE && |c.prev| > 0 && p + 1 + cnt + 3 <= |w| && tail < cnt
    ensures TailPut(c, w, roll, p + 1, cnt, tail) == LazyPut(c, w, roll, p, cnt, tail)
  {
    hide RollHashes, KnuthHashes, StringHashes, PutAll, HashRoll, RollsAt, Skipped;
    var at := p + 1 + (cnt - tail);
    if roll {
      RollsFirst(w, at);
      RollStringHashes(w, HashRoll(w[at], w[at + 1]), at, tail);
    } else {
      KnuthStringHashes(w, at, tail);
    }
  }

  /** The chains after the turn. */
  ghost predicate LazyChains(s: Deflater, t: Lazy, c: Chains)
  {
    Fits(t.u) &&
    var u, p := t.u.v, t.u.v.strstart;
    if Adopts(t) then
      p + InsertCount(u, u.prevLength) + 4 <= |t.u.w| && u.matchStart < p &&
      c == LazyPut(WithCurrent(t.u, s.lz.roll), t.u.w, s.lz.roll, p, InsertCount(u, u.prevLength),
                   TailCount(p - 1 - u.matchStart))
    else c == WithCurrent(t.u, s.lz.roll)
  }

  // ---- all turns of a call ----

  /** The symbols of all turns. */
  function AllLazy(ts: seq<Lazy>): (toks: seq<Token>)
  {
    if ts == [] then [] else AllLazy(ts[..|ts| - 1]) + LazyTokens(ts[|ts| - 1])
  }

  /** Every turn searches as it should, and begins where the one before it has ended, after a refill. */
  ghost predicate LazyRun(s: Deflater, ts: seq<Lazy>, filtered: bool)
  {
    (forall k :: 0 <= k < |ts| ==> LazySearch(s, ts[k], filtered)) &&
    forall k :: 0 <= k < |ts| - 1 ==> LazyNext(ts[k], ts[k + 1])
  }

  /** t' begins where t has ended. */
  ghost predicate LazyNext(t: Lazy, t': Lazy)
  {
    exists v: Vars :: LazyMoved(t, v, t'.avail) && SamePlace(v, t.u.base, t'.u.v, t'.u.base)
  }

  lemma LazyOn(s: Deflater, ts: seq<Lazy>, t: Lazy, filtered: bool)
    requires LazyRun(s, ts, filtered) && LazySearch(s, t, filtered) && (ts != [] ==> LazyNext(ts[|ts| - 1], t))
    ensures LazyRun(s, ts + [t], filtered) && AllLazy(ts + [t]) == AllLazy(ts) + LazyTokens(t)
  {
    hide LazySearch, LazyNext, LazyTokens, AllLazy;
    AllLazyOn(ts, t);
  }

  lemma AllLazyOn(ts: seq<Lazy>, t: Lazy)
    ensures AllLazy(ts + [t]) == AllLazy(ts) + LazyTokens(t)
  {
    hide LazyTokens;
    assert (ts + [t])[..|ts|] == ts;
  }

  lemma NoLazy(s: Deflater, filtered: bool, said: seq<Token>)
    ensures LazyRun(s, [], filtered) && said + AllLazy([]) == said
  {
  }
}
