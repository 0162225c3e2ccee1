/** deflate_medium_tpl.h find_best_match, fizzle_matches and insert_match: two matches in a row, of which the second may
    grow backwards over the first. */
module Fizzle {
  import opened MatchFinder
  import opened HashChains
  import opened SlidingWindow
  import opened LzSearch
  import opened HashFunctions

  /** struct match. A length of 1 stands for a literal. */
  datatype Found2 = Found2(start: nat, len: nat, strstart: nat, orgstart: nat)

  /** A literal, or a match whose bytes are the same in the window. */
  ghost predicate Genuine(w: seq<nat>, m: Found2)
  {
    m.strstart + 258 < |w| &&
    (m.len == 1 || (WANT_MIN_MATCH <= m.len <= STD_MAX_MATCH && Same(w, m.start, m.strstart, m.len) &&
                    1 <= m.start < m.strstart && m.strstart - m.start <= 32768 && m.orgstart <= m.strstart + m.len))
  }

  /** What longest_match has come to: the match of len bytes at start, found among the first m strings of the chain. */
  datatype Search = Search(len: nat, start: nat, m: nat)

  /** The match for the string at str is the longest one along the chain that begins at hd, if it has four bytes at
      least and begins before the string; and otherwise it is a literal. */
  ghost predicate BestAt(w: seq<nat>, prev: seq<nat>, lookahead: nat, str: nat, hd: nat, maxDist: int, maxChain: nat,
                         niceMatch: nat, goodMatch: nat, bound: nat, f: Search, m: Found2)
  {
    if WithinReach(str, hd, maxDist) && maxDist >= 0 then
      Longest(w, prev, str, lookahead, hd, maxDist, maxChain, niceMatch, goodMatch, bound, f.len, f.start, f.m) &&
      m == if f.len >= WANT_MIN_MATCH && f.start < str then Found2(f.start, f.len, str, NewFrom(f.start, f.len, str))
           else Found2(f.start, 1, str, str)
    else m == Found2(0, 1, str, str)
  }

  /** The first place of a match that does not repeat what is in the table already. */
  function NewFrom(start: nat, len: nat, str: nat): (p: nat)
    requires start < str
  {
    if str - start < len then str + len - (str - start) else str
  }

  /** find_best_match, for the string at str. */
  method FindBest(lz: Lz, str: nat, hd: nat, maxChain: nat, niceMatch: nat, goodMatch: nat, ghost bound: nat)
    returns (m: Found2, ghost f: Search)
    requires lz.Shape() && str < bound && bound + 259 <= lz.windowSize && Below(lz.prev[..], bound) &&
      (hd == 0 || hd < bound)
    requires maxChain < 0x1_0000_0000
    ensures Genuine(lz.window[..], m) && m.strstart == str && m.orgstart < str + m.len
    ensures m.len == 1 || WANT_MIN_MATCH <= m.len <= lz.v.lookahead
    ensures BestAt(lz.window[..], lz.prev[..], lz.v.lookahead, str, hd, lz.wSize - MIN_LOOKAHEAD, maxChain, niceMatch,
                   goodMatch, bound, f, m)
  {
    hide Below, Multiple, Same, Longest;
    m, f := Found2(0, 1, str, str), Search(0, 0, 0);
    var maxDist := lz.wSize - MIN_LOOKAHEAD;
    if str - hd <= maxDist && str - hd > 0 && hd != 0 {
      var len, start;
      ghost var n;
      len, start, n := LongestMatch(lz.window, lz.prev, str, lz.v.lookahead, hd, maxDist, maxChain, niceMatch,
                                    goodMatch, lz.v.matchStart, bound);
      f := Search(len, start, n);
      m := m.(start := start);
      if len < WANT_MIN_MATCH || start >= str { return; }
      m := m.(len := len);
      var dist := str - start;
      if dist < len {
        m := m.(orgstart := str + len - dist);
      }
    }
  }

  /** The two matches after fizzle_matches: either as before, or the second one has taken over all but at most one byte
      of the first. Coverage and distance stay the same, and no match gets too long or reaches place 0. */
  ghost predicate Fizzled(w: seq<nat>, c: Found2, n: Found2, c': Found2, n': Found2)
  {
    (c' == c && n' == n) ||
    (c' == c.(len := c'.len) && c'.len <= 1 && Genuine(w, n') && n'.len >= WANT_MIN_MATCH &&
      n'.strstart == c.strstart + c'.len &&
     c'.len + n'.len == c.len + n.len && n'.strstart - n'.start == n.strstart - n.start)
  }

  function Least4(a: int, b: int, c: int, d: int): (m: int)
  {
    var x := if a < b then a else b;
    var y := if c < d then c else d;
    if x < y then x else y
  }

  /** The second match grows backwards by k bytes that are the same. */
  lemma GrowBack(w: seq<nat>, n: Found2, k: nat)
    requires Genuine(w, n) && n.len >= WANT_MIN_MATCH && n.len + k <= STD_MAX_MATCH && k < n.start &&
      Same(w, n.start - k, n.strstart - k, k)
    ensures Genuine(w, Found2(n.start - k, n.len + k, n.strstart - k, n.orgstart))
    ensures n.orgstart < n.strstart + n.len ==>
      Genuine(w, Found2(n.start - k, n.len + k, n.strstart - k, n.orgstart + 1))
  {
    hide Same;
    SameJoin(w, n.start - k, n.strstart - k, k, n.len);
  }

  lemma OneSame(w: seq<nat>, a: nat, b: nat)
    requires a < |w| && b < |w| && w[a] == w[b]
    ensures Same(w, a, b, 1)
  {
  }

  /** The last byte of the first match, if every constraint allows it. */
  method OneMore(window: array<nat>, n: Found2) returns (more: bool)
    requires Genuine(window[..], n) && WANT_MIN_MATCH <= n.len < STD_MAX_MATCH && 1 < n.start
    ensures more ==> Genuine(window[..], Found2(n.start - 1, n.len + 1, n.strstart - 1, n.orgstart))
    ensures n.start - 1 < window.Length && 0 <= n.strstart - 1 < window.Length
    ensures more <==> window[n.start - 1] == window[n.strstart - 1]
  {
    hide Same;
    more := window[n.start - 1] == window[n.strstart - 1];
    if more {
      OneSame(window[..], n.start - 1, n.strstart - 1);
      GrowBack(window[..], n, 1);
    }
  }

  lemma GenuineRange(w: seq<nat>, n: Found2)
    requires Genuine(w, n) && n.len >= WANT_MIN_MATCH
    ensures n.strstart + 258 < |w| && n.len <= STD_MAX_MATCH && 1 <= n.start < n.strstart &&
      n.orgstart <= n.strstart + n.len
  {
  }

  // ---- exactly when ----

  /** The second match may grow backwards by k bytes: by no more than the greatest distance, and so that it neither gets
      too long nor reaches place 0. */
  predicate Room(n: Found2, maxDist: nat, k: nat)
  {
    k <= n.strstart && k <= maxDist && n.len + k <= STD_MAX_MATCH && k < n.start
  }

  lemma LeastRoom(c: Found2, n: Found2, maxDist: nat, k: nat)
    requires k <= c.len && n.len <= STD_MAX_MATCH && 1 <= n.start
    ensures Least4(c.len, n.strstart - Limit(n.strstart, maxDist), STD_MAX_MATCH - n.len, n.start - 1) >= k <==>
            Room(n, maxDist, k)
    ensures Least4(c.len, n.strstart - Limit(n.strstart, maxDist), STD_MAX_MATCH - n.len, n.start - 1) <= c.len
  {
  }

  /** The second match can take over all of the first but one byte: there is room, and the bytes are the same. */
  predicate Grows(w: seq<nat>, c: Found2, n: Found2, maxDist: nat)
    requires 1 < c.len && c.len <= n.start + 1 && n.strstart == c.strstart + c.len
  {
    Room(n, maxDist, c.len - 1) && Same(w, n.start + 1 - c.len, n.strstart + 1 - c.len, c.len - 1)
  }

  /** And that byte as well. */
  predicate GrowsAll(w: seq<nat>, c: Found2, n: Found2, maxDist: nat)
    requires 1 < c.len && c.len <= n.start + 1 && n.strstart == c.strstart + c.len
  {
    Grows(w, c, n, maxDist) && Room(n, maxDist, c.len) && c.strstart < |w| && n.start - c.len < |w| &&
    w[n.start - c.len] == w[c.strstart]
  }

  function AfterFizzle(w: seq<nat>, c: Found2, n: Found2, maxDist: nat): (c': Found2)
    requires 1 < c.len && c.len <= n.start + 1 && n.strstart == c.strstart + c.len
  {
    c.(len := if GrowsAll(w, c, n, maxDist) then 0 else if Grows(w, c, n, maxDist) then 1 else c.len)
  }

  function NextFizzle(w: seq<nat>, c: Found2, n: Found2, maxDist: nat): (n': Found2)
    requires 1 < c.len && c.len <= n.start + 1 && n.strstart == c.strstart + c.len
  {
    var k := if GrowsAll(w, c, n, maxDist) then c.len else c.len - 1;
    if Grows(w, c, n, maxDist) then Found2(n.start - k, n.len + k, n.strstart - k, n.orgstart + 1) else n
  }

  /** fizzle_matches. */
  method FizzleMatches(window: array<nat>, c: Found2, n: Found2, maxDist: nat) returns (c': Found2, n': Found2)
    requires Genuine(window[..], n) && WANT_MIN_MATCH <= n.len && 1 < c.len && c.len - 1 <= n.start &&
      n.strstart == c.strstart + c.len
    requires n.orgstart < n.strstart + n.len
    ensures Fizzled(window[..], c, n, c', n')
    ensures (c', n') == (AfterFizzle(window[..], c, n, maxDist), NextFizzle(window[..], c, n, maxDist))
  {
    hide Same, FirstDiff, Genuine, Least4, Limit;
    c', n' := c, n;
    GenuineRange(window[..], n);
    var need := c.len - 1;
    DiffAgrees(window[..], n.start - need, n.strstart - need, need);
    if window[n.start + 1 - c.len] != window[n.strstart + 1 - c.len] {
      FirstDiffers(window[..], n.start - need, n.strstart - need, need);
      return;
    }
    var limit := Limit(n.strstart, maxDist);
    var steps := Least4(c.len, n.strstart - limit, STD_MAX_MATCH - n.len, n.start - 1);
    LeastRoom(c, n, maxDist, need);
    LeastRoom(c, n, maxDist, c.len);
    if steps < need { return; }
    if FirstDiff(window[..], n.start - need, n.strstart - need, need) != need { return; }
    GrowBack(window[..], n, need);
    n' := Found2(n.start - need, n.len + need, n.strstart - need, n.orgstart + 1);
    c' := c.(len := 1);
    if steps == c.len {
      var more := OneMore(window, n');
      if more {
        n' := Found2(n'.start - 1, n'.len + 1, n'.strstart - 1, n'.orgstart);
        c' := c.(len := 0);
      }
    }
  }

  lemma DiffAgrees(w: seq<nat>, a: nat, b: nat, n: nat)
    requires a + n <= |w| && b + n <= |w|
    ensures FirstDiff(w, a, b, n) == n <==> Same(w, a, b, n)
  {
    var k := FirstDiff(w, a, b, n);
    if k < n && Same(w, a, b, n) { SameAt(w, a, b, n, k); }
  }

  lemma FirstDiffers(w: seq<nat>, a: nat, b: nat, n: nat)
    requires a + n <= |w| && b + n <= |w| && n > 0 && w[a] != w[b]
    ensures !Same(w, a, b, n)
  {
    if Same(w, a, b, n) { SameAt(w, a, b, n, 0); }
  }

  /** The places that insert_match inserts: those behind the first one, from orgstart on, or just the last one. */
  function MatchedPlaces(m: Found2, maxInserts: nat): (ps: seq<nat>)
    requires m.len >= WANT_MIN_MATCH && maxInserts >= 2
  {
    var end := m.strstart + m.len;
    var from := if m.strstart + 1 < m.orgstart then m.orgstart else m.strstart + 1;
    if from >= end then [end - 1]
    else if end - from <= 2 * maxInserts then FromTo(from, end - from)
    else Spread(from, end - from, maxInserts)
  }

  lemma MatchedIs(m: Found2, maxInserts: nat)
    requires m.len >= 4 && maxInserts >= 2
    ensures var end := m.strstart + m.len;
      var from := if m.strstart + 1 < m.orgstart then m.orgstart else m.strstart + 1;
      MatchedPlaces(m, maxInserts) ==
      if from >= end then [end - 1]
      else if end - from <= 2 * maxInserts then FromTo(from, end - from)
      else Spread(from, end - from, maxInserts)
  {
    hide FromTo, Spread;
  }

  /** insert_match: the strings of a match behind the first one, but not those that repeat it or have been inserted as
      literals. */
  method InsertMatch(lz: Lz, m: Found2, maxInserts: nat, ghost b: nat)
    requires lz.Shape() && WANT_MIN_MATCH <= m.len <= STD_MAX_MATCH && m.strstart + MIN_LOOKAHEAD <= lz.windowSize &&
      2 <= maxInserts
    requires m.orgstart <= m.strstart + m.len && m.strstart + m.len <= b && Below(lz.head[..], b) &&
      Below(lz.prev[..], b)
    modifies lz.head, lz.prev
    ensures Below(lz.head[..], b) && Below(lz.prev[..], b)
    ensures Kept(old(lz.prev[..]), lz.prev[..], 0, m.strstart, m.strstart + m.len)
    ensures lz.head.Length == HASH_SIZE && lz.prev.Length > 0 && Fit(MatchedPlaces(m, maxInserts), lz.window.Length)
    ensures Chains(lz.head[..], lz.prev[..]) ==
            PutEach(old(Chains(lz.head[..], lz.prev[..])), lz.window[..], MatchedPlaces(m, maxInserts))
  {
    hide *;
    Sizes();
    lz.ShapeParts();
    var strstart, len := m.strstart + 1, m.len - 1;
    var maxLen := 2 * maxInserts;
    ghost var c, w := Chains(lz.head[..], lz.prev[..]), lz.window[..];
    MatchedIs(m, maxInserts);
    if strstart < m.orgstart {
      var end := strstart + len;
      strstart := m.orgstart;
      len := end - strstart;
      if len == 0 {
        OnePut(c, w, end - 1);
        var _ := InsertKnuth(lz.window, lz.head, lz.prev, end - 1, b, b);
        KeptLess(old(lz.prev[..]), lz.prev[..], 0, end - 1, end, m.strstart, end);
        return;
      }
    }
    if len <= maxLen {
      PutEachBatch(c, w, strstart, len);
      InsertKnuthBatch(lz.window, lz.head, lz.prev, strstart, len, b);
    } else {
      InsertStepped(lz.window, lz.head, lz.prev, strstart, len, maxInserts, b);
    }
    KeptLess(old(lz.prev[..]), lz.prev[..], 0, strstart, strstart + len, m.strstart, m.strstart + m.len);
  }
}
