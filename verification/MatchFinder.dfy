/** match_tpl.h LONGEST_MATCH and compare256_c.c: searching the hash chains. What is found is a repeat because the bytes
    have been compared, whatever the hash tables hold. */
module MatchFinder {
  import opened Slices

  const STD_MIN_MATCH: nat := 3
  const STD_MAX_MATCH: nat := 258
  const WANT_MIN_MATCH: nat := 4
  const MIN_LOOKAHEAD: nat := 262

  lemma Sizes()
    ensures STD_MIN_MATCH == 3 && STD_MAX_MATCH == 258 && WANT_MIN_MATCH == 4 && MIN_LOOKAHEAD == 262
  {
  }

  /** The n bytes at a and at b are the same. */
  predicate Same(w: seq<nat>, a: nat, b: nat, n: nat)
  {
    a + n <= |w| && b + n <= |w| && w[a..a + n] == w[b..b + n]
  }

  /** The index of the first byte in which the n bytes at a and at b differ, n if they do not. For n = 8 this is
      zng_first_diff_byte64 of the exclusive or of two loads. */
  function FirstDiff(w: seq<nat>, a: nat, b: nat, n: nat): (k: nat)
    requires a + n <= |w| && b + n <= |w|
    ensures k <= n && Same(w, a, b, k) && (k < n ==> w[a + k] != w[b + k])
    decreases n
  {
    if n == 0 || w[a] != w[b] then 0
    else
      var k := FirstDiff(w, a + 1, b + 1, n - 1);
      SameFront(w, a, b, k);
      1 + k
  }

  lemma SameFront(w: seq<nat>, a: nat, b: nat, k: nat)
    requires a < |w| && b < |w| && w[a] == w[b] && Same(w, a + 1, b + 1, k)
    ensures Same(w, a, b, 1 + k)
  {
    assert w[a..a + 1 + k] == [w[a]] + w[a + 1..a + 1 + k];
    assert w[b..b + 1 + k] == [w[b]] + w[b + 1..b + 1 + k];
  }

  lemma SameJoin(w: seq<nat>, a: nat, b: nat, m: nat, n: nat)
    requires Same(w, a, b, m) && Same(w, a + m, b + m, n)
    ensures Same(w, a, b, m + n)
  {
    assert w[a..a + m + n] == w[a..a + m] + w[a + m..a + m + n];
    assert w[b..b + m + n] == w[b..b + m] + w[b + m..b + m + n];
  }

  lemma SameLess(w: seq<nat>, a: nat, b: nat, n: nat, k: nat)
    requires Same(w, a, b, n) && k <= n
    ensures Same(w, a, b, k)
  {
    SubSlice(w, a, a + n, 0, k);
    SubSlice(w, b, b + n, 0, k);
  }

  /** compare256_64: eight bytes at a time, at most 256. */
  method Compare256(window: array<nat>, a: nat, b: nat) returns (len: nat)
    requires a + 256 <= window.Length && b + 256 <= window.Length
    ensures len <= 256 && Same(window[..], a, b, len) && (len < 256 ==> window[a + len] != window[b + len])
  {
    hide Same, FirstDiff;
    len := 0;
    SameNone(window[..], a, b);
    while len < 256
      invariant len <= 256 && len % 8 == 0 && Same(window[..], a, b, len)
    {
      var k := FirstDiff(window[..], a + len, b + len, 8);
      SameJoin(window[..], a, b, len, k);
      if k < 8 {
        return len + k;
      }
      len := len + 8;
    }
  }

  lemma SameNone(w: seq<nat>, a: nat, b: nat)
    requires a <= |w| && b <= |w|
    ensures Same(w, a, b, 0)
  {
  }

  // ---- the chain ----

  /** --chain_length on an unsigned 32-bit counter. */
  function Decremented(chain: nat): (c: nat)
    requires chain < 0x1_0000_0000
    ensures c < 0x1_0000_0000
  {
    if chain == 0 then 0xffff_ffff else chain - 1
  }

  /** How many candidates a counter still allows. */
  function Allows(chain: nat): (n: nat) { if chain == 0 then 0x1_0000_0000 else chain }

  /** Every link is 0 or below bound. */
  predicate Below(links: seq<nat>, bound: nat) { forall i :: 0 <= i < |links| ==> links[i] == 0 || links[i] < bound }

  /** Candidate number i of the chain that begins at cur. */
  function Cand(prev: seq<nat>, cur: nat, i: nat): (c: nat)
    requires |prev| > 0
  {
    if i == 0 then cur else prev[Cand(prev, cur, i - 1) % |prev|]
  }

  /** The chain that begins at a candidate. */
  lemma {:induction false} CandFrom(prev: seq<nat>, cur: nat, i: nat, j: nat)
    requires |prev| > 0
    ensures Cand(prev, Cand(prev, cur, i), j) == Cand(prev, cur, i + j)
  {
    if j > 0 { CandFrom(prev, cur, i, j - 1); }
  }

  /** Of at most cap bytes, no more than best are the same at a and at b. */
  ghost predicate NoLonger(w: seq<nat>, a: nat, b: nat, cap: nat, best: nat)
  {
    forall n: nat :: n <= cap && Same(w, a, b, n) ==> n <= best
  }

  /** None of the first m strings of the chain, seen off bytes earlier, repeats more than best bytes. */
  ghost predicate NoneLonger(w: seq<nat>, prev: seq<nat>, cur: nat, off: nat, m: nat, strstart: nat, cap: nat,
                             best: nat)
  {
    |prev| > 0 &&
    forall i: nat :: i < m ==> off <= Cand(prev, cur, i) && NoLonger(w, Cand(prev, cur, i) - off, strstart, cap, best)
  }

  /** There is no string number m, because the chain has ended or only m strings of it may be tried. */
  ghost predicate WalkEnds(prev: seq<nat>, cur: nat, m: nat, limit: nat, chain: nat)
  {
    |prev| > 0 && (m == Allows(chain) || Cand(prev, cur, m) <= limit)
  }

  lemma NotLonger(w: seq<nat>, a: nat, b: nat, k: nat, cap: nat)
    requires a + k < |w| && b + k < |w| && w[a + k] != w[b + k]
    ensures NoLonger(w, a, b, cap, k)
  {
    hide Same;
    forall n: nat | n <= cap && Same(w, a, b, n)
      ensures n <= k
    {
      if n > k { SameAt(w, a, b, n, k); }
    }
  }

  lemma SameAt(w: seq<nat>, a: nat, b: nat, n: nat, k: nat)
    requires Same(w, a, b, n) && k < n
    ensures a + k < |w| && b + k < |w| && w[a + k] == w[b + k]
  {
    assert w[a..a + n][k] == w[b..b + n][k];
  }

  lemma LongerUpTo(w: seq<nat>, a: nat, b: nat, cap: nat, k: nat, best: nat)
    requires NoLonger(w, a, b, cap, k) && k <= best
    ensures NoLonger(w, a, b, cap, best)
  {
  }

  lemma CapLonger(w: seq<nat>, a: nat, b: nat, cap: nat)
    ensures NoLonger(w, a, b, cap, cap)
  {
  }

  lemma NoneYet(w: seq<nat>, prev: seq<nat>, cur: nat, off: nat, strstart: nat, cap: nat, best: nat)
    requires |prev| > 0
    ensures NoneLonger(w, prev, cur, off, 0, strstart, cap, best) && Cand(prev, cur, 0) == cur
  {
  }

  /** One string more. */
  lemma NoneMore(w: seq<nat>, prev: seq<nat>, cur: nat, off: nat, m: nat, strstart: nat, cap: nat, best: nat)
    requires NoneLonger(w, prev, cur, off, m, strstart, cap, best) && off <= Cand(prev, cur, m)
    requires NoLonger(w, Cand(prev, cur, m) - off, strstart, cap, best)
    ensures NoneLonger(w, prev, cur, off, m + 1, strstart, cap, best)
    ensures Cand(prev, cur, m + 1) == prev[Cand(prev, cur, m) % |prev|]
  {
    hide NoLonger;
  }

  /** The same for a longer repeat, or fewer bytes. */
  lemma NoneWeaker(w: seq<nat>, prev: seq<nat>, cur: nat, off: nat, m: nat, strstart: nat, cap: nat, best: nat,
                   cap': nat, best': nat)
    requires NoneLonger(w, prev, cur, off, m, strstart, cap, best) && ((best <= best' && cap' <= cap) || cap' <= best')
    ensures NoneLonger(w, prev, cur, off, m, strstart, cap', best')
  {
    forall i: nat | i < m
      ensures NoLonger(w, Cand(prev, cur, i) - off, strstart, cap', best')
    {
      assert NoLonger(w, Cand(prev, cur, i) - off, strstart, cap, best);
    }
  }

  /** A walk goes on where another one has stopped. */
  lemma NoneJoin(w: seq<nat>, prev: seq<nat>, cur: nat, off: nat, m: nat, n: nat, strstart: nat, cap: nat, best: nat)
    requires NoneLonger(w, prev, cur, off, m, strstart, cap, best)
    requires NoneLonger(w, prev, Cand(prev, cur, m), off, n, strstart, cap, best)
    ensures NoneLonger(w, prev, cur, off, m + n, strstart, cap, best)
    ensures Cand(prev, Cand(prev, cur, m), n) == Cand(prev, cur, m + n)
  {
    hide NoLonger, Cand;
    CandFrom(prev, cur, m, n);
    forall i: nat | i < m + n
      ensures off <= Cand(prev, cur, i) && NoLonger(w, Cand(prev, cur, i) - off, strstart, cap, best)
    {
      if i >= m { CandFrom(prev, cur, m, i - m); }
    }
  }

  /** start is one of the first m strings of the chain, seen off bytes earlier. */
  ghost predicate AmongFirst(prev: seq<nat>, cur: nat, off: nat, m: nat, start: nat)
  {
    |prev| > 0 && exists i: nat :: i < m && start + off == Cand(prev, cur, i)
  }

  lemma IsAmong(prev: seq<nat>, cur: nat, off: nat, m: nat, i: nat, start: nat)
    requires |prev| > 0 && i < m && start + off == Cand(prev, cur, i)
    ensures AmongFirst(prev, cur, off, m, start)
  {
  }

  lemma AmongMore(prev: seq<nat>, cur: nat, off: nat, m: nat, n: nat, start: nat)
    requires AmongFirst(prev, cur, off, m, start) && m <= n
    ensures AmongFirst(prev, cur, off, n, start)
  {
  }

  /** What a candidate has come to. */
  datatype Candidate = Accept(len: nat) | Full | Exhausted

  /** The walk with fewer than eight bytes to beat: one comparison of eight bytes decides about a candidate. */
  method ShortWalk(window: array<nat>, prev: array<nat>, strstart: nat, cur0: nat, off: nat, chain0: nat, limit: nat,
                   best: nat, ghost bound: nat)
    returns (c: Candidate, cur: nat, chain: nat, ghost n: nat)
    requires prev.Length > 0 && Below(prev[..], bound) && cur0 < bound && off <= limit <= cur0 &&
      chain0 < 0x1_0000_0000 && best < 8
    requires strstart + 8 <= window.Length && bound + 8 <= window.Length
    ensures limit <= cur < bound || c.Exhausted?
    ensures cur == cur0 || limit < cur || c.Exhausted?
    ensures chain < 0x1_0000_0000 && Allows(chain) <= Allows(chain0)
    ensures c.Accept? ==> off <= cur && best < c.len < 8 && Same(window[..], cur - off, strstart, c.len)
    ensures c.Full? ==> off <= cur && Same(window[..], cur - off, strstart, 8)
    ensures c.Accept? ==> NoLonger(window[..], cur - off, strstart, STD_MAX_MATCH, c.len)
    ensures NoneLonger(window[..], prev[..], cur0, off, n, strstart, STD_MAX_MATCH, best)
    ensures if c.Exhausted? then WalkEnds(prev[..], cur0, n, limit, chain0)
            else cur == Cand(prev[..], cur0, n) && Allows(chain) + n == Allows(chain0)
  {
    hide Same, FirstDiff, NoLonger, NoneLonger, Cand;
    cur, chain, n := cur0, chain0, 0;
    NoneYet(window[..], prev[..], cur0, off, strstart, STD_MAX_MATCH, best);
    while true
      invariant limit <= cur < bound && (cur == cur0 || limit < cur)
      invariant chain < 0x1_0000_0000 && Allows(chain) + n == Allows(chain0) && cur == Cand(prev[..], cur0, n)
      invariant NoneLonger(window[..], prev[..], cur0, off, n, strstart, STD_MAX_MATCH, best)
      decreases Allows(chain)
    {
      var k := FirstDiff(window[..], cur - off, strstart, 8);
      if k == 8 {
        return Full, cur, chain, n;
      }
      NotLonger(window[..], cur - off, strstart, k, STD_MAX_MATCH);
      if k >= best + 1 {
        return Accept(k), cur, chain, n;
      }
      LongerUpTo(window[..], cur - off, strstart, STD_MAX_MATCH, k, best);
      NoneMore(window[..], prev[..], cur0, off, n, strstart, STD_MAX_MATCH, best);
      n := n + 1;
      chain := Decremented(chain);
      if chain == 0 {
        return Exhausted, cur, 1, n;
      }
      cur := prev[cur % prev.Length];
      if cur <= limit {
        return Exhausted, cur, chain, n;
      }
    }
  }

  /** The walk with at least eight bytes to beat: the last eight bytes of a better match and the first eight must
      agree. */
  method LongWalk(window: array<nat>, prev: array<nat>, strstart: nat, cur0: nat, off: nat, chain0: nat, limit: nat,
                  best: nat, ghost bound: nat)
    returns (c: Candidate, cur: nat, chain: nat, ghost n: nat)
    requires prev.Length > 0 && Below(prev[..], bound) && cur0 < bound && off <= limit <= cur0 &&
      chain0 < 0x1_0000_0000 && 8 <= best <= 258
    requires strstart + 259 <= window.Length && bound + 259 <= window.Length
    ensures limit <= cur < bound || c.Exhausted?
    ensures cur == cur0 || limit < cur || c.Exhausted?
    ensures chain < 0x1_0000_0000 && Allows(chain) <= Allows(chain0) && !c.Accept?
    ensures c.Full? ==> off <= cur && Same(window[..], cur - off, strstart, 8)
    ensures NoneLonger(window[..], prev[..], cur0, off, n, strstart, STD_MAX_MATCH, best)
    ensures if c.Exhausted? then WalkEnds(prev[..], cur0, n, limit, chain0)
            else cur == Cand(prev[..], cur0, n) && Allows(chain) + n == Allows(chain0)
  {
    hide Same, FirstDiff, NoLonger, NoneLonger, Cand;
    cur, chain, n := cur0, chain0, 0;
    NoneYet(window[..], prev[..], cur0, off, strstart, STD_MAX_MATCH, best);
    while true
      invariant limit <= cur < bound && (cur == cur0 || limit < cur)
      invariant chain < 0x1_0000_0000 && Allows(chain) + n == Allows(chain0) && cur == Cand(prev[..], cur0, n)
      invariant NoneLonger(window[..], prev[..], cur0, off, n, strstart, STD_MAX_MATCH, best)
      decreases Allows(chain)
    {
      if FirstDiff(window[..], cur - off + best - 7, strstart + best - 7, 8) == 8 &&
        FirstDiff(window[..], cur - off, strstart, 8) == 8 {
        return Full, cur, chain, n;
      }
      NotBoth(window[..], cur - off, strstart, best);
      NoneMore(window[..], prev[..], cur0, off, n, strstart, STD_MAX_MATCH, best);
      n := n + 1;
      chain := Decremented(chain);
      if chain == 0 {
        return Exhausted, cur, 1, n;
      }
      cur := prev[cur % prev.Length];
      if cur <= limit {
        return Exhausted, cur, chain, n;
      }
    }
  }

  /** If the last eight bytes of a better match or the first eight differ, the match is not better. */
  lemma NotBoth(w: seq<nat>, a: nat, b: nat, best: nat)
    requires a + best + 1 <= |w| && b + best + 1 <= |w| && 8 <= best
    requires FirstDiff(w, a + best - 7, b + best - 7, 8) < 8 || FirstDiff(w, a, b, 8) < 8
    ensures NoLonger(w, a, b, STD_MAX_MATCH, best)
  {
    hide Same, FirstDiff, NoLonger;
    if FirstDiff(w, a, b, 8) < 8 {
      NotLonger(w, a, b, FirstDiff(w, a, b, 8), STD_MAX_MATCH);
      LongerUpTo(w, a, b, STD_MAX_MATCH, FirstDiff(w, a, b, 8), best);
    } else {
      var k := best - 7 + FirstDiff(w, a + best - 7, b + best - 7, 8);
      NotLonger(w, a, b, k, STD_MAX_MATCH);
      LongerUpTo(w, a, b, STD_MAX_MATCH, k, best);
    }
  }

  /** The window index before which no match may start. */
  function Limit(strstart: nat, maxDist: nat): (l: nat) { if strstart > maxDist then strstart - maxDist else 0 }

  /** A match of len bytes at start, for the string at strstart. */
  ghost predicate IsMatch(w: seq<nat>, start: nat, strstart: nat, len: nat, lookahead: nat, maxDist: nat, bound: nat)
  {
    Same(w, start, strstart, len) && len <= lookahead && len <= STD_MAX_MATCH && 0 < start < bound &&
      strstart <= start + maxDist
  }

  lemma MatchLess(w: seq<nat>, start: nat, strstart: nat, len: nat, lookahead: nat, maxDist: nat, bound: nat)
    requires Same(w, start, strstart, len) && len <= STD_MAX_MATCH && 0 < start < bound &&
      Limit(strstart, maxDist) <= start
    ensures IsMatch(w, start, strstart, if lookahead < len then lookahead else len, lookahead, maxDist, bound)
  {
    hide Same;
    SameLess(w, start, strstart, len, if lookahead < len then lookahead else len);
  }

  /** One candidate: the walk to it and, if its first eight bytes agree, the comparison. */
  method TryCandidate(window: array<nat>, prev: array<nat>, strstart: nat, cur0: nat, off: nat, chain0: nat, limit: nat,
                      best: nat, ghost bound: nat)
    returns (found: bool, len: nat, cur: nat, chain: nat, more: bool, ghost n: nat)
    requires prev.Length > 0 && Below(prev[..], bound) && cur0 < bound && off <= limit <= cur0 &&
      chain0 < 0x1_0000_0000 && best <= 258
    requires strstart + 259 <= window.Length && bound + 259 <= window.Length
    ensures chain < 0x1_0000_0000 && Allows(chain) <= Allows(chain0)
    ensures more ==> limit <= cur < bound && (cur == cur0 || limit < cur)
    ensures found ==> more && off <= cur && best < len <= 258 && Same(window[..], cur - off, strstart, len)
    ensures NoneLonger(window[..], prev[..], cur0, off, n, strstart, STD_MAX_MATCH, best)
    ensures !more ==> WalkEnds(prev[..], cur0, n, limit, chain0)
    ensures more ==> cur == Cand(prev[..], cur0, n) && Allows(chain) + n == Allows(chain0) && off <= cur
    ensures more ==> NoLonger(window[..], cur - off, strstart, STD_MAX_MATCH, if found then len else best)
  {
    hide *;
    Sizes();
    found, len, more := false, 0, true;
    var c;
    if best < 8 {
      c, cur, chain, n := ShortWalk(window, prev, strstart, cur0, off, chain0, limit, best, bound);
    } else {
      c, cur, chain, n := LongWalk(window, prev, strstart, cur0, off, chain0, limit, best, bound);
    }
    if c.Exhausted? {
      more := false;
    } else if c.Accept? {
      found, len := true, c.len;
    } else {
      len := CompareFrom(window, cur - off, strstart);
      if len <= best { LongerUpTo(window[..], cur - off, strstart, STD_MAX_MATCH, len, best); }
      found := len > best;
    }
  }

  /** COMPARE256 behind the first two of eight equal bytes. */
  method CompareFrom(window: array<nat>, a: nat, b: nat) returns (len: nat)
    requires a + 258 <= window.Length && b + 258 <= window.Length && Same(window[..], a, b, 8)
    ensures len <= 258 && Same(window[..], a, b, len) && NoLonger(window[..], a, b, STD_MAX_MATCH, len)
  {
    hide *;
    Sizes();
    len := Compare256(window, a + 2, b + 2);
    SameLess(window[..], a, b, 8, 2);
    SameJoin(window[..], a, b, 2, len);
    FullLength(window[..], a, b, len);
    len := len + 2;
  }

  lemma FullLength(w: seq<nat>, a: nat, b: nat, len: nat)
    requires a + 258 <= |w| && b + 258 <= |w| && len <= 256 && (len < 256 ==> w[a + 2 + len] != w[b + 2 + len])
    ensures NoLonger(w, a, b, STD_MAX_MATCH, len + 2)
  {
    if len < 256 { NotLonger(w, a, b, len + 2, STD_MAX_MATCH); } else { CapLonger(w, a, b, STD_MAX_MATCH); }
  }

  /** How many strings of a chain may be tried, with a match of best bytes in hand. */
  function Tries(best: nat, goodMatch: nat, maxChain: nat): (n: nat)
  {
    if best >= goodMatch then maxChain / 4 else maxChain
  }

  /** The match of best bytes at start is the longest one among the first m strings of the chain, and the search has
      stopped there because the chain ends, because no more strings of it may be tried, or because the match is good
      enough or takes up all of the lookahead. A result below 3 is no match. */
  ghost predicate Longest(w: seq<nat>, prev: seq<nat>, strstart: nat, lookahead: nat, cur0: nat, maxDist: nat,
                          maxChain: nat, niceMatch: nat, goodMatch: nat, bound: nat, best: nat, start: nat, m: nat)
  {
    |prev| > 0 && NoneLonger(w, prev, cur0, 0, m, strstart, AtMost(lookahead), best) &&
    (best >= STD_MIN_MATCH ==>
      IsMatch(w, start, strstart, best, lookahead, maxDist, bound) && AmongFirst(prev, cur0, 0, m, start)) &&
    (best >= lookahead || (best >= niceMatch && best >= STD_MIN_MATCH) || strstart <= Cand(prev, cur0, m) ||
      WalkEnds(prev, cur0, m, Limit(strstart, maxDist), Tries(STD_MIN_MATCH - 1, goodMatch, maxChain)))
  }

  /** longest_match, fast form. */
  method LongestMatch(window: array<nat>, prev: array<nat>, strstart: nat, lookahead: nat, cur0: nat, maxDist: nat,
                      maxChain: nat, niceMatch: nat, goodMatch: nat, matchStart0: nat, ghost bound: nat)
    returns (best: nat, matchStart: nat, ghost m: nat)
    requires prev.Length > 0 && Below(prev[..], bound) && 0 < cur0 < bound && Limit(strstart, maxDist) <= cur0 &&
      maxChain < 0x1_0000_0000
    requires strstart + 259 <= window.Length && bound + 259 <= window.Length
    ensures Longest(window[..], prev[..], strstart, lookahead, cur0, maxDist, maxChain, niceMatch, goodMatch, bound,
                    best, matchStart, m)
    ensures best >= STD_MIN_MATCH ==> IsMatch(window[..], matchStart, strstart, best, lookahead, maxDist, bound)
    ensures best >= STD_MIN_MATCH && bound <= strstart ==> matchStart < strstart
  {
    hide Same, Below, NoLonger, NoneLonger, Cand, IsMatch, AmongFirst;
    best, matchStart, m := STD_MIN_MATCH - 1, matchStart0, 0;
    var chain := maxChain;
    if best >= goodMatch {
      chain := chain / 4;
    }
    ghost var tries, w, p := chain, window[..], prev[..];
    var limit, cur := Limit(strstart, maxDist), cur0;
    NoneYet(w, p, cur0, 0, strstart, STD_MAX_MATCH, best);
    while cur < strstart
      invariant limit <= cur < bound && 0 < cur && STD_MIN_MATCH - 1 <= best <= 258 && chain < 0x1_0000_0000
      invariant best >= STD_MIN_MATCH ==> IsMatch(w, matchStart, strstart, best, lookahead, maxDist, bound)
      invariant best >= STD_MIN_MATCH ==> AmongFirst(p, cur0, 0, m, matchStart)
      invariant cur == Cand(p, cur0, m) && Allows(chain) + m == Allows(tries)
      invariant NoneLonger(w, p, cur0, 0, m, strstart, STD_MAX_MATCH, best)
      decreases Allows(chain)
    {
      var found, len, more;
      ghost var n, m0 := 0, m;
      found, len, cur, chain, more, n := TryCandidate(window, prev, strstart, cur, 0, chain, limit, best, bound);
      NoneJoin(w, p, cur0, 0, m, n, strstart, STD_MAX_MATCH, best);
      m := m + n;
      if best >= STD_MIN_MATCH { AmongMore(p, cur0, 0, m0, m, matchStart); }
      if !more { break; }
      if found {
        matchStart := cur;
        MatchLess(w, cur, strstart, len, lookahead, maxDist, bound);
        NoneWeaker(w, p, cur0, 0, m, strstart, STD_MAX_MATCH, best, STD_MAX_MATCH, len);
        best := len;
      }
      NoneMore(w, p, cur0, 0, m, strstart, STD_MAX_MATCH, best);
      if found { IsAmong(p, cur0, 0, m + 1, m, matchStart); }
      else if best >= STD_MIN_MATCH { AmongMore(p, cur0, 0, m, m + 1, matchStart); }
      m := m + 1;
      if found {
        if len >= lookahead {
          NoneWeaker(w, p, cur0, 0, m, strstart, STD_MAX_MATCH, len, AtMost(lookahead), lookahead);
          return lookahead, matchStart, m;
        }
        if len >= niceMatch { break; }
      }
      chain := Decremented(chain);
      if chain == 0 { break; }
      cur := NextLink(prev, cur, bound);
      if cur <= limit { break; }
    }
    NoneWeaker(w, p, cur0, 0, m, strstart, STD_MAX_MATCH, best, AtMost(lookahead), best);
    if best >= STD_MIN_MATCH && bound <= strstart {
      MatchBefore(w, matchStart, strstart, best, lookahead, maxDist, bound);
    }
  }

  lemma MatchBefore(w: seq<nat>, start: nat, strstart: nat, len: nat, lookahead: nat, maxDist: nat, bound: nat)
    requires IsMatch(w, start, strstart, len, lookahead, maxDist, bound)
    ensures 0 < start < bound
  {
    hide Same;
  }

  /** The number of bytes that a match may have. */
  function AtMost(lookahead: nat): (n: nat) { if lookahead < STD_MAX_MATCH then lookahead else STD_MAX_MATCH }

  /** prev[cur_match & wmask]. */
  method NextLink(prev: array<nat>, cur: nat, ghost bound: nat) returns (next: nat)
    requires prev.Length > 0 && Below(prev[..], bound)
    ensures (next == 0 || next < bound) && next == prev[cur % prev.Length]
  {
    next := prev[cur % prev.Length];
  }
}
