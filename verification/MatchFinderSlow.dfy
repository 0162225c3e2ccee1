/** match_tpl.h LONGEST_MATCH with LONGEST_MATCH_SLOW: the search also follows the chains of strings inside of the
    match, which reach further back. */
module MatchFinderSlow {
  import opened HashFunctions
  import opened MatchFinder

  // ---- the most distant chain ----

  /** How many bytes of a string are hashed. */
  function Width(roll: bool): (n: nat) { if roll then STD_MIN_MATCH else WANT_MIN_MATCH }

  /** The hash of the string at p: of four bytes, or the rolling one of three. */
  function StringHash(w: seq<nat>, roll: bool, p: nat): (h: nat)
    requires p + Width(roll) <= |w|
    ensures h < HASH_SIZE
  {
    if roll then HashThree(w, p) else HashKnuth(Load32(w, p))
  }

  /** Element i is the first of the least. */
  ghost predicate FirstLeast(s: seq<nat>, i: nat)
  {
    i < |s| && (forall j :: 0 <= j < |s| ==> s[i] <= s[j]) && (forall j :: 0 <= j < i ==> s[i] < s[j])
  }

  lemma LeastMore(s: seq<nat>, i: nat, x: nat)
    requires FirstLeast(s, i)
    ensures FirstLeast(s + [x], if x < s[i] then |s| else i)
  {
  }

  /** cur0, and the heads of the chains of the n strings behind strstart. */
  function Heads(w: seq<nat>, head: seq<nat>, roll: bool, strstart: nat, cur0: nat, n: nat): (hs: seq<nat>)
    requires |head| == HASH_SIZE && strstart + n + Width(roll) <= |w|
    ensures |hs| == n + 1
  {
    if n == 0 then [cur0]
    else Heads(w, head, roll, strstart, cur0, n - 1) + [head[StringHash(w, roll, strstart + n)]]
  }

  /** start, and the links of the n strings from start on. */
  function Links(prev: seq<nat>, start: nat, n: nat): (ls: seq<nat>)
    requires |prev| > 0
    ensures |ls| == n + 1
  {
    if n == 0 then [start] else Links(prev, start, n - 1) + [prev[(start + n - 1) % |prev|]]
  }

  /** How many strings behind the first byte of a match of len bytes are hashed with no more than one byte behind it. */
  function Inside(roll: bool, len: nat): (n: nat) { if len + 1 <= Width(roll) then 0 else len + 1 - Width(roll) }

  /** Entering with a match to beat: the most distant chain among those of the strings inside of it. */
  method FarthestHead(window: array<nat>, head: array<nat>, roll: bool, strstart: nat, best: nat, cur0: nat,
                      ghost bound: nat)
    returns (cur: nat, off: nat)
    requires head.Length == HASH_SIZE && cur0 < bound && 3 <= best <= 258 && strstart + 259 <= window.Length
    ensures cur < bound && off <= best && (off == 0 ==> cur == cur0)
    ensures ByHeads(window[..], head[..], roll, strstart, cur0, Inside(roll, best), cur, off)
  {
    hide HashRoll, HashKnuth, ByHeads, Load32;
    cur, off := cur0, 0;
    ghost var w, h := window[..], head[..];
    NoHeads(w, h, roll, strstart, cur0);
    if roll {
      var hash := HashRoll(0, window[strstart + 1]);
      hash := HashRoll(hash, window[strstart + 2]);
      ghost var before := 0;
      for i := 3 to best + 1
        invariant cur < bound && off <= best && (off == 0 ==> cur == cur0)
        invariant hash == HashRoll(HashRoll(before, window[strstart + i - 2]), window[strstart + i - 1])
        invariant ByHeads(w, h, roll, strstart, cur0, i - 3, cur, off)
      {
        RollThree(before, window[strstart + i - 2], window[strstart + i - 1], window[strstart + i]);
        before := HashRoll(before, window[strstart + i - 2]);
        hash := HashRoll(hash, window[strstart + i]);
        var pos := head[hash];
        NextHead(w, h, roll, strstart, cur0, i - 3, cur, off);
        if pos < cur {
          off, cur := i - 2, pos;
        }
      }
    } else {
      var i := 1;
      while i + (WANT_MIN_MATCH - 1) <= best
        invariant 1 <= i <= best && (i == 1 || i + 2 <= best) && cur < bound && off <= best
        invariant off == 0 ==> cur == cur0
        invariant ByHeads(w, h, roll, strstart, cur0, i - 1, cur, off)
      {
        var pos := head[HashKnuth(Load32(window[..], strstart + i))];
        NextHead(w, h, roll, strstart, cur0, i - 1, cur, off);
        if pos < cur {
          off, cur := i, pos;
        }
        i := i + 1;
      }
    }
  }

  /** cur is the first of the least of cur0 and the n heads, and off the place of its string. */
  ghost predicate ByHeads(w: seq<nat>, head: seq<nat>, roll: bool, strstart: nat, cur0: nat, n: nat, cur: nat, off: nat)
  {
    |head| == HASH_SIZE && strstart + n + Width(roll) <= |w| &&
    var hs := Heads(w, head, roll, strstart, cur0, n); FirstLeast(hs, off) && cur == hs[off]
  }

  lemma NoHeads(w: seq<nat>, head: seq<nat>, roll: bool, strstart: nat, cur0: nat)
    requires |head| == HASH_SIZE && strstart + Width(roll) <= |w|
    ensures ByHeads(w, head, roll, strstart, cur0, 0, cur0, 0)
  {
  }

  lemma NextHead(w: seq<nat>, head: seq<nat>, roll: bool, strstart: nat, cur0: nat, n: nat, cur: nat, off: nat)
    requires ByHeads(w, head, roll, strstart, cur0, n, cur, off) && strstart + n + 1 + Width(roll) <= |w|
    ensures |head| == HASH_SIZE
    ensures var pos := head[StringHash(w, roll, strstart + n + 1)];
      ByHeads(w, head, roll, strstart, cur0, n + 1, if pos < cur then pos else cur, if pos < cur then n + 1 else off)
  {
    hide HashRoll, HashKnuth, Load32, FirstLeast;
    var hs := Heads(w, head, roll, strstart, cur0, n);
    LeastMore(hs, off, head[StringHash(w, roll, strstart + n + 1)]);
    LeastIndex(hs, off);
  }

  lemma LeastIndex(s: seq<nat>, i: nat)
    requires FirstLeast(s, i)
    ensures i < |s|
  {
  }

  /** The link of a string inside of a match leads too far back for the match to begin there. */
  ghost predicate LinkOver(prev: seq<nat>, start: nat, n: nat, limitBase: nat)
  {
    exists i: nat :: i < n && LeadsPast(prev, start, i, limitBase)
  }

  predicate LeadsPast(prev: seq<nat>, start: nat, i: nat, limitBase: nat)
  {
    |prev| > 0 && prev[(start + i) % |prev|] <= limitBase + i
  }

  /** After a better match: the most distant chain of the strings inside of it, by their links. */
  method FarthestLink(prev: array<nat>, roll: bool, start: nat, len: nat, limitBase: nat, ghost bound: nat)
    returns (ok: bool, cur: nat, off: nat)
    requires prev.Length > 0 && Below(prev[..], bound) && limitBase <= start && 0 < start < bound &&
      WANT_MIN_MATCH <= len
    ensures ok ==> limitBase + off <= cur < bound && off < cur && off <= len
    ensures ok ==> ByLinks(prev[..], start, Inside(roll, len), cur, off)
    ensures !ok ==> LinkOver(prev[..], start, Inside(roll, len), limitBase)
  {
    hide ByLinks, Below;
    ok, cur, off := true, start, 0;
    var last := if roll then len - STD_MIN_MATCH else len - WANT_MIN_MATCH;
    NoLinks(prev[..], start);
    for i := 0 to last + 1
      invariant limitBase + off <= cur < bound && off < cur && off <= len && ByLinks(prev[..], start, i, cur, off)
    {
      var pos := prev[(start + i) % prev.Length];
      NextByLink(prev[..], start, i, cur, off);
      LinkBelow(prev[..], (start + i) % prev.Length, bound);
      if pos < cur {
        if pos <= limitBase + i {
          assert LeadsPast(prev[..], start, i, limitBase);
          return false, cur, off;
        }
        cur, off := pos, i;
      }
    }
  }

  lemma LinkBelow(links: seq<nat>, i: nat, bound: nat)
    requires Below(links, bound) && i < |links| && bound > 0
    ensures links[i] < bound
  {
  }

  /** cur is the first of the least of start and the n links, and off the place of its string. */
  ghost predicate ByLinks(prev: seq<nat>, start: nat, n: nat, cur: nat, off: nat)
  {
    |prev| > 0 &&
    var ls, j := Links(prev, start, n), if cur == start then 0 else off + 1;
    FirstLeast(ls, j) && cur == ls[j] && (cur == start ==> off == 0)
  }

  lemma NoLinks(prev: seq<nat>, start: nat)
    requires |prev| > 0
    ensures ByLinks(prev, start, 0, start, 0)
  {
  }

  lemma NextByLink(prev: seq<nat>, start: nat, n: nat, cur: nat, off: nat)
    requires ByLinks(prev, start, n, cur, off)
    ensures var pos := prev[(start + n) % |prev|];
      ByLinks(prev, start, n + 1, if pos < cur then pos else cur, if pos < cur then n else off)
  {
    hide FirstLeast;
    var ls, j := Links(prev, start, n), if cur == start then 0 else off + 1;
    var pos := prev[(start + n) % |prev|];
    LeastMore(ls, j, pos);
    LeastIndex(ls, j);
    assert ls[0] == start by { FirstLink(prev, start, n); }
    NotAbove(ls, j);
  }

  lemma NotAbove(s: seq<nat>, i: nat)
    requires FirstLeast(s, i)
    ensures i < |s| && s[i] <= s[0]
  {
  }

  lemma {:induction false} FirstLink(prev: seq<nat>, start: nat, n: nat)
    requires |prev| > 0
    ensures Links(prev, start, n)[0] == start
  {
    if n > 0 { FirstLink(prev, start, n - 1); }
  }

  /** Where the last string of a match of len bytes begins whose chain is tried. */
  function Tail(roll: bool, len: nat): (n: nat)
    requires WANT_MIN_MATCH <= len
  {
    if roll then len - (STD_MIN_MATCH - 1) else len - WANT_MIN_MATCH
  }

  /** The chain of the last string of the match, if it reaches back further. */
  method TailHead(window: array<nat>, head: array<nat>, roll: bool, strstart: nat, len: nat, cur0: nat, off0: nat,
                  limitBase: nat, ghost bound: nat)
    returns (ok: bool, cur: nat, off: nat)
    requires head.Length == HASH_SIZE && WANT_MIN_MATCH <= len <= 258 && strstart + 259 <= window.Length
    requires limitBase + off0 <= cur0 < bound && off0 < cur0 && off0 <= len
    ensures ok ==> limitBase + off <= cur < bound && off < cur && off <= len
    ensures var pos := head[StringHash(window[..], roll, strstart + Tail(roll, len))];
      if ok then cur == (if pos < cur0 then pos else cur0) && off == (if pos < cur0 then Tail(roll, len) else off0)
      else pos <= limitBase + Tail(roll, len)
  {
    hide HashRoll, HashKnuth, Load32;
    ok, cur, off := true, cur0, off0;
    var hash, tail;
    if roll {
      tail := len - (STD_MIN_MATCH - 1);
      hash := HashRoll(0, window[strstart + tail]);
      hash := HashRoll(hash, window[strstart + tail + 1]);
      hash := HashRoll(hash, window[strstart + tail + 2]);
    } else {
      tail := len - WANT_MIN_MATCH;
      hash := HashKnuth(Load32(window[..], strstart + tail));
    }
    var pos := head[hash];
    if pos < cur {
      off := tail;
      if pos <= limitBase + off {
        return false, cur, off;
      }
      cur := pos;
    }
  }

  /** A chain that begins inside of the match leads too far back. */
  ghost predicate InnerEnds(w: seq<nat>, prev: seq<nat>, head: seq<nat>, roll: bool, strstart: nat, limitBase: nat,
                            start: nat, len: nat)
  {
    |head| == HASH_SIZE && WANT_MIN_MATCH <= len && strstart + len + 1 <= |w| &&
    (LinkOver(prev, start, Inside(roll, len), limitBase) ||
      head[StringHash(w, roll, strstart + Tail(roll, len))] <= limitBase + Tail(roll, len))
  }

  /** The most distant chain that the strings inside of a match of len bytes at start lead to: by their links, and then
      by the head of the chain of the last one. */
  ghost predicate Turned(w: seq<nat>, prev: seq<nat>, head: seq<nat>, roll: bool, strstart: nat, start: nat, len: nat,
                         cur: nat, off: nat)
  {
    |head| == HASH_SIZE && WANT_MIN_MATCH <= len && strstart + len + 1 <= |w| &&
    exists cur0: nat, off0: nat :: ByLinks(prev, start, Inside(roll, len), cur0, off0) &&
      var pos := head[StringHash(w, roll, strstart + Tail(roll, len))];
      cur == (if pos < cur0 then pos else cur0) && off == (if pos < cur0 then Tail(roll, len) else off0)
  }

  /** After a better match: the most distant chain of all. */
  method FarthestChain(window: array<nat>, prev: array<nat>, head: array<nat>, roll: bool, strstart: nat, start: nat,
                       len: nat, limitBase: nat, ghost bound: nat)
    returns (ok: bool, cur: nat, off: nat)
    requires prev.Length > 0 && Below(prev[..], bound) && limitBase <= start && 0 < start < bound
    requires head.Length == HASH_SIZE && WANT_MIN_MATCH <= len <= 258 && strstart + 259 <= window.Length
    ensures ok ==> limitBase + off <= cur < bound && off < cur && off <= len
    ensures ok ==> Turned(window[..], prev[..], head[..], roll, strstart, start, len, cur, off)
    ensures !ok ==> InnerEnds(window[..], prev[..], head[..], roll, strstart, limitBase, start, len)
  {
    hide LinkOver, StringHash, Below, ByLinks;
    ok, cur, off := FarthestLink(prev, roll, start, len, limitBase, bound);
    if ok { ok, cur, off := TailHead(window, head, roll, strstart, len, cur, off, limitBase, bound); }
  }

  // ---- the walks ----

  /** A chain that has been walked: it begins at first, and count strings of it have been tried, seen off bytes
      earlier. If the search has turned to another chain then, it was because of a match of len bytes at start. */
  datatype Walk = Walk(first: nat, off: nat, count: nat, start: nat, len: nat)

  /** The chains follow each other as they should: the first one begins at first0, seen off0 bytes earlier, and each of
      the others is the most distant one inside of the match before it. */
  ghost predicate InTurn(w: seq<nat>, prev: seq<nat>, head: seq<nat>, roll: bool, strstart: nat, first0: nat, off0: nat,
                         walks: seq<Walk>)
  {
    (walks != [] ==> walks[0].first == first0 && walks[0].off == off0) &&
    forall k :: 0 <= k < |walks| - 1 ==>
      TurnsTo(w, prev, head, roll, strstart, walks[k].start, walks[k].len, walks[k + 1].first, walks[k + 1].off)
  }

  /** The search turns to the most distant chain inside of a match that does not reach the current string. */
  ghost predicate TurnsTo(w: seq<nat>, prev: seq<nat>, head: seq<nat>, roll: bool, strstart: nat, start: nat, len: nat,
                          cur: nat, off: nat)
  {
    start + len < strstart && Turned(w, prev, head, roll, strstart, start, len, cur, off)
  }

  lemma InTurnOn(w: seq<nat>, prev: seq<nat>, head: seq<nat>, roll: bool, strstart: nat, first0: nat, off0: nat,
                 walks: seq<Walk>, x: Walk, cur: nat, off: nat)
    requires InTurn(w, prev, head, roll, strstart, first0, off0, walks + [x])
    requires TurnsTo(w, prev, head, roll, strstart, x.start, x.len, cur, off)
    ensures forall y: Walk :: y.first == cur && y.off == off ==>
      InTurn(w, prev, head, roll, strstart, first0, off0, walks + [x] + [y])
  {
    hide TurnsTo;
    forall y: Walk | y.first == cur && y.off == off
      ensures InTurn(w, prev, head, roll, strstart, first0, off0, walks + [x] + [y])
    {
      var s := walks + [x] + [y];
      forall k | 0 <= k < |s| - 1
        ensures TurnsTo(w, prev, head, roll, strstart, s[k].start, s[k].len, s[k + 1].first, s[k + 1].off)
      {
        if k < |walks| {
          assert s[k] == (walks + [x])[k] && s[k + 1] == (walks + [x])[k + 1];
        }
      }
      assert s[0] == (walks + [x])[0];
    }
  }

  /** Only where the last chain begins matters. */
  lemma InTurnLast(w: seq<nat>, prev: seq<nat>, head: seq<nat>, roll: bool, strstart: nat, first0: nat, off0: nat,
                   walks: seq<Walk>, x: Walk, y: Walk)
    requires InTurn(w, prev, head, roll, strstart, first0, off0, walks + [x]) && (y.first, y.off) == (x.first, x.off)
    ensures InTurn(w, prev, head, roll, strstart, first0, off0, walks + [y])
  {
    hide TurnsTo;
    var s, t := walks + [x], walks + [y];
    forall k | 0 <= k < |t| - 1
      ensures TurnsTo(w, prev, head, roll, strstart, t[k].start, t[k].len, t[k + 1].first, t[k + 1].off)
    {
      assert s[k] == t[k];
      assert (s[k + 1].first, s[k + 1].off) == (t[k + 1].first, t[k + 1].off);
    }
  }

  /** start has been tried in one of the walks. */
  ghost predicate TriedAt(prev: seq<nat>, walks: seq<Walk>, start: nat)
  {
    exists k: nat :: k < |walks| && AmongFirst(prev, walks[k].first, walks[k].off, walks[k].count, start)
  }

  lemma TriedLast(prev: seq<nat>, walks: seq<Walk>, x: Walk, start: nat)
    requires AmongFirst(prev, x.first, x.off, x.count, start)
    ensures TriedAt(prev, walks + [x], start)
  {
    hide AmongFirst;
    assert (walks + [x])[|walks|] == x;
  }

  /** The last walk goes on, or another one follows. */
  lemma TriedOn(prev: seq<nat>, walks: seq<Walk>, x: Walk, y: Walk, start: nat)
    requires TriedAt(prev, walks + [x], start)
    ensures (y.first, y.off) == (x.first, x.off) && x.count <= y.count ==> TriedAt(prev, walks + [y], start)
    ensures TriedAt(prev, walks + [x] + [y], start)
  {
    hide AmongFirst;
    var s := walks + [x];
    var k: nat :| k < |s| && AmongFirst(prev, s[k].first, s[k].off, s[k].count, start);
    assert (s + [y])[k] == s[k];
    if (y.first, y.off) == (x.first, x.off) && x.count <= y.count {
      AmongMore(prev, s[k].first, s[k].off, s[k].count, if k < |walks| then s[k].count else y.count, start);
      assert (walks + [y])[k] == if k < |walks| then s[k] else y;
    }
  }

  /** No string that has been tried repeats more than best bytes. */
  ghost predicate AllTried(w: seq<nat>, prev: seq<nat>, walks: seq<Walk>, strstart: nat, cap: nat, best: nat)
  {
    forall k :: 0 <= k < |walks| ==>
      NoneLonger(w, prev, walks[k].first, walks[k].off, walks[k].count, strstart, cap, best)
  }

  lemma TriedWeaker(w: seq<nat>, prev: seq<nat>, walks: seq<Walk>, strstart: nat, cap: nat, best: nat, cap': nat,
                    best': nat)
    requires AllTried(w, prev, walks, strstart, cap, best) && ((best <= best' && cap' <= cap) || cap' <= best')
    ensures AllTried(w, prev, walks, strstart, cap', best')
  {
    hide NoneLonger;
    forall k | 0 <= k < |walks|
      ensures NoneLonger(w, prev, walks[k].first, walks[k].off, walks[k].count, strstart, cap', best')
    {
      NoneWeaker(w, prev, walks[k].first, walks[k].off, walks[k].count, strstart, cap, best, cap', best');
    }
  }

  lemma TriedAlso(w: seq<nat>, prev: seq<nat>, walks: seq<Walk>, x: Walk, strstart: nat, cap: nat, best: nat)
    requires AllTried(w, prev, walks, strstart, cap, best)
    requires NoneLonger(w, prev, x.first, x.off, x.count, strstart, cap, best)
    ensures AllTried(w, prev, walks + [x], strstart, cap, best)
  {
    hide NoneLonger;
  }

  /** The strings of all walks. */
  function Total(walks: seq<Walk>): (n: nat)
  {
    if walks == [] then 0 else Total(walks[..|walks| - 1]) + walks[|walks| - 1].count
  }

  lemma TotalOn(walks: seq<Walk>, x: Walk)
    ensures Total(walks + [x]) == Total(walks) + x.count
  {
    assert (walks + [x])[..|walks|] == walks;
  }

  /** Why a search with the match of len bytes at start goes no further than the last walk: it is at the end of its
      chain, as many strings have been tried as may be (those that turned the search to another chain are not counted),
      or a chain that begins inside of the match leads too far back. */
  ghost predicate SearchEnds(w: seq<nat>, prev: seq<nat>, head: seq<nat>, roll: bool, walks: seq<Walk>, strstart: nat,
                             limitBase: nat, tries: nat, start: nat, len: nat)
  {
    |prev| > 0 && walks != [] &&
    var x := walks[|walks| - 1];
    var next := Cand(prev, x.first, x.count);
    next <= limitBase + x.off || strstart <= next || Total(walks) + 1 == Allows(tries) + |walks| ||
    (start + len < strstart && InnerEnds(w, prev, head, roll, strstart, limitBase, start, len))
  }

  /** Walk a chain up to the first string that repeats more than best bytes. */
  method NextBetter(window: array<nat>, prev: array<nat>, strstart: nat, cur0: nat, off: nat, chain0: nat, limit: nat,
                    best: nat, ghost bound: nat)
    returns (found: bool, len: nat, cur: nat, chain: nat, ghost n: nat)
    requires prev.Length > 0 && Below(prev[..], bound) && cur0 < bound && off <= limit <= cur0 &&
      chain0 < 0x1_0000_0000 && best <= 258
    requires strstart + 259 <= window.Length && bound + 259 <= window.Length
    ensures chain < 0x1_0000_0000 && NoneLonger(window[..], prev[..], cur0, off, n, strstart, STD_MAX_MATCH, best)
    ensures found ==> limit <= cur < bound && (cur == cur0 || limit < cur) && best < len <= 258 && off <= cur
    ensures found ==> Same(window[..], cur - off, strstart, len) && cur == Cand(prev[..], cur0, n)
    ensures found ==> NoLonger(window[..], cur - off, strstart, STD_MAX_MATCH, len)
    ensures found ==> Allows(chain) + n == Allows(chain0)
    ensures !found ==> strstart <= Cand(prev[..], cur0, n) || WalkEnds(prev[..], cur0, n, limit, chain0)
  {
    hide *;
    Sizes();
    found, len, cur, chain, n := false, 0, cur0, chain0, 0;
    ghost var w, p := window[..], prev[..];
    NoneYet(w, p, cur0, off, strstart, STD_MAX_MATCH, best);
    while cur < strstart
      invariant limit <= cur < bound && (cur == cur0 || limit < cur) && chain < 0x1_0000_0000
      invariant cur == Cand(p, cur0, n) && Allows(chain) + n == Allows(chain0)
      invariant NoneLonger(w, p, cur0, off, n, strstart, STD_MAX_MATCH, best) && !found
      decreases Allows(chain)
    {
      ghost var k, chain1, cur1 := 0, chain, cur;
      var more;
      found, len, cur, chain, more, k := TryCandidate(window, prev, strstart, cur, off, chain, limit, best, bound);
      NoneJoin(w, p, cur0, off, n, k, strstart, STD_MAX_MATCH, best);
      if !more { EndsOn(p, cur0, n, k, limit, chain1, chain0); }
      n := n + k;
      if !more || found { return; }
      NoneMore(w, p, cur0, off, n, strstart, STD_MAX_MATCH, best);
      n := n + 1;
      OneLess(chain);
      chain := Decremented(chain);
      if chain == 0 {
        EndsNow(p, cur0, n, limit, chain0);
        return;
      }
      cur := NextLink(prev, cur, bound);
      if cur <= limit {
        EndsNow(p, cur0, n, limit, chain0);
        return;
      }
    }
  }

  /** The walk has ended, with n strings after the first m. */
  lemma EndsOn(prev: seq<nat>, first: nat, m: nat, n: nat, limit: nat, chain: nat, chain0: nat)
    requires |prev| > 0 && WalkEnds(prev, Cand(prev, first, m), n, limit, chain) && Allows(chain) + m == Allows(chain0)
    ensures WalkEnds(prev, first, m + n, limit, chain0)
  {
    hide Cand, Allows;
    CandFrom(prev, first, m, n);
  }

  lemma EndsNow(prev: seq<nat>, first: nat, n: nat, limit: nat, chain0: nat)
    requires |prev| > 0 && (n == Allows(chain0) || Cand(prev, first, n) <= limit)
    ensures WalkEnds(prev, first, n, limit, chain0)
  {
    hide Cand, Allows;
  }

  /** Where the search begins: with a match to beat, at the most distant chain inside of it. */
  ghost predicate FirstWalk(w: seq<nat>, head: seq<nat>, roll: bool, strstart: nat, cur0: nat, entry: nat, x: Walk)
  {
    if entry >= STD_MIN_MATCH then ByHeads(w, head, roll, strstart, cur0, Inside(roll, entry), x.first, x.off)
    else x.first == cur0 && x.off == 0
  }

  /** The search turns to another chain for a match that is long enough and ends before the current string. */
  predicate Turns(roll: bool, entry: nat, strstart: nat, start: nat, len: nat)
  {
    (roll || entry >= STD_MIN_MATCH) && len > STD_MIN_MATCH && start + len < strstart
  }

  /** The match of best bytes at start is the longest one among the strings of all chains that have been walked; these
      follow each other as they should; for the match the search has turned to another chain if it may; and it ends
      only as SearchEnds says, or if the match is good enough or takes up all of the lookahead. */
  ghost predicate LongestSlow(w: seq<nat>, prev: seq<nat>, head: seq<nat>, roll: bool, strstart: nat, lookahead: nat,
                              cur0: nat, maxDist: nat, tries: nat, niceMatch: nat, entry: nat, bound: nat, best: nat,
                              start: nat, walks: seq<Walk>)
  {
    AllTried(w, prev, walks, strstart, AtMost(lookahead), best) &&
    (best > entry ==> IsMatch(w, start, strstart, best, lookahead, maxDist, bound) && TriedAt(prev, walks, start)) &&
    (entry < lookahead ==>
      best >= entry && walks != [] && FirstWalk(w, head, roll, strstart, cur0, entry, walks[0]) &&
      InTurn(w, prev, head, roll, strstart, walks[0].first, walks[0].off, walks)) &&
    (best >= lookahead || (best > entry && best >= niceMatch) ||
      (SearchEnds(w, prev, head, roll, walks, strstart, Limit(strstart, maxDist), tries, start, best) &&
        (best > entry && Turns(roll, entry, strstart, start, best) ==>
          HasTurned(w, prev, head, roll, strstart, Limit(strstart, maxDist), walks, start, best))))
  }

  /** The last turn was made for the match of len bytes at start, or none could be. */
  ghost predicate HasTurned(w: seq<nat>, prev: seq<nat>, head: seq<nat>, roll: bool, strstart: nat, limitBase: nat,
                            walks: seq<Walk>, start: nat, len: nat)
  {
    InnerEnds(w, prev, head, roll, strstart, limitBase, start, len) ||
    (|walks| >= 2 && walks[|walks| - 2].start == start && walks[|walks| - 2].len == len)
  }

  /** longest_match_slow. Matches that are not longer than prevLength are discarded: a result above the entry length is
      the length of the match at matchStart. */
  method LongestMatchSlow(window: array<nat>, prev: array<nat>, head: array<nat>, roll: bool, strstart: nat,
                          lookahead: nat, cur0: nat, maxDist: nat, maxChain: nat, niceMatch: nat, goodMatch: nat,
                          prevLength: nat, matchStart0: nat, ghost bound: nat)
    returns (best: nat, matchStart: nat, ghost walks: seq<Walk>)
    requires prev.Length > 0 && Below(prev[..], bound) && 0 < cur0 < bound && Limit(strstart, maxDist) <= cur0 &&
      maxChain < 0x1_0000_0000
    requires head.Length == HASH_SIZE && prevLength <= 258
    requires strstart + 259 <= window.Length && bound + 259 <= window.Length
    ensures best <= STD_MAX_MATCH
    ensures LongestSlow(window[..], prev[..], head[..], roll, strstart, lookahead, cur0, maxDist,
                        Tries(Entry(prevLength), goodMatch, maxChain), niceMatch, Entry(prevLength), bound, best,
                        matchStart, walks)
    ensures best > Entry(prevLength) ==>
      IsMatch(window[..], matchStart, strstart, best, lookahead, maxDist, bound) &&
      (bound <= strstart ==> matchStart < strstart)
  {
    hide *;
    Sizes();
    EntryIs(prevLength, goodMatch, maxChain);
    ghost var w, p, h, entry := window[..], prev[..], head[..], Entry(prevLength);
    best, matchStart, walks := if prevLength != 0 then prevLength else STD_MIN_MATCH - 1, matchStart0, [];
    if best >= lookahead {
      NothingToBeat(w, p, h, roll, strstart, lookahead, cur0, maxDist, Tries(entry, goodMatch, maxChain), niceMatch,
                    entry, bound, matchStart);
      return lookahead, matchStart, [];
    }
    var offsetSearch := roll || best >= STD_MIN_MATCH;
    var chain: nat := if best >= goodMatch then maxChain / 4 else maxChain;
    var limitBase := Limit(strstart, maxDist);
    var limit: nat, cur: nat, off: nat := limitBase, cur0, 0;
    if best >= STD_MIN_MATCH {
      cur, off := FarthestHead(window, head, roll, strstart, best, cur, bound);
      limit := limitBase + off;
    }
    ghost var x := Walk(cur, off, 0, 0, 0);
    FirstWalkIs(w, h, roll, strstart, cur0, entry, x);
    if best >= STD_MIN_MATCH && cur <= limit {
      SearchFrom(w, p, h, roll, cur, off, chain, strstart, best);
      SearchStop(w, p, h, roll, walks, x, cur, chain, chain, strstart, best, limitBase, lookahead, matchStart);
      AtOnce(w, p, h, roll, strstart, lookahead, cur0, maxDist, chain, niceMatch, entry, bound, matchStart, x);
      return best, matchStart, [x];
    }
    best, matchStart, walks := SearchChains(window, prev, head, roll, strstart, lookahead, cur0, cur, off, maxDist,
                                            chain, niceMatch, best, matchStart, offsetSearch, bound);
    if best > entry && bound <= strstart { MatchBefore(w, matchStart, strstart, best, lookahead, maxDist, bound); }
  }

  /** The loop over the chains, with a match of entry bytes to beat. */
  method SearchChains(window: array<nat>, prev: array<nat>, head: array<nat>, roll: bool, strstart: nat,
                      lookahead: nat, ghost hd: nat, cur0: nat, off0: nat, maxDist: nat, tries: nat, niceMatch: nat,
                      entry: nat, matchStart0: nat, offsetSearch: bool, ghost bound: nat)
    returns (best: nat, matchStart: nat, ghost walks: seq<Walk>)
    requires prev.Length > 0 && Below(prev[..], bound) && Limit(strstart, maxDist) + off0 <= cur0 < bound &&
      off0 < cur0 && tries < 0x1_0000_0000
    requires head.Length == HASH_SIZE && entry <= 258 && entry < lookahead
    requires strstart + 259 <= window.Length && bound + 259 <= window.Length
    requires offsetSearch <==> roll || entry >= STD_MIN_MATCH
    requires FirstWalk(window[..], head[..], roll, strstart, hd, entry, Walk(cur0, off0, 0, 0, 0))
    ensures best <= STD_MAX_MATCH
    ensures LongestSlow(window[..], prev[..], head[..], roll, strstart, lookahead, hd, maxDist, tries, niceMatch, entry,
                        bound, best, matchStart, walks)
    ensures best > entry ==> IsMatch(window[..], matchStart, strstart, best, lookahead, maxDist, bound)
  {
    hide *;
    Sizes();
    ghost var w, p, h := window[..], prev[..], head[..];
    best, matchStart, walks := entry, matchStart0, [];
    var limitBase := Limit(strstart, maxDist);
    var limit: nat, cur: nat, off: nat, chain: nat := limitBase + off0, cur0, off0, tries;
    ghost var x, stuck := Walk(cur, off, 0, 0, 0), false;
    SearchFrom(w, p, h, roll, cur, off, tries, strstart, best);
    while true
      invariant limit == limitBase + off && limit <= cur < bound && off < cur && entry <= best <= 258 &&
        chain < 0x1_0000_0000 && best < lookahead
      invariant best > entry ==> IsMatch(w, matchStart, strstart, best, lookahead, maxDist, bound)
      invariant best > entry ==> TriedAt(p, walks + [x], matchStart)
      invariant Searching(w, p, walks, x, cur, chain, tries, strstart, best) && x.off == off
      invariant InTurn(w, p, h, roll, strstart, cur0, off0, walks + [x])
      invariant best > entry && Turns(roll, entry, strstart, matchStart, best) ==> TurnedFor(walks, matchStart, best)
      decreases 258 - best
    {
      var found, len;
      ghost var n, chain0, from, x0 := 0, chain, cur, x;
      found, len, cur, chain, n := NextBetter(window, prev, strstart, cur, off, chain, limit, best, bound);
      if !found {
        SearchOver(w, p, h, roll, walks, x, from, chain0, tries, strstart, best, n, limitBase, lookahead, matchStart);
        x := x.(count := x.count + n);
        if best > entry { TriedOn(p, walks, x0, x, matchStart); }
        InTurnLast(w, p, h, roll, strstart, cur0, off0, walks, x0, x);
        break;
      }
      SearchFound(w, p, walks, x, from, chain0, tries, strstart, best, n, cur, chain, len);
      x := x.(count := x.count + n);
      matchStart := cur - off;
      MatchLess(w, matchStart, strstart, len, lookahead, maxDist, bound);
      ghost var x1, y := x, Walk(x.first, x.off, x.count + 1, matchStart, len);
      SearchTried(w, p, walks, x, y, cur, chain, tries, strstart, len, lookahead);
      IsAmong(p, y.first, y.off, y.count, x.count, matchStart) by {
        SearchAt(w, p, walks, x, cur, chain, tries, strstart, len);
      }
      TriedLast(p, walks, y, matchStart);
      InTurnLast(w, p, h, roll, strstart, cur0, off0, walks, x0, y);
      x := y;
      if len >= lookahead {
        FullMatch(w, p, h, roll, strstart, lookahead, hd, maxDist, tries, niceMatch, entry, bound, matchStart,
                  walks + [x], cur0, off0);
        return lookahead, matchStart, walks + [x];
      }
      best := len;
      if len >= niceMatch { break; }
      if offsetSearch && len > STD_MIN_MATCH && matchStart + len < strstart {
        var ok;
        ghost var cur1 := cur;
        ok, cur, off := FarthestChain(window, prev, head, roll, strstart, matchStart, len, limitBase, bound);
        if !ok {
          LastInner(w, p, h, roll, walks + [x], strstart, limitBase, tries, matchStart, best);
          stuck := true;
          break;
        }
        SearchTurn(w, p, walks, x1, y, cur1, chain, tries, strstart, best, cur, off);
        TurnsNow(w, p, h, roll, strstart, matchStart, len, cur, off);
        InTurnOn(w, p, h, roll, strstart, cur0, off0, walks, x, cur, off);
        TriedOn(p, walks, x, Walk(cur, off, 0, 0, 0), matchStart);
        limit, walks, x := limitBase + off, walks + [x], Walk(cur, off, 0, 0, 0);
        NowTurned(walks, matchStart, best);
      } else {
        NoTurn(roll, entry, strstart, matchStart, best);
        SearchMore(w, p, h, roll, walks, x1, y, cur, chain, tries, strstart, best, limitBase, lookahead, matchStart);
        chain := Decremented(chain);
        if chain == 0 { break; }
        cur := NextLink(prev, cur, bound);
        if cur <= limit {
          SearchStop(w, p, h, roll, walks, x, cur, chain, tries, strstart, best, limitBase, lookahead, matchStart);
          break;
        }
      }
    }
    Concluded(w, p, h, roll, strstart, lookahead, hd, maxDist, tries, niceMatch, entry, bound, best, matchStart, walks,
              x, cur0, off0, stuck);
    walks := walks + [x];
  }

  // ---- a search that is over ----

  /** The last turn was made for the match of len bytes at start. */
  ghost predicate TurnedFor(walks: seq<Walk>, start: nat, len: nat)
  {
    |walks| >= 1 && walks[|walks| - 1].start == start && walks[|walks| - 1].len == len
  }

  lemma NowTurned(walks: seq<Walk>, start: nat, len: nat)
    requires walks != [] && walks[|walks| - 1].start == start && walks[|walks| - 1].len == len
    ensures TurnedFor(walks, start, len)
  {
  }

  lemma NoTurn(roll: bool, entry: nat, strstart: nat, start: nat, len: nat)
    requires !((roll || entry >= 3) && len > 3 && start + len < strstart)
    ensures !Turns(roll, entry, strstart, start, len)
  {
  }

  lemma TurnsNow(w: seq<nat>, prev: seq<nat>, head: seq<nat>, roll: bool, strstart: nat, start: nat, len: nat, cur: nat,
                 off: nat)
    requires start + len < strstart && Turned(w, prev, head, roll, strstart, start, len, cur, off)
    ensures TurnsTo(w, prev, head, roll, strstart, start, len, cur, off)
  {
    hide Turned;
  }

  lemma FirstWalkIs(w: seq<nat>, head: seq<nat>, roll: bool, strstart: nat, cur0: nat, entry: nat, x: Walk)
    requires entry >= 3 ==> ByHeads(w, head, roll, strstart, cur0, Inside(roll, entry), x.first, x.off)
    requires entry < 3 ==> x.first == cur0 && x.off == 0
    ensures FirstWalk(w, head, roll, strstart, cur0, entry, x)
  {
    hide ByHeads;
  }

  lemma FirstOf(w: seq<nat>, head: seq<nat>, roll: bool, strstart: nat, cur0: nat, entry: nat, x: Walk, y: Walk)
    requires FirstWalk(w, head, roll, strstart, cur0, entry, x) && (y.first, y.off) == (x.first, x.off)
    ensures FirstWalk(w, head, roll, strstart, cur0, entry, y)
  {
    hide ByHeads;
  }

  lemma NothingToBeat(w: seq<nat>, prev: seq<nat>, head: seq<nat>, roll: bool, strstart: nat, lookahead: nat, cur0: nat,
                      maxDist: nat, tries: nat, niceMatch: nat, entry: nat, bound: nat, start: nat)
    requires entry >= lookahead
    ensures LongestSlow(w, prev, head, roll, strstart, lookahead, cur0, maxDist, tries, niceMatch, entry, bound,
                        lookahead, start, [])
  {
    hide AtMost;
    NoWalks(w, prev, strstart);
  }

  /** The first chain is at its end before a string of it has been tried. */
  lemma AtOnce(w: seq<nat>, prev: seq<nat>, head: seq<nat>, roll: bool, strstart: nat, lookahead: nat, cur0: nat,
               maxDist: nat, tries: nat, niceMatch: nat, entry: nat, bound: nat, start: nat, x: Walk)
    requires entry < lookahead && FirstWalk(w, head, roll, strstart, cur0, entry, x)
    requires AllTried(w, prev, [] + [x], strstart, AtMost(lookahead), entry)
    requires SearchEnds(w, prev, head, roll, [] + [x], strstart, Limit(strstart, maxDist), tries, start, entry)
    ensures LongestSlow(w, prev, head, roll, strstart, lookahead, cur0, maxDist, tries, niceMatch, entry, bound, entry,
                        start, [x])
  {
    hide AtMost, AllTried, SearchEnds, FirstWalk, Limit;
    assert [] + [x] == [x];
  }

  /** The match takes up all of the lookahead. */
  lemma FullMatch(w: seq<nat>, prev: seq<nat>, head: seq<nat>, roll: bool, strstart: nat, lookahead: nat, hd: nat,
                  maxDist: nat, tries: nat, niceMatch: nat, entry: nat, bound: nat, start: nat, walks: seq<Walk>,
                  first0: nat, off0: nat)
    requires entry < lookahead && walks != [] && TriedAt(prev, walks, start)
    requires FirstWalk(w, head, roll, strstart, hd, entry, Walk(first0, off0, 0, 0, 0))
    requires InTurn(w, prev, head, roll, strstart, first0, off0, walks)
    requires AllTried(w, prev, walks, strstart, AtMost(lookahead), lookahead)
    requires IsMatch(w, start, strstart, lookahead, lookahead, maxDist, bound)
    ensures LongestSlow(w, prev, head, roll, strstart, lookahead, hd, maxDist, tries, niceMatch, entry, bound,
                        lookahead, start, walks)
  {
    hide AtMost, AllTried, IsMatch, FirstWalk, TriedAt, TurnsTo, Limit;
    FirstOf(w, head, roll, strstart, hd, entry, Walk(first0, off0, 0, 0, 0), walks[0]);
  }

  lemma Concluded(w: seq<nat>, prev: seq<nat>, head: seq<nat>, roll: bool, strstart: nat, lookahead: nat, hd: nat,
                  maxDist: nat, tries: nat, niceMatch: nat, entry: nat, bound: nat, best: nat, start: nat,
                  walks: seq<Walk>, x: Walk, first0: nat, off0: nat, stuck: bool)
    requires entry < lookahead && entry <= best
    requires FirstWalk(w, head, roll, strstart, hd, entry, Walk(first0, off0, 0, 0, 0))
    requires InTurn(w, prev, head, roll, strstart, first0, off0, walks + [x])
    requires AllTried(w, prev, walks + [x], strstart, AtMost(lookahead), best)
    requires best > entry ==>
      IsMatch(w, start, strstart, best, lookahead, maxDist, bound) && TriedAt(prev, walks + [x], start)
    requires (best > entry && best >= niceMatch) ||
      SearchEnds(w, prev, head, roll, walks + [x], strstart, Limit(strstart, maxDist), tries, start, best)
    requires (best > entry && best >= niceMatch) || (best > entry && Turns(roll, entry, strstart, start, best) ==>
      TurnedFor(walks, start, best) || InnerEnds(w, prev, head, roll, strstart, Limit(strstart, maxDist), start, best))
    ensures LongestSlow(w, prev, head, roll, strstart, lookahead, hd, maxDist, tries, niceMatch, entry, bound, best,
                        start, walks + [x])
  {
    hide AtMost, AllTried, IsMatch, FirstWalk, TriedAt, TurnsTo, Limit, SearchEnds, InnerEnds, Turns;
    FirstOf(w, head, roll, strstart, hd, entry, Walk(first0, off0, 0, 0, 0), (walks + [x])[0]);
    if |walks| >= 1 { assert (walks + [x])[|walks| - 1] == walks[|walks| - 1]; }
  }

  // ---- a search under way ----

  /** The walks so far and the present one have tried what they should, and the present one has come to cur. */
  ghost predicate Searching(w: seq<nat>, prev: seq<nat>, walks: seq<Walk>, x: Walk, cur: nat, chain: nat, tries: nat,
                            strstart: nat, best: nat)
  {
    |prev| > 0 && cur == Cand(prev, x.first, x.count) &&
    Allows(chain) + x.count + Total(walks) == Allows(tries) + |walks| &&
    NoneLonger(w, prev, x.first, x.off, x.count, strstart, STD_MAX_MATCH, best) &&
    AllTried(w, prev, walks, strstart, STD_MAX_MATCH, best)
  }

  lemma SearchFrom(w: seq<nat>, prev: seq<nat>, head: seq<nat>, roll: bool, cur: nat, off: nat, tries: nat,
                   strstart: nat, best: nat)
    requires |prev| > 0
    ensures Searching(w, prev, [], Walk(cur, off, 0, 0, 0), cur, tries, tries, strstart, best)
    ensures InTurn(w, prev, head, roll, strstart, cur, off, [] + [Walk(cur, off, 0, 0, 0)])
  {
    hide NoneLonger;
    NoneYet(w, prev, cur, off, strstart, STD_MAX_MATCH, best);
  }

  lemma SearchAt(w: seq<nat>, prev: seq<nat>, walks: seq<Walk>, x: Walk, cur: nat, chain: nat, tries: nat,
                 strstart: nat, best: nat)
    requires Searching(w, prev, walks, x, cur, chain, tries, strstart, best)
    ensures |prev| > 0 && cur == Cand(prev, x.first, x.count)
  {
    hide NoneLonger, AllTried, Cand, Total, Allows;
  }

  /** The present walk may be the last one. */
  lemma SearchStop(w: seq<nat>, prev: seq<nat>, head: seq<nat>, roll: bool, walks: seq<Walk>, x: Walk, cur: nat,
                   chain: nat, tries: nat, strstart: nat, best: nat, limitBase: nat, lookahead: nat, start: nat)
    requires Searching(w, prev, walks, x, cur, chain, tries, strstart, best)
    ensures AllTried(w, prev, walks + [x], strstart, AtMost(lookahead), best)
    ensures cur <= limitBase + x.off || strstart <= cur ==>
      SearchEnds(w, prev, head, roll, walks + [x], strstart, limitBase, tries, start, best)
  {
    hide NoneLonger, AllTried, Cand, Total, SearchEnds;
    WalkDone(w, prev, walks, x, strstart, lookahead, best);
    if cur <= limitBase + x.off || strstart <= cur {
      LastWalk(w, prev, head, roll, walks, x, strstart, limitBase, tries, start, best);
    }
  }

  /** The walk finds nothing better. */
  lemma SearchOver(w: seq<nat>, prev: seq<nat>, head: seq<nat>, roll: bool, walks: seq<Walk>, x: Walk, cur: nat,
                   chain: nat, tries: nat, strstart: nat, best: nat, n: nat, limitBase: nat, lookahead: nat, start: nat)
    requires Searching(w, prev, walks, x, cur, chain, tries, strstart, best)
    requires NoneLonger(w, prev, cur, x.off, n, strstart, STD_MAX_MATCH, best)
    requires strstart <= Cand(prev, cur, n) || WalkEnds(prev, cur, n, limitBase + x.off, chain)
    ensures var y := x.(count := x.count + n);
      AllTried(w, prev, walks + [y], strstart, AtMost(lookahead), best) &&
      SearchEnds(w, prev, head, roll, walks + [y], strstart, limitBase, tries, start, best)
  {
    hide NoneLonger, AllTried, Cand, Total, SearchEnds, Allows;
    var y := x.(count := x.count + n);
    NoneJoin(w, prev, x.first, x.off, x.count, n, strstart, STD_MAX_MATCH, best);
    WalkDone(w, prev, walks, y, strstart, lookahead, best);
    LastWalk(w, prev, head, roll, walks, y, strstart, limitBase, tries, start, best);
  }

  /** The walk has found something better. */
  lemma SearchFound(w: seq<nat>, prev: seq<nat>, walks: seq<Walk>, x: Walk, cur: nat, chain: nat, tries: nat,
                    strstart: nat, best: nat, n: nat, cur': nat, chain': nat, len: nat)
    requires Searching(w, prev, walks, x, cur, chain, tries, strstart, best) && best <= len
    requires NoneLonger(w, prev, cur, x.off, n, strstart, STD_MAX_MATCH, best) && cur' == Cand(prev, cur, n)
    requires Allows(chain') + n == Allows(chain)
    ensures Searching(w, prev, walks, x.(count := x.count + n), cur', chain', tries, strstart, len)
  {
    hide NoneLonger, AllTried, Cand, Total, Allows;
    NoneJoin(w, prev, x.first, x.off, x.count, n, strstart, STD_MAX_MATCH, best);
    NoneWeaker(w, prev, x.first, x.off, x.count + n, strstart, STD_MAX_MATCH, best, STD_MAX_MATCH, len);
    TriedWeaker(w, prev, walks, strstart, STD_MAX_MATCH, best, STD_MAX_MATCH, len);
  }

  /** The string at cur has been tried, too. */
  lemma SearchTried(w: seq<nat>, prev: seq<nat>, walks: seq<Walk>, x: Walk, y: Walk, cur: nat, chain: nat, tries: nat,
                    strstart: nat, best: nat, lookahead: nat)
    requires Searching(w, prev, walks, x, cur, chain, tries, strstart, best)
    requires x.off <= cur && NoLonger(w, cur - x.off, strstart, STD_MAX_MATCH, best)
    requires (y.first, y.off, y.count) == (x.first, x.off, x.count + 1)
    ensures NoneLonger(w, prev, y.first, y.off, y.count, strstart, STD_MAX_MATCH, best)
    ensures AllTried(w, prev, walks + [y], strstart, STD_MAX_MATCH, best)
    ensures AllTried(w, prev, walks + [y], strstart, AtMost(lookahead), best)
    ensures AllTried(w, prev, walks + [y], strstart, AtMost(lookahead), lookahead)
  {
    hide NoneLonger, NoLonger, AllTried, Cand, Total;
    NoneMore(w, prev, x.first, x.off, x.count, strstart, STD_MAX_MATCH, best);
    WalkDone(w, prev, walks, y, strstart, lookahead, best);
    TriedAlso(w, prev, walks, y, strstart, STD_MAX_MATCH, best);
  }

  /** The search turns to another chain. */
  lemma SearchTurn(w: seq<nat>, prev: seq<nat>, walks: seq<Walk>, x: Walk, y: Walk, cur: nat, chain: nat, tries: nat,
                   strstart: nat, best: nat, cur': nat, off': nat)
    requires Searching(w, prev, walks, x, cur, chain, tries, strstart, best) && y.count == x.count + 1
    requires AllTried(w, prev, walks + [y], strstart, STD_MAX_MATCH, best)
    ensures Searching(w, prev, walks + [y], Walk(cur', off', 0, 0, 0), cur', chain, tries, strstart, best)
  {
    hide NoneLonger, AllTried, Total, Allows;
    TotalOn(walks, y);
    NoneYet(w, prev, cur', off', strstart, STD_MAX_MATCH, best);
  }

  /** The search goes on along the chain. */
  lemma SearchMore(w: seq<nat>, prev: seq<nat>, head: seq<nat>, roll: bool, walks: seq<Walk>, x: Walk, y: Walk,
                   cur: nat, chain: nat, tries: nat, strstart: nat, best: nat, limitBase: nat, lookahead: nat,
                    start: nat)
    requires Searching(w, prev, walks, x, cur, chain, tries, strstart, best) && chain < 0x1_0000_0000
    requires (y.first, y.off, y.count) == (x.first, x.off, x.count + 1)
    requires NoneLonger(w, prev, y.first, y.off, y.count, strstart, STD_MAX_MATCH, best)
    ensures Decremented(chain) < 0x1_0000_0000
    ensures
      if Decremented(chain) == 0 then
        SearchEnds(w, prev, head, roll, walks + [y], strstart, limitBase, tries, start, best)
      else
        Searching(w, prev, walks, y, prev[cur % |prev|], Decremented(chain), tries, strstart, best)
  {
    hide NoneLonger, AllTried, Total, SearchEnds;
    OneLess(chain);
    if Decremented(chain) == 0 {
      LastWalk(w, prev, head, roll, walks, y, strstart, limitBase, tries, start, best);
    }
  }

  /** A walk is over. */
  lemma WalkDone(w: seq<nat>, prev: seq<nat>, walks: seq<Walk>, x: Walk, strstart: nat, lookahead: nat, best: nat)
    requires AllTried(w, prev, walks, strstart, STD_MAX_MATCH, best)
    requires NoneLonger(w, prev, x.first, x.off, x.count, strstart, STD_MAX_MATCH, best)
    ensures AllTried(w, prev, walks + [x], strstart, AtMost(lookahead), best)
    ensures AllTried(w, prev, walks + [x], strstart, AtMost(lookahead), lookahead)
  {
    hide NoneLonger, AllTried;
    TriedAlso(w, prev, walks, x, strstart, STD_MAX_MATCH, best);
    TriedWeaker(w, prev, walks + [x], strstart, STD_MAX_MATCH, best, AtMost(lookahead), best);
    TriedWeaker(w, prev, walks + [x], strstart, STD_MAX_MATCH, best, AtMost(lookahead), lookahead);
  }

  lemma OneLess(chain: nat)
    requires chain < 0x1_0000_0000
    ensures Decremented(chain) < 0x1_0000_0000
    ensures Decremented(chain) == 0 ==> Allows(chain) == 1
    ensures Decremented(chain) != 0 ==> Allows(Decremented(chain)) == Allows(chain) - 1
  {
  }

  lemma LastWalk(w: seq<nat>, prev: seq<nat>, head: seq<nat>, roll: bool, walks: seq<Walk>, x: Walk, strstart: nat,
                 limitBase: nat, tries: nat, start: nat, len: nat)
    requires |prev| > 0
    requires Cand(prev, x.first, x.count) <= limitBase + x.off || strstart <= Cand(prev, x.first, x.count) ||
      Total(walks) + x.count == Allows(tries) + |walks|
    ensures SearchEnds(w, prev, head, roll, walks + [x], strstart, limitBase, tries, start, len)
  {
    hide Cand, Total, Allows;
    TotalOn(walks, x);
  }

  lemma LastInner(w: seq<nat>, prev: seq<nat>, head: seq<nat>, roll: bool, walks: seq<Walk>, strstart: nat,
                  limitBase: nat, tries: nat, start: nat, len: nat)
    requires |prev| > 0 && walks != [] && start + len < strstart
    requires InnerEnds(w, prev, head, roll, strstart, limitBase, start, len)
    ensures SearchEnds(w, prev, head, roll, walks, strstart, limitBase, tries, start, len)
  {
    hide InnerEnds;
  }

  /** The length that a match must exceed. */
  function Entry(prevLength: nat): (n: nat) { if prevLength != 0 then prevLength else STD_MIN_MATCH - 1 }

  lemma EntryIs(prevLength: nat, goodMatch: nat, maxChain: nat)
    ensures Entry(prevLength) == if prevLength != 0 then prevLength else 2
    ensures Tries(Entry(prevLength), goodMatch, maxChain) ==
            if Entry(prevLength) >= goodMatch then maxChain / 4 else maxChain
  {
  }

  lemma NoWalks(w: seq<nat>, prev: seq<nat>, strstart: nat)
    ensures forall cap: nat, best: nat :: AllTried(w, prev, [], strstart, cap, best)
    ensures Total([]) == 0
  {
  }
}
