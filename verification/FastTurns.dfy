/** deflate_fast.c: what a turn of the loop tallies and inserts, and what a whole call does. */
module FastTurns {
  import opened Tokens
  import opened HashFunctions
  import opened MatchFinder
  import opened HashChains
  import opened SlidingWindow
  import opened LoneRuns
  import opened LzSearch
  import opened MatchRuns

  /** A match of len bytes at start has been tallied for the string at p, and after one of the maximum length all
      continuations: every one that there is, unless the output is full. */
  ghost predicate Emitted(w: seq<nat>, p: nat, lookahead: nat, start: nat, len: nat, more: seq<nat>, said: seq<Token>,
                          said': seq<Token>, p': nat, lookahead': nat, stop: bool)
  {
    3 <= len <= lookahead && start <= p && said' == said + [Match(len - 3, p - start)] + RunTokens(p - start, more) &&
    RunsOn(w, p + len, lookahead - len, p - start, more) && p' == p + len + Length(more) &&
    lookahead' == lookahead - len - Length(more) &&
    if len == STD_MAX_MATCH then stop || RunOver(w, p', lookahead', p - start) else more == []
  }

  lemma IsEmitted(w: seq<nat>, p: nat, lookahead: nat, start: nat, len: nat, more: seq<nat>, said: seq<Token>,
                  said': seq<Token>, p': nat, lookahead': nat, stop: bool)
    requires 3 <= len <= lookahead && start <= p
    requires said' == said + [Match(len - 3, p - start)] + RunTokens(p - start, more)
    requires RunsOn(w, p + len, lookahead - len, p - start, more) && p' == p + len + Length(more)
    requires lookahead' == lookahead - len - Length(more)
    requires len == 258 ==> stop || RunOver(w, p', lookahead', p - start)
    requires len != 258 ==> more == []
    ensures Emitted(w, p, lookahead, start, len, more, said, said', p', lookahead', stop)
  {
    hide RunsOn, RunOver, RunTokens, Length;
  }

  lemma MatchPlacesIs(p: nat, lookahead: nat, len: nat, more: seq<nat>, maxInserts: nat)
    requires len >= 4 && maxInserts >= 2
    ensures MatchPlaces(p, lookahead, len, more, maxInserts) ==
            InsertPlaces(p + 1, len - 1, lookahead - len, maxInserts) +
            RunPlaces(p + len, lookahead - len, more, maxInserts)
  {
    hide InsertPlaces, RunPlaces;
  }

  /** The places that are inserted for a match and its continuations, behind the string at p. */
  function MatchPlaces(p: nat, lookahead: nat, len: nat, more: seq<nat>, maxInserts: nat): (ps: seq<nat>)
    requires len >= WANT_MIN_MATCH && maxInserts >= 2
  {
    InsertPlaces(p + 1, len - 1, lookahead - len, maxInserts) + RunPlaces(p + len, lookahead - len, more, maxInserts)
  }

  /** What a turn has done at the string of u: the match of len bytes at start, found among the first m strings of the
      chain, and its continuations, or nothing if len is less than 4. */
  datatype Turn = Turn(u: Snap, len: nat, start: nat, m: nat, more: seq<nat>)

  /** The symbols of a turn: the longest match of at least four bytes, with its continuations, or else a literal. */
  function TurnTokens(t: Turn): (toks: seq<Token>)
  {
    var p := t.u.v.strstart;
    if t.len >= WANT_MIN_MATCH then
      [Match(t.len - 3, if t.start <= p then p - t.start else 0)] +
      RunTokens(if t.start <= p then p - t.start else 0, t.more)
    else [Lit(if p < |t.u.w| then t.u.w[p] else 0)]
  }

  function TurnLength(t: Turn): (n: nat) { if t.len >= WANT_MIN_MATCH then t.len + Length(t.more) else 1 }

  /** The places that a turn inserts: the string itself, if there is enough input for it, and those of a match. */
  function TurnPlaces(t: Turn, maxInserts: nat): (ps: seq<nat>)
    requires maxInserts >= 2
  {
    (if t.u.v.lookahead >= WANT_MIN_MATCH then [t.u.v.strstart] else []) +
    if t.len >= WANT_MIN_MATCH then MatchPlaces(t.u.v.strstart, t.u.v.lookahead, t.len, t.more, maxInserts) else []
  }

  /** The match is what the search finds, if there is enough input for one, and all continuations are tallied, unless
      the output is full. */
  ghost predicate Greedy(t: Turn, maxDist: int, maxChain: nat, niceMatch: nat, goodMatch: nat, stop: bool)
  {
    var p, look := t.u.v.strstart, t.u.v.lookahead;
    p < |t.u.w| &&
    (if look >= WANT_MIN_MATCH then FastSearch(t.u, maxDist, maxChain, niceMatch, goodMatch, t.len, t.start, t.m)
     else t.len == 0) &&
    (t.len >= WANT_MIN_MATCH ==>
      t.len <= look && t.start < p && RunsOn(t.u.w, p + t.len, look - t.len, p - t.start, t.more) &&
      if t.len == STD_MAX_MATCH then stop || RunOver(t.u.w, p + TurnLength(t), look - TurnLength(t), p - t.start)
      else t.more == [])
  }

  lemma GreedyMatch(t: Turn, maxDist: int, maxChain: nat, niceMatch: nat, goodMatch: nat, stop: bool, said: seq<Token>,
                    said': seq<Token>, p': nat, lookahead': nat)
    requires t.u.v.lookahead >= WANT_MIN_MATCH && t.len >= WANT_MIN_MATCH && t.start < t.u.v.strstart < |t.u.w|
    requires FastSearch(t.u, maxDist, maxChain, niceMatch, goodMatch, t.len, t.start, t.m)
    requires Emitted(t.u.w, t.u.v.strstart, t.u.v.lookahead, t.start, t.len, t.more, said, said', p', lookahead', stop)
    ensures Greedy(t, maxDist, maxChain, niceMatch, goodMatch, stop) && said' == said + TurnTokens(t)
    ensures p' == t.u.v.strstart + TurnLength(t)
  {
    hide FastSearch, RunsOn, RunOver, RunTokens, Length;
    var d := t.u.v.strstart - t.start;
    assert TurnTokens(t) == [Match(t.len - 3, d)] + RunTokens(d, t.more);
    assert said + [Match(t.len - 3, d)] + RunTokens(d, t.more) == said + ([Match(t.len - 3, d)] + RunTokens(d, t.more));
  }

  lemma GreedyLiteral(t: Turn, maxDist: int, maxChain: nat, niceMatch: nat, goodMatch: nat, stop: bool)
    requires t.len < WANT_MIN_MATCH && t.u.v.strstart < |t.u.w|
    requires if t.u.v.lookahead >= WANT_MIN_MATCH then
               FastSearch(t.u, maxDist, maxChain, niceMatch, goodMatch, t.len, t.start, t.m)
             else t.len == 0
    ensures Greedy(t, maxDist, maxChain, niceMatch, goodMatch, stop)
    ensures TurnTokens(t) == [Lit(t.u.w[t.u.v.strstart])] && TurnLength(t) == 1
  {
    hide FastSearch, RunsOn;
  }

  lemma TurnPlacesMatch(t: Turn, maxInserts: nat, c: Chains, c': Chains)
    requires maxInserts >= 2 && t.u.v.lookahead >= WANT_MIN_MATCH && t.len >= WANT_MIN_MATCH && Sized(t.u.chains)
    requires t.u.v.strstart + 4 <= |t.u.w| && c == Entered(t.u) && Sized(c)
    requires var ps := MatchPlaces(t.u.v.strstart, t.u.v.lookahead, t.len, t.more, maxInserts);
      Fit(ps, |t.u.w|) && c' == PutEach(c, t.u.w, ps)
    ensures Fit(TurnPlaces(t, maxInserts), |t.u.w|) && c' == PutEach(t.u.chains, t.u.w, TurnPlaces(t, maxInserts))
  {
    hide MatchPlaces, PutEach, Put, HashKnuth, Load32;
    EnteredIs(t.u);
    OnePut(t.u.chains, t.u.w, t.u.v.strstart);
    PutEachJoin(t.u.chains, t.u.w, [t.u.v.strstart],
                MatchPlaces(t.u.v.strstart, t.u.v.lookahead, t.len, t.more, maxInserts));
  }

  lemma TurnPlacesLiteral(t: Turn, maxInserts: nat)
    requires maxInserts >= 2 && t.len < WANT_MIN_MATCH && Sized(t.u.chains) && t.u.v.strstart + 4 <= |t.u.w|
    ensures Fit(TurnPlaces(t, maxInserts), |t.u.w|)
    ensures Entered(t.u) == PutEach(t.u.chains, t.u.w, TurnPlaces(t, maxInserts))
  {
    hide PutEach, Put, HashKnuth, Load32;
    EnteredIs(t.u);
    OnePut(t.u.chains, t.u.w, t.u.v.strstart);
    NoPut(t.u.chains, t.u.w);
    assert TurnPlaces(t, maxInserts) == if t.u.v.lookahead >= WANT_MIN_MATCH then [t.u.v.strstart] else [];
  }

  lemma EnteredSize(u: Snap)
    requires Sized(u.chains) && u.v.strstart + 4 <= |u.w|
    ensures Sized(Entered(u)) && |u.chains.head| == HASH_SIZE && |u.chains.prev| > 0
  {
    hide HashKnuth, Load32;
  }

  /** The symbols of all turns. */
  function AllTokens(turns: seq<Turn>): (toks: seq<Token>)
  {
    if turns == [] then [] else AllTokens(turns[..|turns| - 1]) + TurnTokens(turns[|turns| - 1])
  }

  /** Every turn is greedy; only the last one may have been cut short by a full output. */
  ghost predicate AllGreedy(turns: seq<Turn>, maxDist: int, maxChain: nat, niceMatch: nat, goodMatch: nat, cut: bool)
  {
    forall k :: 0 <= k < |turns| ==>
      Greedy(turns[k], maxDist, maxChain, niceMatch, goodMatch, cut && k == |turns| - 1)
  }

  lemma GreedyOn(turns: seq<Turn>, t: Turn, maxDist: int, maxChain: nat, niceMatch: nat, goodMatch: nat, stop: bool)
    requires AllGreedy(turns, maxDist, maxChain, niceMatch, goodMatch, false)
    requires Greedy(t, maxDist, maxChain, niceMatch, goodMatch, stop)
    ensures AllGreedy(turns + [t], maxDist, maxChain, niceMatch, goodMatch, stop)
    ensures AllTokens(turns + [t]) == AllTokens(turns) + TurnTokens(t)
  {
    hide Greedy, TurnTokens;
    assert (turns + [t])[..|turns|] == turns;
  }

  /** A full output is no objection. */
  lemma GreedyCut(turns: seq<Turn>, maxDist: int, maxChain: nat, niceMatch: nat, goodMatch: nat, cut: bool)
    requires AllGreedy(turns, maxDist, maxChain, niceMatch, goodMatch, false)
    ensures AllGreedy(turns, maxDist, maxChain, niceMatch, goodMatch, cut)
  {
    hide FastSearch, RunsOn, RunOver;
  }

  lemma NoTurns(maxDist: int, maxChain: nat, niceMatch: nat, goodMatch: nat, said: seq<Token>)
    ensures AllGreedy([], maxDist, maxChain, niceMatch, goodMatch, false) && said + AllTokens([]) == said
  {
  }
}
