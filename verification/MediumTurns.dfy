/** deflate_medium_tpl.h: what a turn of the loop searches, inserts and tallies. */
module MediumTurns {
  import opened Tokens
  import opened HashFunctions
  import opened MatchFinder
  import opened HashChains
  import opened SlidingWindow
  import opened DeflateState
  import opened LzSearch
  import opened MatchRuns
  import opened FastTurns
  import opened Fizzle

  /** A turn at the string of u, for which the turn before has found next0, or nothing. It begins with the match first
      and may find the match ahead behind it; it tallies cur with its continuations and leaves next. */
  datatype Step = Step(u: Snap, next0: Found2, first: Found2, search: Search, ahead: Found2, searchAhead: Search,
                       cur: Found2, next: Found2, more: seq<nat>)

  // ---- inserting ----

  /** The chains after the strings at ps have been inserted. */
  function Filed(u: Snap, ps: seq<nat>): (c: Chains)
  {
    if |u.chains.head| == HASH_SIZE && |u.chains.prev| > 0 && Fit(ps, |u.w|) then PutEach(u.chains, u.w, ps)
    else u.chains
  }

  /** The head of the chain for the string at p. */
  function HeadAt(c: Chains, w: seq<nat>, p: nat): (hd: nat)
  {
    if p + 4 <= |w| && |c.head| == HASH_SIZE then c.head[HashKnuth(Load32(w, p))] else 0
  }

  /** The current string, unless it has been looked at by the turn before. */
  function ChosenPlaces(v: Vars, next0: Found2): (ps: seq<nat>)
  {
    if next0.len == 0 && v.lookahead >= WANT_MIN_MATCH then [v.strstart] else []
  }

  /** The strings of a match, if there is enough input behind it. */
  function MatchInserts(v: Vars, m: Found2, maxInserts: nat): (ps: seq<nat>)
    requires maxInserts >= 2
  {
    if m.len >= WANT_MIN_MATCH && v.lookahead > m.len + WANT_MIN_MATCH then MatchedPlaces(m, maxInserts) else []
  }

  function FirstPlaces(t: Step, maxInserts: nat): (ps: seq<nat>)
    requires maxInserts >= 2
  {
    ChosenPlaces(t.u.v, t.next0) + MatchInserts(t.u.v, t.first, maxInserts)
  }

  /** The strings of a continuation of len bytes at p, at distance dist. */
  function ContinuationPlaces(p: nat, dist: nat, len: nat, maxInserts: nat): (ps: seq<nat>)
    requires maxInserts >= 2
  {
    [p] + if len >= WANT_MIN_MATCH then
            MatchedPlaces(Found2(0, len, p, if dist < len then p + len - dist else p), maxInserts)
          else []
  }

  /** The strings of all continuations. */
  function ContinuedPlaces(p: nat, dist: nat, more: seq<nat>, maxInserts: nat): (ps: seq<nat>)
    requires maxInserts >= 2
  {
    if more == [] then []
    else
      var n := |more| - 1;
      ContinuedPlaces(p, dist, more[..n], maxInserts) +
      ContinuationPlaces(p + Length(more[..n]), dist, more[n], maxInserts)
  }

  lemma ContinuedMore(p: nat, dist: nat, more: seq<nat>, len: nat, maxInserts: nat)
    requires maxInserts >= 2
    ensures ContinuedPlaces(p, dist, more + [len], maxInserts) ==
            ContinuedPlaces(p, dist, more, maxInserts) + ContinuationPlaces(p + Length(more), dist, len, maxInserts)
    ensures ContinuedPlaces(p, dist, [], maxInserts) == []
  {
    hide ContinuationPlaces;
    assert (more + [len])[..|more|] == more;
  }

  // ---- searching ----

  /** The match that the turn before has found is used, and otherwise the best one for the current string. */
  ghost predicate Chosen(s: Deflater, u: Snap, next0: Found2, first: Found2, search: Search)
  {
    var v, c := u.v, Filed(u, ChosenPlaces(u.v, next0));
    if next0.len > 0 then first == next0
    else
      BestAt(u.w, c.prev, v.lookahead, v.strstart,
             if v.lookahead >= WANT_MIN_MATCH then HeadAt(u.chains, u.w, v.strstart) else 0, MaxDist(s.lz), s.maxChain,
             s.niceMatch, s.goodMatch, v.fillEnd + 1, search, first)
  }

  /** There is a search ahead, at the string behind the match. */
  predicate Looks(v: Vars, first: Found2, fizzle: bool)
  {
    fizzle && first.len != STD_MAX_MATCH && v.lookahead > MIN_LOOKAHEAD && v.strstart + first.len < v.fillEnd
  }

  /** The best match there, with the string at e inserted into the chains c. */
  ghost predicate FoundAhead(s: Deflater, v: Vars, w: seq<nat>, c: Chains, e: nat, ahead: Found2, search: Search)
  {
    |c.head| == HASH_SIZE && |c.prev| > 0 && e + 4 <= |w| &&
    BestAt(w, Put(c, HashKnuth(Load32(w, e)), e).prev, v.lookahead, e, HeadAt(c, w, e), MaxDist(s.lz), s.maxChain,
           s.niceMatch, s.goodMatch, v.fillEnd + 1, search, ahead)
  }

  /** It may take over the match before it. */
  predicate Takes(first: Found2, ahead: Found2)
  {
    first.len > 1 && ahead.len >= WANT_MIN_MATCH && first.len - 1 <= ahead.start
  }

  /** What is left of both matches. */
  predicate Settled(w: seq<nat>, first: Found2, ahead: Found2, maxDist: nat, cur: Found2, next: Found2)
  {
    if Takes(first, ahead) then
      ahead.strstart == first.strstart + first.len &&
      (cur, next) == (AfterFizzle(w, first, ahead, maxDist), NextFizzle(w, first, ahead, maxDist))
    else (cur, next) == (first, ahead)
  }

  ghost predicate Searched(s: Deflater, t: Step, fizzle: bool)
  {
    2 <= s.maxLazy && MaxDist(s.lz) >= 0 && Chosen(s, t.u, t.next0, t.first, t.search) &&
    if Looks(t.u.v, t.first, fizzle) then
      FoundAhead(s, t.u.v, t.u.w, Filed(t.u, FirstPlaces(t, s.maxLazy)), t.u.v.strstart + t.first.len, t.ahead,
                 t.searchAhead) &&
      Settled(t.u.w, t.first, t.ahead, MaxDist(s.lz), t.cur, t.next)
    else t.cur == t.first && t.next.len == 0
  }

  // ---- what a turn does ----

  /** Nothing if the next match has taken over all of the current one, and otherwise a literal, or the match with its
      continuations. */
  function StepTokens(t: Step): (toks: seq<Token>)
  {
    var p := t.u.v.strstart;
    var dist := if t.cur.start <= p then p - t.cur.start else 0;
    if t.cur.len == 0 then []
    else if t.cur.len < 3 then [Lit(if p < |t.u.w| then t.u.w[p] else 0)]
    else [Match(t.cur.len - 3, dist)] + RunTokens(dist, t.more)
  }

  function StepLength(t: Step): (n: nat) { t.cur.len + Length(t.more) }

  /** All strings that a turn inserts. */
  function StepPlaces(t: Step, maxInserts: nat, fizzle: bool): (ps: seq<nat>)
    requires maxInserts >= 2
  {
    var p := t.u.v.strstart;
    FirstPlaces(t, maxInserts) + (if Looks(t.u.v, t.first, fizzle) then [p + t.first.len] else []) +
    ContinuedPlaces(p + t.cur.len, if t.cur.start <= p then p - t.cur.start else 0, t.more, maxInserts)
  }

  /** After a match of the maximum length all continuations are tallied, unless the output is full. */
  ghost predicate Continued(t: Step, stop: bool)
  {
    var p, look, n := t.u.v.strstart, t.u.v.lookahead, t.cur.len;
    n <= look && p < |t.u.w| &&
    if n < 3 then t.more == []
    else
      t.cur.start < p && RunsOn(t.u.w, p + n, look - n, p - t.cur.start, t.more) &&
      if n == STD_MAX_MATCH then stop || RunOver(t.u.w, p + StepLength(t), look - StepLength(t), p - t.cur.start)
      else t.more == []
  }

  ghost predicate GoodStep(s: Deflater, t: Step, fizzle: bool, stop: bool)
  {
    Searched(s, t, fizzle) && Continued(t, stop)
  }

  lemma MatchStep(s: Deflater, t: Step, fizzle: bool, stop: bool, said: seq<Token>, said': seq<Token>, p': nat,
                  lookahead': nat)
    requires Searched(s, t, fizzle) && t.cur.start < t.u.v.strstart < |t.u.w|
    requires Emitted(t.u.w, t.u.v.strstart, t.u.v.lookahead, t.cur.start, t.cur.len, t.more, said, said', p',
                     lookahead', stop)
    ensures GoodStep(s, t, fizzle, stop) && said' == said + StepTokens(t)
    ensures p' == t.u.v.strstart + StepLength(t) && lookahead' == t.u.v.lookahead - StepLength(t)
  {
    hide Searched, RunsOn, RunOver, RunTokens, Length;
    var d := t.u.v.strstart - t.cur.start;
    assert StepTokens(t) == [Match(t.cur.len - 3, d)] + RunTokens(d, t.more);
    assert said + [Match(t.cur.len - 3, d)] + RunTokens(d, t.more) ==
      said + ([Match(t.cur.len - 3, d)] + RunTokens(d, t.more));
  }

  lemma ShortStep(s: Deflater, t: Step, fizzle: bool, stop: bool, said: seq<Token>)
    requires Searched(s, t, fizzle) && t.cur.len <= t.u.v.lookahead && t.u.v.strstart < |t.u.w|
    requires t.cur.len <= 1 && t.more == []
    ensures GoodStep(s, t, fizzle, stop) && StepLength(t) == t.cur.len
    ensures StepTokens(t) == if t.cur.len == 0 then [] else [Lit(t.u.w[t.u.v.strstart])]
    ensures t.cur.len == 0 ==> said == said + StepTokens(t)
  {
    hide Searched;
  }

  // ---- all turns of a call ----

  /** The symbols of all turns. */
  function AllSteps(ts: seq<Step>): (toks: seq<Token>)
  {
    if ts == [] then [] else AllSteps(ts[..|ts| - 1]) + StepTokens(ts[|ts| - 1])
  }

  /** t' begins where t has ended, after a refill, and with the match that t has left for it; that one is forgotten when
      there is too little lookahead. */
  ghost predicate NextStep(t: Step, t': Step)
  {
    exists v: Vars ::
      v.strstart == t.u.v.strstart + StepLength(t) && v.lookahead == t.u.v.lookahead - StepLength(t) &&
      SamePlace(v, t.u.base, t'.u.v, t'.u.base) &&
      t'.next0 == if v.lookahead < MIN_LOOKAHEAD then t.next.(len := 0) else t.next
  }

  /** The turns of a call; only the last one may have been cut short by a full output. */
  ghost predicate StepRun(s: Deflater, ts: seq<Step>, fizzle: bool, cut: bool)
  {
    (forall k :: 0 <= k < |ts| ==> GoodStep(s, ts[k], fizzle, cut && k == |ts| - 1)) &&
    (forall k :: 0 <= k < |ts| - 1 ==> NextStep(ts[k], ts[k + 1])) && (ts != [] ==> ts[0].next0.len == 0)
  }

  lemma StepsOn(s: Deflater, ts: seq<Step>, t: Step, fizzle: bool, stop: bool)
    requires StepRun(s, ts, fizzle, false) && GoodStep(s, t, fizzle, stop)
    requires if ts == [] then t.next0.len == 0 else NextStep(ts[|ts| - 1], t)
    ensures StepRun(s, ts + [t], fizzle, stop) && AllSteps(ts + [t]) == AllSteps(ts) + StepTokens(t)
  {
    hide GoodStep, NextStep, StepTokens, AllSteps;
    AllStepsOn(ts, t);
  }

  lemma AllStepsOn(ts: seq<Step>, t: Step)
    ensures AllSteps(ts + [t]) == AllSteps(ts) + StepTokens(t)
  {
    hide StepTokens;
    assert (ts + [t])[..|ts|] == ts;
  }

  /** A full output is no objection. */
  lemma StepCut(s: Deflater, ts: seq<Step>, fizzle: bool, cut: bool)
    requires StepRun(s, ts, fizzle, false)
    ensures StepRun(s, ts, fizzle, cut)
  {
    hide Searched, RunsOn, RunOver, NextStep;
  }

  lemma NoSteps(s: Deflater, fizzle: bool, said: seq<Token>)
    ensures StepRun(s, [], fizzle, false) && said + AllSteps([]) == said
  {
  }
}
