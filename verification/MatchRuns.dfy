/** deflate_fast.c and deflate_medium_tpl.h: the continuations of a match of the maximum length, at its distance. */
module MatchRuns {
  import opened Tokens
  import opened MatchFinder
  import opened LzSearch

  /** The bytes of all continuations. */
  function Length(more: seq<nat>): (n: nat)
  {
    if more == [] then 0 else Length(more[..|more| - 1]) + more[|more| - 1]
  }

  /** Each continuation is the longest repeat at the distance, of eight bytes at least, and the lookahead was enough for
      it. The first one begins at p. */
  ghost predicate RunsOn(w: seq<nat>, p: nat, lookahead: int, dist: nat, more: seq<nat>)
  {
    more == [] ||
    (var n := |more| - 1;
     var at := p + Length(more[..n]);
     RunsOn(w, p, lookahead, dist, more[..n]) && lookahead - Length(more[..n]) >= MIN_LOOKAHEAD && dist <= at &&
     at + 258 <= |w| && more[n] >= 8 && more[n] == Repeated(w, at - dist, at))
  }

  /** The symbols of the continuations. */
  function RunTokens(dist: nat, more: seq<nat>): (toks: seq<Token>)
  {
    if more == [] then []
    else
      var n := |more| - 1;
      RunTokens(dist, more[..n]) + [Match(if more[n] >= 3 then more[n] - 3 else 0, dist)]
  }

  lemma NoRun(w: seq<nat>, p: nat, lookahead: int, dist: nat)
    ensures RunsOn(w, p, lookahead, dist, []) && Length([]) == 0 && RunTokens(dist, []) == []
  {
  }

  /** One continuation more. */
  lemma RunMore(w: seq<nat>, p: nat, lookahead: int, dist: nat, more: seq<nat>, len: nat)
    requires RunsOn(w, p, lookahead, dist, more) && lookahead - Length(more) >= MIN_LOOKAHEAD
    requires dist <= p + Length(more) && p + Length(more) + 258 <= |w|
    requires 8 <= len == Repeated(w, p + Length(more) - dist, p + Length(more))
    ensures RunsOn(w, p, lookahead, dist, more + [len]) && Length(more + [len]) == Length(more) + len
    ensures RunTokens(dist, more + [len]) == RunTokens(dist, more) + [Match(len - 3, dist)]
  {
    hide Repeated;
    assert (more + [len])[..|more|] == more;
  }

  /** Nothing of eight bytes repeats any more, or there is not enough lookahead. */
  ghost predicate RunOver(w: seq<nat>, at: nat, lookahead: int, dist: nat)
  {
    lookahead < MIN_LOOKAHEAD || (dist <= at && at + 258 <= |w| && Repeated(w, at - dist, at) == 0)
  }

  /** The places that deflate_fast inserts for the continuations. */
  function RunPlaces(p: nat, lookahead: int, more: seq<nat>, maxInserts: nat): (ps: seq<nat>)
    requires maxInserts >= 2
  {
    if more == [] then []
    else
      var n := |more| - 1;
      RunPlaces(p, lookahead, more[..n], maxInserts) +
      if more[n] >= 3 then InsertPlaces(p + Length(more[..n]), more[n], lookahead - Length(more), maxInserts) else []
  }

  lemma RunPlacesMore(p: nat, lookahead: int, more: seq<nat>, len: nat, maxInserts: nat)
    requires maxInserts >= 2 && len >= 3
    ensures RunPlaces(p, lookahead, more + [len], maxInserts) == RunPlaces(p, lookahead, more, maxInserts) +
            InsertPlaces(p + Length(more), len, lookahead - Length(more + [len]), maxInserts)
    ensures RunPlaces(p, lookahead, [], maxInserts) == []
  {
    hide InsertPlaces;
    assert (more + [len])[..|more|] == more;
  }
}
