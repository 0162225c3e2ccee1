/** deflate_fast.c on a few bytes in which no string is searched for with success, because no chain leads to an earlier
    one: exactly which strings such a call inserts. */
module LoneRuns {
  import opened HashFunctions
  import opened MatchFinder
  import opened HashChains
  import opened SlidingWindow
  import opened Reinserts

  /** The chains after the current string has been inserted, if there is enough input for that. */
  ghost function Entered(u: Snap): (c: Chains)
    requires Sized(u.chains) && u.v.strstart + 4 <= |u.w|
  {
    if u.v.lookahead >= WANT_MIN_MATCH then Put(u.chains, HashKnuth(Load32(u.w, u.v.strstart)), u.v.strstart)
    else u.chains
  }

  /** There is too little input for a match, or no chain for one. */
  ghost predicate Alone(u: Snap)
  {
    Sized(u.chains) && u.v.strstart + 4 <= |u.w| &&
    (u.v.lookahead >= WANT_MIN_MATCH ==> u.chains.head[HashKnuth(Load32(u.w, u.v.strstart))] == 0)
  }

  lemma EnteredIs(u: Snap)
    requires Sized(u.chains) && u.v.strstart + 4 <= |u.w|
    ensures u.v.lookahead >= WANT_MIN_MATCH ==>
      Entered(u) == Put(u.chains, HashKnuth(Load32(u.w, u.v.strstart)), u.v.strstart)
    ensures u.v.lookahead < WANT_MIN_MATCH ==> Entered(u) == u.chains
  {
    hide Put, HashKnuth, Load32;
  }

  lemma AloneIs(u: Snap)
    requires Sized(u.chains) && u.v.strstart + 4 <= |u.w| && u.v.lookahead >= WANT_MIN_MATCH && Alone(u)
    ensures u.chains.head[HashKnuth(Load32(u.w, u.v.strstart))] == 0
  {
    hide HashKnuth, Load32;
  }

  /** A buffer of n bytes that holds the input and zeros behind it. */
  function Padded(input: seq<nat>, n: nat): (w: seq<nat>)
    requires |input| <= n
    ensures |w| == n
  {
    input + seq(n - |input|, _ => 0)
  }

  lemma IsPadded(w: seq<nat>, input: seq<nat>)
    requires |input| <= |w| && w[..|input|] == input && forall i :: |input| <= i < |w| ==> w[i] == 0
    ensures w == Padded(input, |w|)
  {
    assert w == w[..|input|] + w[|input|..];
  }

  /** All input so far has been compressed and stands at the start of the window, and data is to be read at once. */
  ghost predicate AtCall(s: Snap, data: seq<nat>)
  {
    s.base == 0 && s.v.lookahead == 0 && s.v.strstart == |s.input| && s.rest == |data| && 0 < |data| < MIN_LOOKAHEAD &&
    s.v.strstart + |data| < s.v.fillEnd && s.v.fillEnd + MIN_LOOKAHEAD <= |s.w| && s.w == Padded(s.input, |s.w|) &&
    Sized(s.chains) && s.v.insert <= s.v.strstart
  }

  /** The chains after the refill and n strings of the data. */
  ghost function After(s: Snap, data: seq<nat>, n: nat): (c: Chains)
    requires AtCall(s, data) && n <= |data|
    ensures |c.head| == HASH_SIZE && |c.prev| == |s.chains.prev|
  {
    var w, p := Padded(s.input + data, |s.w|), s.v.strstart;
    PutAll(PutBatch(s.chains, LeftOver(w, s.v.(lookahead := |data|), false)), KnuthHashes(w, p, n), p)
  }

  /** How many of k strings have enough input behind them. */
  function Entering(size: nat, k: nat): (n: nat)
    requires k <= size
    ensures n <= k
  {
    if k + WANT_MIN_MATCH <= size + 1 then k else if size < WANT_MIN_MATCH then 0 else size + 1 - WANT_MIN_MATCH
  }

  /** No string of the data finds a chain. */
  ghost predicate Lone(s: Snap, data: seq<nat>)
  {
    AtCall(s, data) &&
    forall i: nat :: i + WANT_MIN_MATCH <= |data| ==>
      After(s, data, i).head[HashKnuth(Load32(Padded(s.input + data, |s.w|), s.v.strstart + i))] == 0
  }

  /** The call that began at s has read the data and tallied k bytes of it. */
  ghost predicate InRun(s: Snap, data: seq<nat>, t: Snap, k: nat)
  {
    AtCall(s, data) && k <= |data| && t.base == 0 && t.input == s.input + data && t.rest == 0 &&
    t.w == Padded(t.input, |s.w|) && t.v.strstart == s.v.strstart + k && t.v.lookahead == |data| - k &&
    t.v.fillEnd == s.v.fillEnd && t.chains == After(s, data, Entering(|data|, k))
  }

  lemma RunStart(s: Snap, data: seq<nat>, t: Snap)
    requires AtCall(s, data) && Refills(s, t, false) && t.input == s.input + data
    ensures InRun(s, data, t, 0)
  {
    hide Lowered, PutBatch, LeftOver, PutAll, Sized, Kept, LinksKept;
    AtPlace(s, t, false);
    var w, v := Over(s.w, t.input[t.base..]), t.v.(insert := s.v.insert);
    assert t.input[t.base..] == t.input;
    IsPadded(w, t.input);
    IsPadded(t.w, t.input);
    LoweredNone(s.chains);
    LeftOverSame(w, s.v.(lookahead := |data|), v, false);
    LeftOverRange(w, v, false);
    SizedIs(s.chains);
    var c := PutBatch(s.chains, LeftOver(w, v, false));
    BatchSize(s.chains, LeftOver(w, v, false));
    PutAllNone(c, s.v.strstart);
  }

  lemma RunFill(s: Snap, data: seq<nat>, t: Snap, k: nat, t': Snap)
    requires InRun(s, data, t, k) && Refills(t, t', false)
    ensures InRun(s, data, t', k)
  {
    hide Lowered, PutBatch, LeftOver, Over, After, Sized, LinksKept;
    AtPlace(t, t', false);
    assert t.input == t'.input;
    LoweredNone(t.chains);
    assert t'.input[t'.base..] == t'.input;
    IsPadded(t'.w, t'.input);
  }

  /** Before the first string only the refill has inserted any. */
  lemma AfterNone(s: Snap, data: seq<nat>)
    requires AtCall(s, data)
    ensures var w := Padded(s.input + data, |s.w|);
      After(s, data, 0) == PutBatch(s.chains, LeftOver(w, s.v.(lookahead := |data|), false))
  {
    hide LeftOver, Padded, PutBatch;
    var w, v := Padded(s.input + data, |s.w|), s.v.(lookahead := |data|);
    PaddedSize(s.input + data, |s.w|);
    LeftOverRange(w, v, false);
    BatchSize(s.chains, LeftOver(w, v, false));
  }

  lemma AfterOn(s: Snap, data: seq<nat>, n: nat)
    requires AtCall(s, data) && n < |data|
    ensures var w, p := Padded(s.input + data, |s.w|), s.v.strstart + n;
      After(s, data, n + 1) == Put(After(s, data, n), HashKnuth(Load32(w, p)), p)
  {
    hide PutBatch, LeftOver, PutAll, Put, HashKnuth, Load32, Padded, KnuthHashes;
    var w, p, v := Padded(s.input + data, |s.w|), s.v.strstart, s.v.(lookahead := |data|);
    PaddedSize(s.input + data, |s.w|);
    var c := PutBatch(s.chains, LeftOver(w, v, false));
    LeftOverRange(w, v, false);
    BatchSize(s.chains, LeftOver(w, v, false));
    KnuthSize(w, p, n);
    KnuthOn(w, p, n);
    PutAllOn(c, KnuthHashes(w, p, n), p, HashKnuth(Load32(w, p + n)));
  }

  lemma RunTurn(s: Snap, data: seq<nat>, t: Snap, k: nat, t': Snap)
    requires InRun(s, data, t, k) && k < |data| && Sized(t.chains) && t.v.strstart + 4 <= |t.w|
    requires t' == t.(v := t'.v, chains := Entered(t))
    requires t'.v == t.v.(strstart := t.v.strstart + 1, lookahead := t.v.lookahead - 1, blockStart := t'.v.blockStart)
    ensures InRun(s, data, t', k + 1)
  {
    hide After, Put, HashKnuth, Load32, Padded;
    EnteredIs(t);
    if k + WANT_MIN_MATCH <= |data| { AfterOn(s, data, k); }
  }

  lemma RunAlone(s: Snap, data: seq<nat>, t: Snap, k: nat)
    requires Lone(s, data) && InRun(s, data, t, k)
    ensures Sized(t.chains) && t.v.strstart + 4 <= |t.w| && Alone(t)
  {
    hide After, HashKnuth, Load32, Padded;
    AfterSize(s, data, Entering(|data|, k));
    PaddedSize(t.input, |s.w|);
  }

  lemma AfterSize(s: Snap, data: seq<nat>, n: nat)
    requires AtCall(s, data) && n <= |data|
    ensures |After(s, data, n).head| == HASH_SIZE && |After(s, data, n).prev| == |s.chains.prev|
  {
  }

  lemma PaddedSize(input: seq<nat>, n: nat)
    requires |input| <= n
    ensures |Padded(input, n)| == n
  {
  }

  lemma SizedIs(c: Chains)
    requires Sized(c)
    ensures |c.head| == HASH_SIZE && |c.prev| > 0
  {
  }

  // ---- a whole call ----

  /** A call from u on data in which every byte becomes a literal, with toks symbols in a buffer of size symbols. */
  ghost predicate Quiet(u: Snap, data: seq<nat>, toks: nat, size: nat, roll: bool)
  {
    !roll && Lone(u, data) && toks + |data| + 2 <= size
  }

  /** That call is under way: at t, with next still to be read and toks' symbols; k is negative before the refill. */
  ghost predicate QuietRun(u: Snap, data: seq<nat>, toks: nat, t: Snap, next: seq<nat>, toks': nat, k: int)
  {
    if k < 0 then t == u && next == data && toks' == toks
    else InRun(u, data, t, k) && toks' <= toks + k
  }

  /** It has come to its end: the last two strings are left over. */
  ghost predicate QuietEnd(u: Snap, data: seq<nat>, toks: nat, t: Snap, toks': nat)
  {
    InRun(u, data, t, |data|) && t.v.insert == LastTwo(t.v) && toks' <= toks + |data|
  }

  /** The number of strings at the end of the data that lack input for the shortest match. */
  function LastTwo(v: Vars): (n: nat) { if v.strstart < STD_MIN_MATCH - 1 then v.strstart else STD_MIN_MATCH - 1 }

  lemma QuietFrom(u: Snap, data: seq<nat>, toks: nat, size: nat, roll: bool)
    ensures QuietRun(u, data, toks, u, data, toks, -1) && (Quiet(u, data, toks, size, roll) ==> !roll)
  {
  }

  lemma QuietSmall(u: Snap, data: seq<nat>, toks: nat, size: nat, t: Snap, next: seq<nat>, toks': nat, k: int)
    requires Quiet(u, data, toks, size, false) && QuietRun(u, data, toks, t, next, toks', k)
    ensures t.v.lookahead < MIN_LOOKAHEAD
  {
    hide After, Padded;
  }

  lemma QuietFill(u: Snap, data: seq<nat>, toks: nat, size: nat, t: Snap, next: seq<nat>, toks': nat, k: int, t': Snap,
                  next': seq<nat>)
    requires Quiet(u, data, toks, size, false) && QuietRun(u, data, toks, t, next, toks', k) && Refills(t, t', false)
    requires t.input + next == t'.input + next' && t'.rest == |next'| &&
      (t'.v.lookahead >= MIN_LOOKAHEAD || next' == [])
    ensures QuietRun(u, data, toks, t', next', toks', if k < 0 then 0 else k)
  {
    hide After, Padded, Refilled, LinksKept, InRun, HoldsInput;
    if k < 0 {
      assert t'.input == t'.input + next';
      RunStart(u, data, t');
    } else {
      RunFill(u, data, t, k, t');
    }
  }

  lemma QuietAlone(u: Snap, data: seq<nat>, toks: nat, size: nat, t: Snap, next: seq<nat>, toks': nat, k: nat)
    requires Quiet(u, data, toks, size, false) && QuietRun(u, data, toks, t, next, toks', k) && t.v.lookahead > 0
    ensures Alone(t) && toks' + 3 <= size && Sized(t.chains) && t.v.strstart + 4 <= |t.w|
  {
    hide After, Padded;
    RunAlone(u, data, t, k);
  }

  lemma QuietTurn(u: Snap, data: seq<nat>, toks: nat, size: nat, t: Snap, next: seq<nat>, toks': nat, k: nat, t': Snap)
    requires Quiet(u, data, toks, size, false) && QuietRun(u, data, toks, t, next, toks', k) && t.v.lookahead > 0
    requires Sized(t.chains) && t.v.strstart + 4 <= |t.w| && t' == t.(v := t'.v, chains := Entered(t))
    requires t'.v == t.v.(strstart := t.v.strstart + 1, lookahead := t.v.lookahead - 1, blockStart := t'.v.blockStart)
    ensures QuietRun(u, data, toks, t', next, toks' + 1, k + 1)
  {
    hide After, Padded, Entered;
    RunTurn(u, data, t, k, t');
  }

  lemma QuietDone(u: Snap, data: seq<nat>, toks: nat, t: Snap, next: seq<nat>, toks': nat, k: nat, t': Snap, toks2: nat)
    requires QuietRun(u, data, toks, t, next, toks', k) && t.v.lookahead == 0 && toks2 <= toks'
    requires t' == t.(v := t'.v) && t'.v == t.v.(insert := LastTwo(t'.v), blockStart := t'.v.blockStart)
    ensures QuietEnd(u, data, toks, t', toks2)
  {
    hide After, Padded;
  }
}
