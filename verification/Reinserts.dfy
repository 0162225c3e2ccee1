/** deflate.c fill_window: the strings that are inserted again when there is more input, and what becomes of their
    links. */
module Reinserts {
  import opened Slices
  import opened HashFunctions
  import opened MatchFinder
  import opened HashChains
  import opened SlidingWindow

  /** One call of fill_window leads from s to t. */
  ghost predicate Refills(s: Snap, t: Snap, roll: bool)
  {
    Refilled(s, t, roll) && HoldsInput(s.w, s.v, s.input, s.base) && HoldsInput(t.w, t.v, t.input, t.base) &&
    s.input <= t.input && t.v.lookahead + t.rest == s.v.lookahead + s.rest && FewLeft(s.v) &&
    s.v.lookahead < MIN_LOOKAHEAD && |s.chains.prev| >= 512 &&
    SamePlace(s.v, s.base, t.v, t.base) && LinksKept(s.chains.prev, t.chains.prev, s.v, t.base - s.base)
  }

  /** The window holds the input of t. */
  ghost predicate Holds(t: Snap, w: seq<nat>)
  {
    t.base <= |t.input| <= t.base + |w| && w[..|t.input| - t.base] == t.input[t.base..]
  }

  /** The window when strings are inserted again: the new input has been read, and what is behind it is old. */
  ghost function NewWindow(s: Snap, t: Snap, roll: bool): (w: seq<nat>)
    requires Refilled(s, t, roll)
    ensures Holds(t, w) && |w| == |s.w| == |t.w|
  {
    OverStart(s.w, t.input[t.base..]);
    Over(s.w, t.input[t.base..])
  }

  /** The strings that it inserts again. */
  ghost function Again(s: Snap, t: Snap, roll: bool): (b: Batch)
    requires Refilled(s, t, roll)
  {
    LeftOver(NewWindow(s, t, roll), t.v.(insert := s.v.insert), roll)
  }

  lemma AgainSize(s: Snap, t: Snap, roll: bool)
    requires Refilled(s, t, roll) && FewLeft(s.v)
    ensures var b := Again(s, t, roll);
      InTable(b.hashes, HASH_SIZE) && |b.hashes| <= 3 && b.lo + |b.hashes| <= t.v.strstart <= b.lo + 3
  {
    hide Lowered, PutBatch, Over, HashRoll, KnuthHashes, RollHashes;
    LeftOverRange(NewWindow(s, t, roll), t.v.(insert := s.v.insert), roll);
  }

  /** When its turn comes, string number i of a batch heads the chain of its hash, or that head is its link. */
  ghost predicate Undisturbed(c: Chains, b: Batch, i: nat)
    requires InTable(b.hashes, |c.head|) && i < |b.hashes| && |c.prev| > 0
  {
    assert InTable(b.hashes[..i], |c.head|);
    var first := PutAll(c, b.hashes[..i], b.lo).head[b.hashes[i]];
    first == b.lo + i || first == c.prev[Slot(b.lo + i, |c.prev|)]
  }

  lemma UndisturbedIs(c: Chains, b: Batch, i: nat)
    requires InTable(b.hashes, |c.head|) && i < |b.hashes| <= |c.prev|
    ensures PutBatch(c, b).prev[Slot(b.lo + i, |c.prev|)] == c.prev[Slot(b.lo + i, |c.prev|)] <==> Undisturbed(c, b, i)
  {
    hide Slot, PutAll;
    TurnKeeps(c, b.hashes, b.lo, i);
  }

  /** All strings in reach keep their links exactly if each of those that are inserted again finds itself, or what it
      links to, at the head of the chain of the hash that it has with the new input. */
  lemma RefillKeeps(s: Snap, t: Snap, roll: bool)
    requires Refills(s, t, roll)
    ensures var c, b := Lowered(s.chains, t.base - s.base), Again(s, t, roll);
      InTable(b.hashes, |c.head|) && |c.prev| > 0 &&
      (Kept(s.chains.prev, t.chains.prev, t.base - s.base, s.v.strstart, s.v.strstart + MIN_LOOKAHEAD) <==>
       s.rest == 0 || forall i: nat :: i < |b.hashes| ==> Undisturbed(c, b, i))
  {
    hide Lowered, Again, PutBatch, Undisturbed, Slot, SamePlace, LinksKept, HoldsInput, Kept;
    var d, n := t.base - s.base, |s.chains.prev|;
    var c, b := Lowered(s.chains, d), Again(s, t, roll);
    LoweredParts(s.chains, d);
    AgainSize(s, t, roll);
    if s.rest == 0 {
      LoweredKeeps(s.chains, d, s.v.strstart, s.v.strstart + MIN_LOOKAHEAD);
    } else {
      RefillIs(s, t, roll);
      if Kept(s.chains.prev, t.chains.prev, d, s.v.strstart, s.v.strstart + MIN_LOOKAHEAD) {
        forall i: nat | i < |b.hashes|
          ensures Undisturbed(c, b, i)
        {
          KeptUndisturbed(s, t, roll, i);
        }
      }
      if forall i: nat :: i < |b.hashes| ==> Undisturbed(c, b, i) { UndisturbedKept(s, t, roll); }
    }
  }

  lemma RefillIs(s: Snap, t: Snap, roll: bool)
    requires Refills(s, t, roll) && s.rest > 0
    ensures |s.chains.head| == HASH_SIZE
    ensures t.chains == PutBatch(Lowered(s.chains, t.base - s.base), Again(s, t, roll))
  {
    hide Lowered, LeftOver, PutBatch, Over;
  }

  /** The place of a string in reach after the slide. */
  lemma StringMoves(s: Snap, t: Snap, roll: bool, q: nat)
    requires Refills(s, t, roll) && s.v.strstart + MIN_LOOKAHEAD <= q + |s.chains.prev|
    ensures var d := t.base - s.base;
      t.v.strstart == s.v.strstart - d && d <= q && Slot(q - d, |s.chains.prev|) == Slot(q, |s.chains.prev|)
  {
    hide Slot, Refilled, HoldsInput, Kept;
    assert s.base == t.base || t.v.strstart + MIN_LOOKAHEAD >= |s.chains.prev| by { RefilledSlide(s, t, roll); }
    SlotShift(q - (t.base - s.base), t.base - s.base, |s.chains.prev|);
  }

  lemma RefilledSlide(s: Snap, t: Snap, roll: bool)
    requires Refilled(s, t, roll)
    ensures s.base == t.base || t.v.strstart + MIN_LOOKAHEAD >= |s.chains.prev|
  {
    hide Lowered, LeftOver, PutBatch, Over;
  }

  lemma KeptUndisturbed(s: Snap, t: Snap, roll: bool, i: nat)
    requires Refills(s, t, roll) && s.rest > 0 && i < |Again(s, t, roll).hashes|
    requires Kept(s.chains.prev, t.chains.prev, t.base - s.base, s.v.strstart, s.v.strstart + MIN_LOOKAHEAD)
    ensures var c, b := Lowered(s.chains, t.base - s.base), Again(s, t, roll);
      InTable(b.hashes, |c.head|) && |c.prev| > 0 && Undisturbed(c, b, i)
  {
    hide Lowered, Again, PutBatch, Undisturbed, Slot, SamePlace, LinksKept, HoldsInput, Refilled;
    AtPlace(s, t, roll);
    var d, n := t.base - s.base, |s.chains.prev|;
    var c, b := Lowered(s.chains, d), Again(s, t, roll);
    RefillIs(s, t, roll);
    LoweredParts(s.chains, d);
    AgainSize(s, t, roll);
    var q := b.lo + i + d;
    StringMoves(s, t, roll, q);
    assert t.chains.prev[Slot(q, n)] == Less(s.chains.prev[Slot(q, n)], d);
    UndisturbedIs(c, b, i);
  }

  lemma AtPlace(s: Snap, t: Snap, roll: bool)
    requires Refills(s, t, roll)
    ensures t.v.strstart == s.v.strstart - (t.base - s.base) && s.base <= t.base
  {
    hide Refilled, LinksKept, HoldsInput;
  }

  lemma UndisturbedKept(s: Snap, t: Snap, roll: bool)
    requires Refills(s, t, roll) && s.rest > 0
    requires var c, b := Lowered(s.chains, t.base - s.base), Again(s, t, roll);
      InTable(b.hashes, |c.head|) && |c.prev| > 0 && forall i: nat :: i < |b.hashes| ==> Undisturbed(c, b, i)
    ensures Kept(s.chains.prev, t.chains.prev, t.base - s.base, s.v.strstart, s.v.strstart + MIN_LOOKAHEAD)
  {
    hide Lowered, Again, PutBatch, Undisturbed, Slot, SamePlace, LinksKept, HoldsInput, Refilled;
    AtPlace(s, t, roll);
    var d, n := t.base - s.base, |s.chains.prev|;
    var c, b := Lowered(s.chains, d), Again(s, t, roll);
    RefillIs(s, t, roll);
    LoweredParts(s.chains, d);
    AgainSize(s, t, roll);
    BatchSize(c, b);
    forall q: nat | q < s.v.strstart && s.v.strstart + MIN_LOOKAHEAD <= q + n
      ensures t.chains.prev[Slot(q, n)] == Less(s.chains.prev[Slot(q, n)], d)
    {
      StringMoves(s, t, roll, q);
      if b.lo <= q - d < b.lo + |b.hashes| { UndisturbedIs(c, b, q - d - b.lo); } else { BatchOthers(c, b, q - d); }
    }
  }

  lemma BatchSize(c: Chains, b: Batch)
    requires InTable(b.hashes, |c.head|) && |c.prev| > 0
    ensures |PutBatch(c, b).prev| == |c.prev| && |PutBatch(c, b).head| == |c.head|
  {
  }

  lemma BatchOthers(c: Chains, b: Batch, q: nat)
    requires InTable(b.hashes, |c.head|) && |c.prev| > 0
    requires (q < b.lo && b.lo + |b.hashes| <= q + |c.prev|) || b.lo + |b.hashes| <= q < b.lo + |c.prev|
    ensures PutBatch(c, b).prev[Slot(q, |c.prev|)] == c.prev[Slot(q, |c.prev|)]
  {
    PutAllOthers(c, b.hashes, b.lo, q);
  }

  // ---- a condition on the state before the refill ----

  /** The string has been inserted, and a chain leads to it. */
  ghost predicate Enters(c: Chains, q: nat) { q > 0 && (q in c.head || q in c.prev) }

  /** The strings that a refill inserts again and the length of what is hashed. */
  function FirstAgain(v: Vars, roll: bool): (q: int) { v.strstart - v.insert - (if roll then 0 else 1) }
  function Hashed(roll: bool): (n: nat) { if roll then STD_MIN_MATCH else WANT_MIN_MATCH }

  /** None of the strings that a refill inserts again has been inserted before all bytes of its hash were input. */
  ghost predicate NoneEarly(s: Snap, roll: bool)
  {
    forall q: nat :: Enters(s.chains, q) && FirstAgain(s.v, roll) <= q ==>
      q + Hashed(roll) <= s.v.strstart + s.v.lookahead
  }

  /** The string before the current one, if all bytes of its hash are input, heads its chain. */
  ghost predicate LastFiled(s: Snap)
  {
    s.v.strstart >= 1 && s.v.strstart + s.v.lookahead >= s.v.strstart - 1 + WANT_MIN_MATCH ==>
      IsFirst(s.chains.head, s.w, s.v.strstart - 1)
  }

  /** With those two, every string in reach to which a chain leads keeps its link. */
  lemma NoneLost(s: Snap, t: Snap, roll: bool, q: nat)
    requires Refills(s, t, roll) && NoneEarly(s, roll) && (roll || LastFiled(s))
    requires Enters(s.chains, q) && s.v.strstart + MIN_LOOKAHEAD <= q + |s.chains.prev|
    ensures |t.chains.prev| == |s.chains.prev|
    ensures var i := Slot(q, |s.chains.prev|); t.chains.prev[i] == Less(s.chains.prev[i], t.base - s.base)
  {
    hide Lowered, Again, PutBatch, Slot, SamePlace, LinksKept, HoldsInput, Refilled, HashKnuth, Load32;
    AtPlace(s, t, roll);
    var d, n := t.base - s.base, |s.chains.prev|;
    StringMoves(s, t, roll, q);
    LoweredParts(s.chains, d);
    if s.rest == 0 {
      NothingRead(s, t, roll);
    } else {
      var c, b := Lowered(s.chains, d), Again(s, t, roll);
      RefillIs(s, t, roll);
      AgainSize(s, t, roll);
      BatchSize(c, b);
      AgainFrom(s, t, roll);
      if q - d < b.lo {
        BatchOthers(c, b, q - d);
      } else {
        assert s.v.insert == 0;
        AgainOne(s, t, roll);
        if b.lo + |b.hashes| <= q - d {
          BatchOthers(c, b, q - d);
        } else {
          LastStays(s, t, NewWindow(s, t, roll));
          FirstTurn(c, b);
          UndisturbedIs(c, b, 0);
        }
      }
    }
  }

  lemma NothingRead(s: Snap, t: Snap, roll: bool)
    requires Refilled(s, t, roll) && s.rest == 0
    ensures t.chains == Lowered(s.chains, t.base - s.base)
  {
    hide Lowered, LeftOver, PutBatch, Over;
  }

  lemma AgainFrom(s: Snap, t: Snap, roll: bool)
    requires Refills(s, t, roll)
    ensures FirstAgain(s.v, roll) <= Again(s, t, roll).lo + (t.base - s.base)
  {
    hide Lowered, PutBatch, Over, HashRoll, KnuthHashes, RollHashes, HoldsInput, Kept;
    LeftOverRange(NewWindow(s, t, roll), t.v.(insert := s.v.insert), roll);
  }

  /** If nothing was left over, only the string before the current one is inserted again. */
  lemma AgainOne(s: Snap, t: Snap, roll: bool)
    requires Refilled(s, t, roll) && s.v.insert == 0
    ensures var b, w := Again(s, t, roll), NewWindow(s, t, roll);
      b.hashes == [] ||
      (!roll && b.lo + 1 == t.v.strstart && b.lo + 4 <= |w| && b.hashes == [HashKnuth(Load32(w, b.lo))])
  {
    hide Lowered, PutBatch, Over, HashRoll, HashKnuth, Load32;
    if !roll && t.v.strstart >= 1 { KnuthOne(NewWindow(s, t, roll), t.v.strstart - 1); }
  }

  lemma KnuthOne(w: seq<nat>, str: nat)
    requires str + 4 <= |w|
    ensures KnuthHashes(w, str, 0) == [] && KnuthHashes(w, str, 1) == [HashKnuth(Load32(w, str))]
  {
    hide HashKnuth, Load32;
  }

  lemma FirstTurn(c: Chains, b: Batch)
    requires InTable(b.hashes, |c.head|) && |c.prev| > 0 && |b.hashes| >= 1 && c.head[b.hashes[0]] == b.lo
    ensures Undisturbed(c, b, 0)
  {
  }

  /** The string before the current one has the same hash with the new input, and still heads its chain. */
  lemma LastStays(s: Snap, t: Snap, w: seq<nat>)
    requires Refills(s, t, false) && LastFiled(s) && s.v.strstart >= 1 && s.v.lookahead >= 3 && Holds(t, w)
    ensures |w| == |s.w| ==> IsFirst(Lowered(s.chains, t.base - s.base).head, w, t.v.strstart - 1)
    ensures t.v.strstart >= 1
  {
    hide Lowered, PutBatch, Over, HashKnuth, Load32, LeftOver, Kept;
    var d := t.base - s.base;
    LoweredParts(s.chains, d);
    SameBytes(s, t, w, s.v.strstart - 1);
  }

  /** A string whose bytes are input has the same bytes after a refill. */
  lemma SameBytes(s: Snap, t: Snap, w: seq<nat>, q: nat)
    requires HoldsInput(s.w, s.v, s.input, s.base) && s.input <= t.input && s.base <= t.base <= s.base + q
    requires Holds(t, w)
    requires q + 4 <= s.v.strstart + s.v.lookahead
    ensures q + 4 <= |s.w| && q - (t.base - s.base) + 4 <= |w|
    ensures Load32(s.w, q) == Load32(w, q - (t.base - s.base))
  {
    var n, m, p := s.v.strstart + s.v.lookahead, |t.input| - t.base, q - (t.base - s.base);
    SubSlice(s.w, 0, n, q, q + 4);
    SubSlice(s.input, s.base, |s.input|, q, q + 4);
    assert s.input[s.base..] == s.input[s.base..|s.input|] && t.input[t.base..] == t.input[t.base..|t.input|];
    SubSlice(w, 0, m, p, p + 4);
    SubSlice(t.input, t.base, |t.input|, p, p + 4);
    assert s.input == t.input[..|s.input|] && s.input == s.input[..|s.input|];
    SamePart(s.input, t.input, |s.input|, s.base + q, s.base + q + 4);
    SameLoad(s.w, q, w, p);
  }

  lemma SameLoad(w: seq<nat>, i: nat, w': seq<nat>, j: nat)
    requires i + 4 <= |w| && j + 4 <= |w'| && w[i..i + 4] == w'[j..j + 4]
    ensures Load32(w, i) == Load32(w', j)
  {
    var x, y := w[i..i + 4], w'[j..j + 4];
    assert x[0] == w[i] && x[1] == w[i + 1] && x[2] == w[i + 2] && x[3] == w[i + 3];
    assert y[0] == w'[j] && y[1] == w'[j + 1] && y[2] == w'[j + 2] && y[3] == w'[j + 3];
  }

  /** The last string that is inserted again is the one before the current one. */
  lemma AgainLast(s: Snap, t: Snap)
    requires Refilled(s, t, false) && t.v.strstart >= 1 && t.v.lookahead >= 3
    ensures var b, w, last := Again(s, t, false), NewWindow(s, t, false), t.v.strstart - 1;
      b.lo <= last && last + 4 <= |w| && |b.hashes| == last + 1 - b.lo &&
      b.hashes[last - b.lo] == HashKnuth(Load32(w, last))
  {
    hide Lowered, PutBatch, Over, HashRoll, HashKnuth, Load32;
    var b, w := Again(s, t, false), NewWindow(s, t, false);
    KnuthOn(w, b.lo, t.v.strstart - 1 - b.lo);
  }

  lemma BatchFiles(c: Chains, b: Batch)
    requires InTable(b.hashes, |c.head|) && |c.prev| > 0 && b.hashes != []
    ensures |PutBatch(c, b).head| == |c.head|
    ensures PutBatch(c, b).head[b.hashes[|b.hashes| - 1]] == b.lo + |b.hashes| - 1
  {
  }

  /** After a refill the string before the current one heads its chain, if it did before or anything was read. */
  lemma RefillFiles(s: Snap, t: Snap)
    requires Refills(s, t, false) && (LastFiled(s) || s.rest > 0)
    ensures LastFiled(t)
  {
    hide Lowered, PutBatch, Over, HashKnuth, Load32, Refilled, LinksKept, Again;
    if t.v.strstart >= 1 && t.v.lookahead >= 3 {
      if s.rest == 0 {
        NothingRead(s, t, false);
        SameWidth(s, t, false);
        LastStays(s, t, t.w);
      } else {
        var c, b, w := Lowered(s.chains, t.base - s.base), Again(s, t, false), NewWindow(s, t, false);
        RefillIs(s, t, false);
        LoweredParts(s.chains, t.base - s.base);
        AgainSize(s, t, false);
        AgainLast(s, t);
        BatchFiles(c, b);
        SameBytes(t, t, w, t.v.strstart - 1);
      }
    }
  }

  lemma SameWidth(s: Snap, t: Snap, roll: bool)
    requires Refilled(s, t, roll)
    ensures |s.w| == |t.w|
  {
    hide Lowered, LeftOver, PutBatch, Over;
  }

  /** Every string in reach to which a chain leads keeps its link. */
  ghost predicate LiveKept(s: Snap, t: Snap)
  {
    |t.chains.prev| == |s.chains.prev| > 0 && s.base <= t.base &&
    forall q: nat :: Enters(s.chains, q) && s.v.strstart + MIN_LOOKAHEAD <= q + |s.chains.prev| ==>
      t.chains.prev[Slot(q, |s.chains.prev|)] == Less(s.chains.prev[Slot(q, |s.chains.prev|)], t.base - s.base)
  }

  lemma AllLiveKept(s: Snap, t: Snap, roll: bool)
    requires Refills(s, t, roll) && NoneEarly(s, roll) && (roll || LastFiled(s))
    ensures LiveKept(s, t)
  {
    hide Refilled, LinksKept, HoldsInput, Slot, NoneEarly, LastFiled, Enters;
    AtPlace(s, t, roll);
    RefillSize(s, t, roll);
    forall q: nat | Enters(s.chains, q) && s.v.strstart + MIN_LOOKAHEAD <= q + |s.chains.prev|
      ensures t.chains.prev[Slot(q, |s.chains.prev|)] == Less(s.chains.prev[Slot(q, |s.chains.prev|)], t.base - s.base)
    {
      NoneLost(s, t, roll, q);
    }
  }

  lemma RefillSize(s: Snap, t: Snap, roll: bool)
    requires Refills(s, t, roll)
    ensures |t.chains.prev| == |s.chains.prev| >= 512
  {
    hide Refilled, HoldsInput, SamePlace;
  }

  /** A refill that reads nothing inserts nothing. */
  lemma NoneRead(s: Snap, t: Snap, roll: bool)
    requires Refills(s, t, roll) && s.rest == 0
    ensures LiveKept(s, t)
  {
    hide Refilled, LinksKept, HoldsInput, Slot, Lowered, Enters;
    AtPlace(s, t, roll);
    NothingRead(s, t, roll);
    LoweredParts(s.chains, t.base - s.base);
  }

  /** No flush has made the strategy go on to the end of the input: nothing is left over, and all bytes of the hash of
      the last string are input, if there is one. */
  predicate Unflushed(v: Vars) { v.insert == 0 && (v.lookahead >= WANT_MIN_MATCH - 1 || v.strstart == 0) }

  lemma UnflushedTurn(v: Vars, v': Vars)
    requires v'.insert == v.insert
    ensures Unflushed(v) && v'.lookahead >= 4 ==> Unflushed(v')
  {
  }

  lemma UnflushedSafe(lz: Lz, roll: bool)
    requires lz.Valid() && !lz.ahead && Unflushed(lz.v)
    ensures NoneEarly(lz.Now(), roll)
  {
    hide HoldsInput, Placed, Lz.Shape;
    var s := lz.Now();
    forall q: nat | Enters(s.chains, q) && FirstAgain(s.v, roll) <= q
      ensures q + Hashed(roll) <= s.v.strstart + s.v.lookahead
    {
      assert q < lz.v.strstart by { EntersBelow(s.chains, q, lz.v.strstart); }
    }
  }

  lemma EntersBelow(c: Chains, q: nat, bound: nat)
    requires Enters(c, q) && Below(c.head, bound) && Below(c.prev, bound)
    ensures q < bound
  {
  }

  lemma UnflushedFill(s: Snap, t: Snap, roll: bool)
    requires Refills(s, t, roll) && Unflushed(s.v) && (s.v.strstart > 0 || s.v.strstart < s.v.fillEnd)
    ensures Unflushed(t.v)
  {
    hide Lowered, PutBatch, LeftOver, Over, LinksKept;
  }

  lemma NowIs(lz: Lz)
    ensures lz.Now() == Snap(lz.v, lz.base, lz.input, |lz.nextIn|, lz.window[..], Chains(lz.head[..], lz.prev[..]))
  {
  }

  lemma SnapOf(lz: Lz)
    requires lz.Valid()
    ensures var s := lz.Now();
      HoldsInput(s.w, s.v, s.input, s.base) && FewLeft(s.v) && |s.chains.prev| >= 512
  {
    hide Below, HoldsInput, FillForm, Multiple;
  }

  lemma MakeRefills(s: Snap, t: Snap, roll: bool)
    requires Refilled(s, t, roll) && HoldsInput(s.w, s.v, s.input, s.base) && HoldsInput(t.w, t.v, t.input, t.base)
    requires s.input <= t.input && t.v.lookahead + t.rest == s.v.lookahead + s.rest && FewLeft(s.v)
    requires s.v.lookahead < MIN_LOOKAHEAD && |s.chains.prev| >= 512
    requires SamePlace(s.v, s.base, t.v, t.base) && LinksKept(s.chains.prev, t.chains.prev, s.v, t.base - s.base)
    ensures Refills(s, t, roll)
  {
    hide Refilled, HoldsInput, SamePlace, LinksKept;
  }
}
