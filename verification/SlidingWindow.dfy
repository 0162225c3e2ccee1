/** deflate.c fill_window, lm_init and deflate_p.h read_buf: a buffer that always holds a contiguous part of the input
    and slides down when it is full. */
module SlidingWindow {
  import opened Arith
  import opened Bits
  import opened HashFunctions
  import opened MatchFinder
  import opened HashChains

  /** Where reads stop: whole windows, less the lookahead. */
  ghost predicate FillForm(fillEnd: nat, wSize: nat) { exists j: nat :: j >= 2 && fillEnd + MIN_LOOKAHEAD == j * wSize }

  lemma FillNext(fillEnd: nat, wSize: nat)
    requires FillForm(fillEnd, wSize)
    ensures FillForm(fillEnd + wSize, wSize)
  {
    var j: nat :| j >= 2 && fillEnd + MIN_LOOKAHEAD == j * wSize;
    assert fillEnd + wSize + MIN_LOOKAHEAD == (j + 1) * wSize;
  }

  ghost predicate Multiple(a: nat, b: nat) { exists k: nat :: k >= 2 && a == k * b }

  /** Two multiples of wSize less than wSize apart are equal. */
  lemma FillStep(fillEnd: nat, wSize: nat, windowSize: nat)
    requires FillForm(fillEnd, wSize) && Multiple(windowSize, wSize) && fillEnd + MIN_LOOKAHEAD > windowSize &&
      wSize > 0
    ensures fillEnd + MIN_LOOKAHEAD >= windowSize + wSize
  {
    var k: nat :| k >= 2 && windowSize == k * wSize;
    var j: nat :| j >= 2 && fillEnd + MIN_LOOKAHEAD == j * wSize;
    if j <= k { MulLe(j, k, wSize); } else { MulLt(k, j, wSize); }
  }

  lemma FillFirst(wSize: nat)
    requires 2 * wSize >= MIN_LOOKAHEAD
    ensures FillForm(2 * wSize - MIN_LOOKAHEAD, wSize)
  {
  }

  /** The slide of a full buffer, (strstart - MAX_DIST) & ~W_MASK: all but one window of it. */
  method SlideLength(strstart: nat, wSize: nat, ghost windowSize: nat) returns (n: nat)
    requires wSize > MIN_LOOKAHEAD && Multiple(windowSize, wSize) && windowSize <= strstart + MIN_LOOKAHEAD &&
      strstart < windowSize
    ensures n == windowSize - wSize && n % wSize == 0
  {
    ghost var k: nat :| k >= 2 && windowSize == k * wSize;
    MulLe(2, k, wSize);
    var x := strstart - (wSize - MIN_LOOKAHEAD);
    Distrib(k, -1, wSize);
    Quotient(x, k - 1, wSize);
    n := x / wSize * wSize;
    WholeMod(x / wSize, wSize);
  }

  lemma WholeMod(q: nat, z: nat)
    requires z > 0
    ensures q * z % z == 0
  {
    DivMul(q * z, z);
    Between(q, q * z / z, q * z - q * z / z * z, z);
  }

  lemma Quotient(x: nat, q: nat, z: nat)
    requires z > 0 && q * z <= x < q * z + z
    ensures x / z == q
  {
    DivMul(x, z);
    Between(q, x / z, x - x / z * z, z);
  }

  /** The fields of deflate_state that place the current string in the window. */
  datatype Vars = Vars(strstart: nat, lookahead: nat, fillEnd: nat, blockStart: int, matchStart: nat, prevLength: nat,
                       insert: nat, insH: nat, highWater: nat)

  /** The window holds the end of the input, from base on, and what is still to be compressed starts at strstart. */
  ghost predicate HoldsInput(w: seq<nat>, v: Vars, input: seq<nat>, base: nat)
  {
    v.strstart + v.lookahead <= |w| && |input| == base + v.strstart + v.lookahead &&
      w[..v.strstart + v.lookahead] == input[base..]
  }

  /** Strings are left over only if the input ends less than three bytes behind the first of them. */
  predicate FewLeft(v: Vars) { v.insert <= v.strstart && (v.insert == 0 || v.insert + v.lookahead < STD_MIN_MATCH) }

  /** Reads stop at fillEnd plus the lookahead, where a buffer of two windows would end. */
  ghost predicate InBuffer(v: Vars, wSize: nat, windowSize: nat, base: nat)
  {
    FillForm(v.fillEnd, wSize) && v.fillEnd + MIN_LOOKAHEAD <= windowSize &&
    v.strstart + v.lookahead <= v.fillEnd + MIN_LOOKAHEAD && 0 <= base + v.blockStart && v.blockStart <= v.strstart
  }

  ghost predicate Placed(v: Vars, wSize: nat, windowSize: nat, base: nat)
  {
    InBuffer(v, wSize, windowSize, base) && FewLeft(v)
  }

  /** The fields after a slide by n. */
  function Slid(v: Vars, n: nat): (v': Vars)
    requires n <= v.strstart && n <= v.fillEnd
  {
    var w := v.(strstart := v.strstart - n, blockStart := v.blockStart - n, fillEnd := v.fillEnd - n,
                matchStart := if v.matchStart >= n then v.matchStart - n else 0,
                prevLength := if v.matchStart >= n then v.prevLength else 0);
    w.(insert := if w.insert > w.strstart then w.strstart else w.insert)
  }

  /** What every link stays below: the current string, or for a strategy that searches ahead of it the end of the
      data. */
  function Reach(v: Vars, ahead: bool): (n: nat)
  {
    if ahead then (if v.strstart > v.fillEnd then v.strstart else v.fillEnd) + 1 else v.strstart
  }

  /** Where reads stop, as a place of the input, before MIN_LOOKAHEAD is added: it moves on by one window when the
      string reaches it, as the end of a buffer of two windows does when that buffer slides. */
  function NextLimit(place: nat, limit: nat, w: nat): (l: nat) { if place >= limit then limit + w else limit }

  /** How much a refill reads: all there is, or up to the limit. */
  function ReadCount(place: nat, limit: nat, lookahead: nat, rest: nat): (n: int)
  {
    var room := limit + MIN_LOOKAHEAD - lookahead - place;
    if rest < room then rest else room
  }

  /** Links are kept by a refill for every string from which a match may start, except for those that are inserted
      again. */
  ghost predicate LinksKept(p: seq<nat>, p': seq<nat>, v: Vars, d: int)
  {
    0 <= d && |p| > 0 && d % |p| == 0 && Kept(p, p', d, v.strstart - v.insert - 1, v.strstart + MIN_LOOKAHEAD)
  }

  /** The same place in the input, before and after a slide or a read. */
  ghost predicate SamePlace(v: Vars, base: nat, v': Vars, base': nat)
  {
    base' + v'.strstart == base + v.strstart && base' + v'.blockStart == base + v.blockStart && base <= base' &&
    (base == base' || v'.strstart > 0) &&
    ((base' + v'.matchStart == base + v.matchStart && v'.prevLength == v.prevLength) ||
      (v'.matchStart == 0 && v'.prevLength == 0))
  }

  ghost predicate ReadUp(v: Vars, rest: nat) { rest == 0 || v.strstart + v.lookahead == v.fillEnd + MIN_LOOKAHEAD }

  predicate AllZero(s: seq<nat>) { forall i :: 0 <= i < |s| ==> s[i] == 0 }

  // ---- what a refill does, on values ----

  /** A window with all that belongs to it, as a value. */
  datatype Snap = Snap(v: Vars, base: nat, input: seq<nat>, rest: nat, w: seq<nat>, chains: Chains)

  /** The bytes of w with data over its start. */
  function Over(w: seq<nat>, data: seq<nat>): (w': seq<nat>)
    requires |data| <= |w|
    ensures |w'| == |w|
  {
    data + w[|data|..]
  }

  lemma OverOver(w: seq<nat>, x: seq<nat>, y: seq<nat>)
    requires |x| <= |y| <= |w|
    ensures Over(Over(w, x), y) == Over(w, y)
  {
    assert Over(w, x)[|y|..] == w[|y|..];
  }

  /** Strings that are inserted one after the other, from lo on, and their hashes. */
  datatype Batch = Batch(lo: nat, hashes: seq<nat>)

  /** The strings that are inserted once there is more input: those that were left over, but for the last one if a
      single byte follows, and with the four-byte hash also the one before them. */
  function LeftOver(w: seq<nat>, v: Vars, roll: bool): (b: Batch)
    requires v.insert <= v.strstart && v.strstart + 3 <= |w|
    ensures InTable(b.hashes, HASH_SIZE) && v.strstart - v.insert - 1 <= b.lo && b.lo + |b.hashes| <= v.strstart
  {
    if v.lookahead + v.insert < STD_MIN_MATCH then Batch(v.strstart, [])
    else
      var str, end := v.strstart - v.insert, if v.lookahead == 1 then v.strstart - 1 else v.strstart;
      if roll then Batch(str, RollHashes(w, HashRoll(w[str], w[str + 1]), str, end - str))
      else
        var lo := if str >= 1 then str - 1 else str;
        Batch(lo, KnuthHashes(w, lo, end - lo))
  }

  ghost predicate Sized(c: Chains) { |c.head| == HASH_SIZE && |c.prev| > 0 }

  function PutBatch(c: Chains, b: Batch): (c': Chains)
    requires InTable(b.hashes, |c.head|) && |c.prev| > 0
  {
    PutAll(c, b.hashes, b.lo)
  }

  lemma {:induction false} KnuthFront(w: seq<nat>, str: nat, n: nat)
    requires str + n + 4 <= |w|
    ensures KnuthHashes(w, str, n + 1) == [HashKnuth(Load32(w, str))] + KnuthHashes(w, str + 1, n)
  {
    hide HashKnuth, Load32;
    if n > 0 { KnuthFront(w, str, n - 1); }
  }

  /** One string, and then n more. */
  lemma PutThenAll(c: Chains, w: seq<nat>, str: nat, n: nat)
    requires Sized(c) && str + n + 4 <= |w|
    ensures var d := Put(c, HashKnuth(Load32(w, str)), str);
      PutAll(d, KnuthHashes(w, str + 1, n), str + 1) == PutAll(c, KnuthHashes(w, str, n + 1), str)
  {
    hide HashKnuth, Load32, Put, KnuthHashes;
    KnuthFront(w, str, n);
    var h, hs := HashKnuth(Load32(w, str)), KnuthHashes(w, str, n + 1);
    KnuthSize(w, str, n + 1);
    KnuthSize(w, str + 1, n);
    PutAllSplit(c, hs, str, 1);
    assert hs[..1] == [] + [h] && hs[1..] == KnuthHashes(w, str + 1, n);
    PutAllOn(c, [], str, h);
  }

  lemma KnuthSize(w: seq<nat>, str: nat, n: nat)
    requires str + n + 3 <= |w|
    ensures |KnuthHashes(w, str, n)| == n && InTable(KnuthHashes(w, str, n), HASH_SIZE)
  {
  }

  lemma RollSize(w: seq<nat>, h: nat, str: nat, n: nat)
    requires str + n + 2 <= |w|
    ensures |RollHashes(w, h, str, n)| == n && InTable(RollHashes(w, h, str, n), HASH_SIZE)
  {
  }

  /** A refill is under way from s to t: the data end has been moved, perhaps by a slide; then nothing has been read, or
      all that could be, and the strings that were left over have been inserted. */
  ghost predicate Filling(s: Snap, t: Snap, wSize: nat, roll: bool)
  {
    Moved(s, t, wSize) && s.v.lookahead <= t.v.lookahead && t.v.lookahead + t.rest == s.v.lookahead + s.rest &&
    t.v.insert <= s.v.insert &&
    if t.rest == s.rest then t.v.insert == s.v.insert && t.chains == Lowered(s.chains, t.base - s.base)
    else
      ReadUp(t.v, t.rest) && s.rest > 0 &&
      t.chains == PutBatch(Lowered(s.chains, t.base - s.base), LeftOver(t.w, t.v.(insert := s.v.insert), roll))
  }

  /** The data end has been moved and the same input stands in the window, at the same place. */
  ghost predicate Moved(s: Snap, t: Snap, wSize: nat)
  {
    SamePlace(s.v, s.base, t.v, t.base) && t.v.strstart < t.v.fillEnd &&
    t.base + t.v.fillEnd == NextLimit(s.base + s.v.strstart, s.base + s.v.fillEnd, wSize) &&
    wSize > 0 && (t.base - s.base) % wSize == 0 && Sized(s.chains) && |s.chains.prev| == wSize &&
    s.v.insert <= t.v.strstart && t.v.strstart + 3 <= |t.w| &&
    (s.base == t.base || t.v.strstart + MIN_LOOKAHEAD >= wSize) &&
    (s.v.strstart < s.v.fillEnd ==> s.base == t.base && s.v.fillEnd == t.v.fillEnd) &&
    t.base <= |t.input| && |t.input| - t.base <= |s.w| && t.w == Over(s.w, t.input[t.base..])
  }

  lemma MovedPlace(s: Snap, t: Snap, wSize: nat)
    requires Moved(s, t, wSize)
    ensures SamePlace(s.v, s.base, t.v, t.base)
  {
    hide SamePlace, Over, NextLimit;
  }

  lemma FillingStart(s: Snap, t: Snap, wSize: nat, roll: bool)
    requires Moved(s, t, wSize) && t.v.lookahead == s.v.lookahead && t.rest == s.rest && t.v.insert == s.v.insert
    requires t.chains == Lowered(s.chains, t.base - s.base)
    ensures Filling(s, t, wSize, roll)
  {
    hide Moved, Lowered;
  }

  lemma FillingRead(s: Snap, t: Snap, t1: Snap, t2: Snap, wSize: nat, roll: bool)
    requires Filling(s, t, wSize, roll) && t.v.lookahead < MIN_LOOKAHEAD && t.rest > 0
    requires t1.v == t.v.(lookahead := t1.v.lookahead) && t1.v.lookahead > t.v.lookahead
    requires t1.v.lookahead + t1.rest == t.v.lookahead + t.rest && ReadUp(t1.v, t1.rest) && t1.base == t.base
    requires t.base <= |t1.input| && |t.input| <= |t1.input| && |t1.input| - t.base <= |t.w|
    requires t1.w == Over(t.w, t1.input[t.base..]) && t1.chains == t.chains && Sized(t.chains)
    requires t1.v.insert <= t1.v.strstart && t1.v.strstart + 3 <= |t1.w|
    requires t2 == t1.(v := t1.v.(insert := t2.v.insert, insH := t2.v.insH), chains := t2.chains)
    requires t2.v.insert <= t1.v.insert
    requires t2.chains == PutBatch(t1.chains, LeftOver(t1.w, t1.v, roll))
    ensures Filling(s, t2, wSize, roll)
  {
    hide PutBatch, LeftOver, Over, SamePlace, NextLimit;
    assert t.rest == s.rest;
    PlaceIs(s.v, s.base, t.v, t.base);
    LoweredParts(s.chains, t.base - s.base);
    SamePlaceKept(s.v, s.base, t.v, t2.v, t.base);
    OverOver(s.w, t.input[t.base..], t1.input[t.base..]);
    LeftOverSame(t1.w, t1.v, t2.v.(insert := s.v.insert), roll);
  }

  lemma PlaceIs(u: Vars, a: nat, v: Vars, b: nat)
    requires SamePlace(u, a, v, b)
    ensures b + v.strstart == a + u.strstart && a <= b
  {
  }

  /** All bytes that the search may look at behind the data have been written at some time. */
  predicate FarEnough(v: Vars, windowSize: nat)
  {
    v.highWater >= windowSize || v.highWater >= v.strstart + v.lookahead + STD_MAX_MATCH
  }

  /** The bytes behind the data and behind the old high water mark, as many of the next 258 as there are, become zero;
      all others stay, and the mark moves behind them. */
  ghost predicate Wet(w: seq<nat>, w': seq<nat>, v: Vars, v': Vars)
  {
    var curr := v.strstart + v.lookahead;
    var end := if curr + STD_MAX_MATCH < |w| then curr + STD_MAX_MATCH else |w|;
    |w'| == |w| && v'.highWater == (if v.highWater < end then end else v.highWater) &&
    forall i :: 0 <= i < |w| ==> w'[i] == if curr <= i < end && v.highWater <= i then 0 else w[i]
  }

  lemma WetEnough(w: seq<nat>, w': seq<nat>, v: Vars, v': Vars, windowSize: nat)
    requires Wet(w, w', v, v') && |w| == windowSize
    requires (v'.strstart, v'.lookahead) == (v.strstart, v.lookahead)
    ensures FarEnough(v', windowSize)
  {
  }

  /** What a refill from s to t does to the chains and to the bytes behind the data: everything is lowered by the
      slide, and if there was anything to read the strings that were left over are inserted again, one by one. */
  ghost predicate Refilled(s: Snap, t: Snap, roll: bool)
  {
    s.base <= t.base <= |t.input| && |t.input| - t.base <= |s.w| == |t.w| && Sized(s.chains) &&
    s.v.insert <= t.v.strstart && t.v.strstart + 3 <= |s.w| &&
    var c := Lowered(s.chains, t.base - s.base);
    t.chains == (if s.rest == 0 then c
                 else PutBatch(c, LeftOver(Over(s.w, t.input[t.base..]), t.v.(insert := s.v.insert), roll))) &&
    (forall i :: |t.input| - t.base <= i < |t.w| ==> t.w[i] == 0 || t.w[i] == s.w[i]) &&
    (s.base == t.base || t.v.strstart + MIN_LOOKAHEAD >= |s.chains.prev|) && t.v.insert <= s.v.insert &&
    (s.v.strstart < s.v.fillEnd ==> s.base == t.base && s.v.fillEnd == t.v.fillEnd)
  }

  /** The refill is complete. */
  lemma FillingDone(s: Snap, t: Snap, wSize: nat, roll: bool)
    requires Filling(s, t, wSize, roll) && (t.v.lookahead >= MIN_LOOKAHEAD || t.rest == 0) &&
      s.v.lookahead < MIN_LOOKAHEAD
    requires t.v.strstart + t.v.lookahead <= t.v.fillEnd + MIN_LOOKAHEAD
    ensures SamePlace(s.v, s.base, t.v, t.base) && s.v.lookahead <= t.v.lookahead &&
      t.base + t.v.fillEnd == NextLimit(s.base + s.v.strstart, s.base + s.v.fillEnd, wSize)
    ensures t.v.lookahead - s.v.lookahead == s.rest - t.rest ==
            ReadCount(s.base + s.v.strstart, t.base + t.v.fillEnd, s.v.lookahead, s.rest)
  {
    hide PutBatch, LeftOver, Lowered, SamePlace, Over;
    PlaceIs(s.v, s.base, t.v, t.base);
  }

  lemma FillingRefilled(s: Snap, t: Snap, t': Snap, wSize: nat, roll: bool)
    requires Filling(s, t, wSize, roll) && (t.v.lookahead >= MIN_LOOKAHEAD || t.rest == 0) &&
      s.v.lookahead < MIN_LOOKAHEAD
    requires t'.v == t.v.(highWater := t'.v.highWater) && t' == t.(v := t'.v, w := t'.w)
    requires |t.input| == t.base + t.v.strstart + t.v.lookahead && Zeroed(t.w, t'.w, t.v.strstart + t.v.lookahead)
    ensures Refilled(s, t', roll)
  {
    hide PutBatch, LeftOver, Lowered, NextLimit;
    LeftOverSame(t.w, t.v.(insert := s.v.insert), t'.v.(insert := s.v.insert), roll);
    assert t.rest == s.rest ==> s.rest == 0;
    assert s.base <= t.base;
    assert forall i :: |t.input| - t.base <= i < |t.w| ==> t.w[i] == s.w[i];
    assert forall i :: |t.input| - t.base <= i < |t.w| ==> t'.w[i] == 0 || t'.w[i] == s.w[i];
  }

  lemma LeftOverSame(w: seq<nat>, v: Vars, v': Vars, roll: bool)
    requires v.insert <= v.strstart && v.strstart + 3 <= |w|
    requires (v'.strstart, v'.lookahead, v'.insert) == (v.strstart, v.lookahead, v.insert)
    ensures LeftOver(w, v, roll) == LeftOver(w, v', roll)
  {
    hide HashRoll, RollHashes, KnuthHashes;
  }

  /** A refill keeps the links of all strings in reach that it does not insert again. */
  lemma FillingKeeps(s: Snap, t: Snap, wSize: nat, roll: bool)
    requires Filling(s, t, wSize, roll)
    ensures LinksKept(s.chains.prev, t.chains.prev, s.v, t.base - s.base)
  {
    hide Kept, LeftOver, Lowered, SamePlace, NextLimit, PutAll;
    var d, lo, hi := t.base - s.base, s.v.strstart - s.v.insert - 1, s.v.strstart + MIN_LOOKAHEAD;
    PlaceIs(s.v, s.base, t.v, t.base);
    var c := Lowered(s.chains, d);
    LoweredParts(s.chains, d);
    LoweredKeeps(s.chains, d, lo, hi);
    if t.rest != s.rest {
      var v := t.v.(insert := s.v.insert);
      var b := LeftOver(t.w, v, roll);
      LeftOverRange(t.w, v, roll);
      PutAllKeeps(c, b.hashes, b.lo);
      KeptLess(c.prev, t.chains.prev, 0, b.lo, b.lo + |b.hashes|, lo - d, hi - d);
      if d != 0 { KeptShift(c.prev, t.chains.prev, 0, lo, hi, d); }
      KeptJoin(s.chains.prev, c.prev, t.chains.prev, d, 0, lo, hi);
    }
  }

  lemma LeftOverRange(w: seq<nat>, v: Vars, roll: bool)
    requires v.insert <= v.strstart && v.strstart + 3 <= |w|
    ensures var b := LeftOver(w, v, roll);
      InTable(b.hashes, HASH_SIZE) && v.strstart - v.insert - 1 <= b.lo && b.lo + |b.hashes| <= v.strstart
  {
  }

  class Lz {
    const wSize: nat
    const windowSize: nat
    const window: array<nat>
    const head: array<nat>
    const prev: array<nat>
    const roll: bool
    ghost const ahead: bool
    var v: Vars
    var nextIn: seq<Byte>
    ghost var input: seq<nat>
    ghost var base: nat

    ghost predicate Shape()
    {
      512 <= wSize && Multiple(windowSize, wSize) && 2 * wSize <= windowSize <= 65536 && window.Length == windowSize &&
      head.Length == HASH_SIZE && prev.Length == wSize && head != prev && head != window && prev != window
    }

    ghost predicate Sound()
      reads this, window
    {
      Shape() && HoldsInput(window[..], v, input, base) && Placed(v, wSize, windowSize, base)
    }

    /** No link reaches the current string or a later one, unless the strategy looks ahead. */
    ghost predicate Valid()
      reads this, window, head, prev
    {
      Sound() && Below(head[..], Reach(v, ahead)) && Below(prev[..], Reach(v, ahead))
    }

    ghost predicate RollsOn()
      reads this
    {
      Rolling(roll, input, base, v)
    }

    lemma MakeRollsOn()
      requires Rolling(roll, input, base, v)
      ensures RollsOn()
    {
      hide Rolling;
    }

    lemma ShapeParts()
      requires Shape()
      ensures 512 <= wSize && Multiple(windowSize, wSize) && 2 * wSize <= windowSize <= 65536
      ensures window.Length == windowSize && head.Length == HASH_SIZE == 65536 && prev.Length == wSize
      ensures head != prev && head != window && prev != window
    {
      hide Multiple;
    }

    lemma ValidParts()
      requires Valid()
      ensures Shape() && HoldsInput(window[..], v, input, base) && Placed(v, wSize, windowSize, base)
      ensures Below(head[..], Reach(v, ahead)) && Below(prev[..], Reach(v, ahead))
    {
      hide Shape, HoldsInput, Placed, Below, Reach;
    }

    lemma MakeValid()
      requires Shape() && HoldsInput(window[..], v, input, base) && Placed(v, wSize, windowSize, base)
      requires Below(head[..], Reach(v, ahead)) && Below(prev[..], Reach(v, ahead))
      ensures Valid()
    {
      hide Shape, HoldsInput, Placed, Below, Reach;
    }

    ghost function Now(): (s: Snap)
      reads this, window, head, prev
    {
      Snap(v, base, input, |nextIn|, window[..], Chains(head[..], prev[..]))
    }

    /** lm_init. */
    constructor (w: nat, size: nat, rolling: bool, data: seq<Byte>, ghost looks: bool)
      requires 512 <= w && Multiple(size, w) && 2 * w <= size <= 65536
      ensures Valid() && input == [] && base == 0 && nextIn == data &&
        v == Vars(0, 0, 2 * w - MIN_LOOKAHEAD, 0, 0, 0, 0, 0, 0)
      ensures AllZero(window[..]) && AllZero(head[..]) && AllZero(prev[..])
      ensures wSize == w && windowSize == size && roll == rolling && ahead == looks && fresh(window) && fresh(head) &&
        fresh(prev)
    {
      wSize, windowSize, roll := w, size, rolling;
      window := new nat[size](_ => 0);
      head := new nat[HASH_SIZE](_ => 0);
      prev := new nat[w](_ => 0);
      v := Vars(0, 0, 2 * w - MIN_LOOKAHEAD, 0, 0, 0, 0, 0, 0);
      nextIn, input, base, ahead := data, [], 0, looks;
      FillFirst(w);
    }

    /** memcpy inside of the window, to its start. */
    method MoveDown(from: nat, n: nat)
      requires n <= from && from + n <= window.Length
      modifies window
      ensures window[..] == Over(old(window[..]), old(window[from..from + n]))
    {
      ghost var w := window[..];
      for i := 0 to n
        invariant window[..i] == w[from..from + i] && window[i..] == w[i..]
      {
        assert window[i..][from] == w[i..][from];
        window[i] := window[from + i];
      }
    }

    /** The bytes move down by n, onto bytes that they do not overlap. */
    method SlideBytes(n: nat)
      requires HoldsInput(window[..], v, input, base) && n <= v.strstart && n <= v.fillEnd
      requires v.strstart + v.lookahead - n <= n <= v.strstart + v.lookahead
      modifies window
      ensures HoldsInput(window[..], Slid(v, n), input, base + n)
      ensures base + n <= |input| && |input| - (base + n) <= window.Length
      ensures window[..] == Over(old(window[..]), input[base + n..])
    {
      hide *;
      var end := v.strstart + v.lookahead;
      HoldsParts(window[..], v, input, base);
      ghost var w, data := window[..], input[base + n..];
      Shifted(w, input, base, n, end);
      assert window[n..end] == w[n..end];
      MoveDown(n, end - n);
      OverStart(w, data);
      SlidHolds(window[..], v, input, base, n);
    }

    /** The slide of fill_window. The parts of the buffer do not overlap, at least MAX_DIST bytes of history stay, and
        every position keeps its place in the input. */
    method Slide()
      requires Shape() && HoldsInput(window[..], v, input, base)
      requires Below(head[..], Reach(v, ahead)) && Below(prev[..], Reach(v, ahead))
      requires SlideDue(v, wSize, windowSize, base)
      modifies this, window, head, prev
      ensures Valid() && input == old(input) && nextIn == old(nextIn) && v.lookahead == old(v.lookahead)
      ensures SamePlace(old(v), old(base), v, base) && v.strstart + MIN_LOOKAHEAD >= wSize && v.strstart < v.fillEnd
      ensures base + v.fillEnd == old(base + v.fillEnd) && base > old(base) && (base - old(base)) % wSize == 0
      ensures (v.insert, v.insH, v.highWater) == (old(v.insert), old(v.insH), old(v.highWater))
      ensures Chains(head[..], prev[..]) == Lowered(old(Chains(head[..], prev[..])), base - old(base))
      ensures base <= |input| && |input| - base <= windowSize && window[..] == Over(old(window[..]), input[base..])
    {
      hide *;
      Sizes();
      ShapeParts();
      DueParts(v, wSize, windowSize, base);
      var n := SlideLength(v.strstart, wSize, windowSize);
      SlidPlaced(v, wSize, windowSize, base);
      SlidReach(v, n, ahead);
      SlideBytes(n);
      SlideHash(head, prev, n, Reach(v, ahead));
      v := Slid(v, n);
      base := base + n;
      MakeValid();
    }

    /** Advance the data end the way a buffer of two windows slides, and slide if that is past the end of this one. */
    method Advance()
      requires Valid() && v.lookahead < MIN_LOOKAHEAD && v.strstart < v.fillEnd + MIN_LOOKAHEAD
      modifies this, window, head, prev
      ensures Valid() && input == old(input) && nextIn == old(nextIn) && v.lookahead == old(v.lookahead)
      ensures v.strstart < v.fillEnd && Moved(old(Now()), Now(), wSize) && v.insert == old(v.insert)
      ensures v.insH == old(v.insH)
      ensures Chains(head[..], prev[..]) == Lowered(old(Chains(head[..], prev[..])), base - old(base))
      ensures old(v.strstart < v.fillEnd) ==> Now() == old(Now())
    {
      hide Below, FillForm, Multiple, SamePlace, HoldsInput, Lowered, Over;
      StaysInPlace(v, base);
      LoweredNone(Chains(head[..], prev[..]));
      HoldsOver(window[..], v, input, base);
      if v.strstart >= v.fillEnd {
        FillNext(v.fillEnd, wSize);
        BelowMore(head[..], Reach(v, ahead), Reach(v.(fillEnd := v.fillEnd + wSize), ahead));
        BelowMore(prev[..], Reach(v, ahead), Reach(v.(fillEnd := v.fillEnd + wSize), ahead));
        SameHolds(window[..], v, v.(fillEnd := v.fillEnd + wSize), input, base);
        v := v.(fillEnd := v.fillEnd + wSize);
        MovedEnd(old(v), base, v.fillEnd);
      }
      if v.fillEnd + MIN_LOOKAHEAD > windowSize {
        FillStep(v.fillEnd, wSize, windowSize);
        ghost var v1 := v;
        Slide();
        SamePlaceOn(old(v), old(base), v1, old(base), v, base);
      }
    }

    /** read_buf. */
    method ReadBuf(at: nat, size: nat) returns (n: nat)
      requires at + size <= window.Length
      modifies this`nextIn, window
      ensures n <= size && n <= |old(nextIn)| && (n == size || n == |old(nextIn)|) && nextIn == old(nextIn)[n..]
      ensures window[..] == Over(old(window[..]), old(window[..at]) + old(nextIn)[..n])
    {
      n := if |nextIn| < size then |nextIn| else size;
      ghost var data, w := nextIn, window[..];
      for i := 0 to n
        invariant nextIn == data && window[..at + i] == w[..at] + data[..i] && window[at + i..] == w[at + i..]
      {
        window[at + i] := nextIn[i];
      }
      assert window[..] == window[..at + n] + window[at + n..];
      nextIn := nextIn[n..];
    }

    /** More input has been read, and the strings that were left over are still to be inserted. */
    ghost predicate Loaded()
      reads this, window, head, prev
    {
      Shape() && HoldsInput(window[..], v, input, base) && InBuffer(v, wSize, windowSize, base) &&
      v.insert <= v.strstart && v.strstart < v.fillEnd && v.lookahead > 0 && Below(head[..], Reach(v, ahead)) &&
      Below(prev[..], Reach(v, ahead))
    }

    lemma LoadedParts()
      requires Loaded()
      ensures Shape() && HoldsInput(window[..], v, input, base) && InBuffer(v, wSize, windowSize, base)
      ensures v.insert <= v.strstart && v.strstart + 3 <= windowSize && v.lookahead > 0
      ensures Below(head[..], Reach(v, ahead)) && Below(prev[..], Reach(v, ahead)) && v.strstart <= Reach(v, ahead)
    {
      hide Shape, HoldsInput, FillForm, Below;
    }

    lemma MakeLoaded()
      requires Shape() && HoldsInput(window[..], v, input, base) && InBuffer(v, wSize, windowSize, base)
      requires v.insert <= v.strstart && v.strstart < v.fillEnd && v.lookahead > 0
      requires Below(head[..], Reach(v, ahead)) && Below(prev[..], Reach(v, ahead))
      ensures Loaded()
    {
      hide Shape, HoldsInput, InBuffer, Below, Reach;
    }

    /** Read as much as the window takes; at least two bytes fit. */
    method ReadMore()
      requires Valid() && v.lookahead < MIN_LOOKAHEAD && v.strstart < v.fillEnd && nextIn != []
      modifies this, window
      ensures Loaded() && input + nextIn == old(input + nextIn) && old(input) <= input && |nextIn| < old(|nextIn|)
      ensures v == old(v).(lookahead := v.lookahead) && v.lookahead > old(v.lookahead) && base == old(base)
      ensures v.lookahead + |nextIn| == old(v.lookahead + |nextIn|) && ReadUp(v, |nextIn|)
      ensures base <= |input| && |input| - base <= windowSize && window[..] == Over(old(window[..]), input[base..])
    {
      hide *;
      Sizes();
      ValidParts();
      ShapeParts();
      ghost var u := v;
      PlacedParts(v, wSize, windowSize, base);
      var more := v.fillEnd + MIN_LOOKAHEAD - v.lookahead - v.strstart;
      assert more >= 2;
      ghost var data := nextIn;
      var end := v.strstart + v.lookahead;
      HoldsParts(window[..], v, input, base);
      assert window[..end] == window[..][..end];
      var n := ReadBuf(end, more);
      v := v.(lookahead := v.lookahead + n);
      ReadInput(input, data, base, n);
      input := input + data[..n];
      OverStart(old(window[..]), input[base..]);
      HoldsFrom(window[..], v, input, base);
      HasReadUp(v, |nextIn|);
      SameReach(u, v, ahead);
      NowInBuffer(u, v, wSize, windowSize, base);
      MakeLoaded();
    }

    /** Insert the strings that were left over for lack of input. */
    method InitHash()
      requires Loaded()
      modifies this`v, head, prev
      ensures Valid() && v == old(v).(insert := v.insert, insH := v.insH)
      ensures Sized(old(Chains(head[..], prev[..]))) && v.strstart + 3 <= windowSize == window.Length
      ensures v.insert <= old(v.insert) <= v.strstart && RollsOn()
      ensures Chains(head[..], prev[..]) ==
              PutBatch(old(Chains(head[..], prev[..])), LeftOver(window[..], old(v), roll))
    {
      hide *;
      Sizes();
      LoadedParts();
      ShapeParts();
      ghost var c, w, u := Chains(head[..], prev[..]), window[..], v;
      MakeSized(c);
      if v.lookahead + v.insert >= STD_MIN_MATCH {
        var str := v.strstart - v.insert;
        if roll {
          v := v.(insH := HashRoll(window[str], window[str + 1]));
        } else if str >= 1 {
          var _ := InsertKnuth(window, head, prev, str + 2 - STD_MIN_MATCH, Reach(v, ahead), Reach(v, ahead));
        }
        var count := v.insert;
        if v.lookahead == 1 {
          count := count - 1;
        }
        ghost var c1, h := Chains(head[..], prev[..]), v.insH;
        RollsLeft(w, v, str, roll);
        SameReach(u, v, ahead);
        MakeSized(c1);
        if count > 0 {
          InsertBatch(str, count);
          SameReach(u, v, ahead);
          v := v.(insert := v.insert - count);
        } else {
          NoneLeft(c1, w, h, str, roll);
          NoneRolled(w, h, str);
        }
        RollsDone(w, h, v.insH, str, count, u, roll);
        LeftOverIs(c, w, u, roll, h, c1, Chains(head[..], prev[..]));
      } else {
        TooFew(c, w, u, roll);
      }
      SameHolds(w, u, v, input, base);
      RollsInput(w, v, input, base, roll);
      MakeRollsOn();
      NowPlaced(u, v, wSize, windowSize, base);
      SameReach(u, v, ahead);
      MakeValid();
    }

    /** The insert_batch function of the level. */
    method InsertBatch(str: nat, count: nat)
      requires Shape() && str + count <= v.strstart && v.strstart + 3 <= windowSize
      requires Below(head[..], Reach(v, ahead)) && Below(prev[..], Reach(v, ahead))
      modifies this`v, head, prev
      ensures v == old(v).(insH := v.insH) && Below(head[..], Reach(v, ahead)) && Below(prev[..], Reach(v, ahead))
      ensures v.insH == if roll then RollHash(window[..], old(v.insH), str, count) else old(v.insH)
      ensures InTable(BatchHashes(window[..], old(v.insH), str, count, roll), HASH_SIZE)
      ensures Chains(head[..], prev[..]) ==
              PutAll(old(Chains(head[..], prev[..])), BatchHashes(window[..], old(v.insH), str, count, roll), str)
    {
      hide *;
      Sizes();
      ShapeParts();
      BatchIs(window[..], v.insH, str, count, roll);
      assert v.strstart <= Reach(v, ahead) by { ReachFrom(v, ahead); }
      if roll {
        RollSize(window[..], v.insH, str, count);
        var insH := InsertRollBatch(window, head, prev, v.insH, str, count, Reach(v, ahead));
        SameReach(v, v.(insH := insH), ahead);
        v := v.(insH := insH);
      } else {
        KnuthSize(window[..], str, count);
        InsertKnuthBatch(window, head, prev, str, count, Reach(v, ahead));
      }
    }

    /** Zero the bytes behind the data that the search may look at before they have been written. */
    method ZeroAhead()
      requires Shape() && v.strstart + v.lookahead <= window.Length
      modifies this`v, window
      ensures v == old(v).(highWater := v.highWater) && Zeroed(old(window[..]), window[..], v.strstart + v.lookahead)
      ensures Wet(old(window[..]), window[..], old(v), v)
    {
      hide Multiple;
      if v.highWater < windowSize {
        var curr := v.strstart + v.lookahead;
        if v.highWater < curr {
          var init := if windowSize - curr > STD_MAX_MATCH then STD_MAX_MATCH else windowSize - curr;
          Zero(curr, init, curr);
          v := v.(highWater := curr + init);
        } else if v.highWater < curr + STD_MAX_MATCH {
          var init := curr + STD_MAX_MATCH - v.highWater;
          if init > windowSize - v.highWater {
            init := windowSize - v.highWater;
          }
          Zero(v.highWater, init, curr);
          v := v.(highWater := v.highWater + init);
        }
      }
    }

    /** The same, for a window that holds the input. */
    method ZeroBehind()
      requires Valid()
      modifies this`v, window
      ensures Valid() && v == old(v).(highWater := v.highWater)
      ensures Zeroed(old(window[..]), window[..], v.strstart + v.lookahead)
      ensures Wet(old(window[..]), window[..], old(v), v)
    {
      hide Below, FillForm, Multiple, Placed, HoldsInput, Zeroed;
      ghost var v2, w := v, window[..];
      HoldsParts(window[..], v, input, base);
      ZeroAhead();
      ZeroedStart(w, window[..], v.strstart + v.lookahead);
      StillHolds(window[..], v2, v, input, base, wSize, windowSize);
    }

    method Zero(at: nat, n: nat, ghost keep: nat)
      requires keep <= at && at + n <= window.Length
      modifies window
      ensures Zeroed(old(window[..]), window[..], keep)
      ensures forall i :: 0 <= i < window.Length ==>
        window[i] == if at <= i < at + n then 0 else old(window[i])
    {
      for i := 0 to n
        invariant Zeroed(old(window[..]), window[..], keep)
        invariant forall j :: 0 <= j < window.Length ==>
          window[j] == if at <= j < at + i then 0 else old(window[j])
      {
        window[at + i] := 0;
      }
    }

    lemma Apart()
      requires Valid()
      ensures prev != window && head != window && head != prev
    {
      hide Below, FillForm, Multiple, Placed, HoldsInput;
    }

    lemma WholeInput()
      requires Valid()
      ensures |input| == base + v.strstart + v.lookahead
    {
      hide Below, FillForm, Multiple, Placed;
    }

    lemma DataEnd()
      requires Valid()
      ensures v.strstart + v.lookahead <= v.fillEnd + MIN_LOOKAHEAD
    {
      hide Below, FillForm, Multiple, HoldsInput;
    }

    /** fill_window: when it returns, the lookahead suffices or the input is used up, and there is room for a search.
        What is read depends on places of the input only, not on the size of the window. */
    method FillWindow()
      requires Valid() && v.lookahead < MIN_LOOKAHEAD && v.strstart < v.fillEnd + MIN_LOOKAHEAD
      modifies this, window, head, prev
      ensures Valid() && input + nextIn == old(input + nextIn) && old(input) <= input
      ensures SamePlace(old(v), old(base), v, base) && v.lookahead >= old(v.lookahead) && v.strstart < v.fillEnd
      ensures v.lookahead >= MIN_LOOKAHEAD || nextIn == []
      ensures base + v.fillEnd == NextLimit(old(base + v.strstart), old(base + v.fillEnd), wSize)
      ensures v.lookahead - old(v.lookahead) == old(|nextIn|) - |nextIn| ==
              ReadCount(old(base + v.strstart), base + v.fillEnd, old(v.lookahead), old(|nextIn|))
      ensures LinksKept(old(prev[..]), prev[..], old(v), base - old(base))
      ensures Refilled(old(Now()), Now(), roll) && FarEnough(v, windowSize) && (old(RollsOn()) ==> RollsOn())
    {
      hide Below, FillForm, Multiple, Placed, HoldsInput, SamePlace, NextLimit, ReadCount, LinksKept, Refilled, Filling;
      hide Wet, FarEnough, Rolling, Moved, Lowered, PutBatch, LeftOver, Over, ReadUp, Zeroed;
      hide Lz.Valid, Lz.Shape, Lz.Loaded;
      Apart();
      ghost var s, rolled := Now(), RollsOn();
      Advance();
      MovedPlace(s, Now(), wSize);
      if rolled { RollingSame(roll, input, s.base, s.v, base, v); }
      FillingStart(s, Now(), wSize, roll);
      while v.lookahead < MIN_LOOKAHEAD && nextIn != []
        invariant Valid() && input + nextIn == old(input + nextIn) && old(input) <= input && v.strstart < v.fillEnd
        invariant Filling(s, Now(), wSize, roll) && (rolled ==> RollsOn())
        decreases |nextIn|
      {
        ghost var t := Now();
        ReadMore();
        ghost var t1 := Now();
        InitHash();
        FillingRead(s, t, t1, Now(), wSize, roll);
        if v.lookahead < MIN_LOOKAHEAD && nextIn != [] {
          ghost var u, b := v, base;
          Advance();
          if rolled {
            StaysInPlace(v, base);
            RollingSame(roll, input, b, u, base, v);
          }
        }
      }
      DataEnd();
      ghost var t := Now();
      assert t.v == v && t.base == base && t.w == window[..];
      WholeInput();
      FillingDone(s, t, wSize, roll);
      FillingKeeps(s, t, wSize, roll);
      ghost var w := window[..];
      ZeroBehind();
      assert window.Length == windowSize by {
        ValidParts();
        ShapeParts();
      }
      WetEnough(w, window[..], t.v, v, windowSize);
      FillingRefilled(s, t, Now(), wSize, roll);
      if rolled { RollingZeroed(roll, input, base, t.v, v); }
      SamePlaceKept(s.v, s.base, t.v, v, base);
    }
  }

  /** The rolling hash from str on, which strings are left over before the current one. */
  ghost predicate RollsFrom(w: seq<nat>, h: nat, str: nat, n: nat)
  {
    str + n + 3 <= |w| && RollsAt(w, RollHash(w, h, str, n), str + n)
  }

  lemma RollsLeft(w: seq<nat>, v: Vars, str: nat, roll: bool)
    requires str + v.insert == v.strstart && v.strstart + 3 <= |w|
    requires roll ==> v.insH == HashRoll(w[str], w[str + 1])
    ensures roll ==> RollsFrom(w, v.insH, str, v.insert)
  {
    hide HashRoll, RollsAt, RollHash;
    if roll {
      RollsFirst(w, str);
      RollsAfter(w, v.insH, str, v.insert);
    }
  }

  lemma RollsDone(w: seq<nat>, h: nat, h': nat, str: nat, count: nat, v: Vars, roll: bool)
    requires roll ==> RollsFrom(w, h, str, v.insert)
    requires roll ==> str + count + 2 <= |w| && h' == RollHash(w, h, str, count)
    requires str + v.insert == v.strstart && (v.lookahead != 1 ==> count == v.insert)
    ensures roll && v.lookahead >= 3 ==> RollsAt(w, h', v.strstart)
  {
    hide RollsAt, RollHash;
  }

  lemma NoneRolled(w: seq<nat>, h: nat, str: nat)
    requires str + 2 <= |w|
    ensures RollHash(w, h, str, 0) == h
  {
  }

  /** With rolling hashes, and if there is a string of three bytes, the hash is what it needs. */
  ghost predicate Rolling(roll: bool, input: seq<nat>, base: nat, v: Vars)
  {
    roll && v.lookahead >= STD_MIN_MATCH ==> RollsAt(input, v.insH, base + v.strstart)
  }

  lemma RollingSame(roll: bool, input: seq<nat>, base: nat, v: Vars, base': nat, v': Vars)
    requires SamePlace(v, base, v', base') && (v'.lookahead, v'.insH) == (v.lookahead, v.insH)
    requires Rolling(roll, input, base, v)
    ensures Rolling(roll, input, base', v')
  {
    hide RollsAt;
  }

  lemma RollingZeroed(roll: bool, input: seq<nat>, base: nat, v: Vars, v': Vars)
    requires Rolling(roll, input, base, v) && v' == v.(highWater := v'.highWater)
    ensures Rolling(roll, input, base, v')
  {
    hide RollsAt;
  }

  /** In the window or in the input, that is the same. */
  lemma RollsInput(w: seq<nat>, v: Vars, input: seq<nat>, base: nat, roll: bool)
    requires HoldsInput(w, v, input, base) && (roll && v.lookahead >= 3 ==> RollsAt(w, v.insH, v.strstart))
    ensures Rolling(roll, input, base, v)
  {
    if v.lookahead >= 3 { RollsSame(w, v, input, base); }
  }

  lemma RollsSame(w: seq<nat>, v: Vars, input: seq<nat>, base: nat)
    requires HoldsInput(w, v, input, base) && v.lookahead >= 3
    ensures RollsAt(w, v.insH, v.strstart) <==> RollsAt(input, v.insH, base + v.strstart)
  {
    hide HashRoll;
    var p, n := v.strstart, v.strstart + v.lookahead;
    assert w[..n][p] == input[base..][p];
    assert w[..n][p + 1] == input[base..][p + 1];
    assert w[..n][p + 2] == input[base..][p + 2];
  }

  /** The hashes that insert_batch uses. */
  function BatchHashes(w: seq<nat>, insH: nat, str: nat, count: nat, roll: bool): (hs: seq<nat>)
    requires str + count + 3 <= |w|
  {
    if roll then RollHashes(w, insH, str, count) else KnuthHashes(w, str, count)
  }

  lemma BatchIs(w: seq<nat>, insH: nat, str: nat, count: nat, roll: bool)
    requires str + count + 3 <= |w|
    ensures BatchHashes(w, insH, str, count, roll) ==
            if roll then RollHashes(w, insH, str, count) else KnuthHashes(w, str, count)
  {
    hide RollHashes, KnuthHashes;
  }

  lemma ReachFrom(v: Vars, ahead: bool)
    ensures v.strstart <= Reach(v, ahead)
  {
  }

  lemma TooFew(c: Chains, w: seq<nat>, v: Vars, roll: bool)
    requires Sized(c) && v.insert <= v.strstart && v.strstart + 3 <= |w| && v.lookahead + v.insert < STD_MIN_MATCH
    ensures PutBatch(c, LeftOver(w, v, roll)) == c
  {
  }

  lemma MakeSized(c: Chains)
    requires |c.head| == HASH_SIZE && |c.prev| > 0
    ensures Sized(c)
  {
  }

  lemma SameReach(v: Vars, v': Vars, ahead: bool)
    requires (v'.strstart, v'.fillEnd) == (v.strstart, v.fillEnd)
    ensures Reach(v', ahead) == Reach(v, ahead)
  {
  }

  lemma PlacedParts(v: Vars, wSize: nat, windowSize: nat, base: nat)
    requires Placed(v, wSize, windowSize, base)
    ensures InBuffer(v, wSize, windowSize, base) && v.insert <= v.strstart && v.fillEnd + MIN_LOOKAHEAD <= windowSize
    ensures v.strstart + v.lookahead <= v.fillEnd + MIN_LOOKAHEAD
  {
  }

  lemma NowInBuffer(v: Vars, v': Vars, wSize: nat, windowSize: nat, base: nat)
    requires InBuffer(v, wSize, windowSize, base) && v' == v.(lookahead := v'.lookahead)
    requires v'.strstart + v'.lookahead <= v.fillEnd + MIN_LOOKAHEAD
    ensures InBuffer(v', wSize, windowSize, base)
  {
    hide FillForm;
  }

  /** All strings have been inserted, but for the last one if a single byte follows it. */
  lemma NowPlaced(v: Vars, v': Vars, wSize: nat, windowSize: nat, base: nat)
    requires InBuffer(v, wSize, windowSize, base) && v' == v.(insert := v'.insert, insH := v'.insH)
    requires v.insert <= v.strstart
    requires v'.insert == if v.lookahead + v.insert < STD_MIN_MATCH then v.insert else if v.lookahead == 1 then 1 else 0
    ensures Placed(v', wSize, windowSize, base)
  {
    hide FillForm;
  }

  lemma HasReadUp(v: Vars, rest: nat)
    requires rest == 0 || v.strstart + v.lookahead == v.fillEnd + MIN_LOOKAHEAD
    ensures ReadUp(v, rest)
  {
  }

  lemma NoneLeft(c: Chains, w: seq<nat>, insH: nat, str: nat, roll: bool)
    requires Sized(c) && str + 3 <= |w|
    ensures InTable(BatchHashes(w, insH, str, 0, roll), HASH_SIZE)
    ensures PutAll(c, BatchHashes(w, insH, str, 0, roll), str) == c
  {
  }

  /** What InitHash inserts is the batch of strings that were left over. */
  lemma LeftOverIs(c: Chains, w: seq<nat>, v: Vars, roll: bool, h: nat, c1: Chains, c2: Chains)
    requires Sized(c) && Sized(c1) && v.insert <= v.strstart && v.strstart + 3 <= |w| &&
      v.lookahead + v.insert >= STD_MIN_MATCH && v.lookahead > 0
    requires var str := v.strstart - v.insert; roll ==> h == HashRoll(w[str], w[str + 1])
    requires var str := v.strstart - v.insert;
      c1 == if roll || str == 0 then c else Put(c, HashKnuth(Load32(w, str - 1)), str - 1)
    requires var str := v.strstart - v.insert;
      var count := if v.lookahead == 1 then v.insert - 1 else v.insert;
      var hs := BatchHashes(w, h, str, count, roll);
      InTable(hs, HASH_SIZE) && c2 == PutAll(c1, hs, str)
    ensures c2 == PutBatch(c, LeftOver(w, v, roll))
  {
    hide HashKnuth, Load32, HashRoll, Put, PutAll, KnuthHashes, RollHashes;
    var str := v.strstart - v.insert;
    var count := if v.lookahead == 1 then v.insert - 1 else v.insert;
    if !roll && str >= 1 { PutThenAll(c, w, str - 1, count); }
  }

  /** From keep on, bytes may have been set to zero. */
  ghost predicate Zeroed(w: seq<nat>, w': seq<nat>, keep: nat)
  {
    |w| == |w'| && keep <= |w| && forall i :: 0 <= i < |w| ==> w'[i] == w[i] || (keep <= i && w'[i] == 0)
  }

  lemma ZeroedStart(w: seq<nat>, w': seq<nat>, keep: nat)
    requires Zeroed(w, w', keep)
    ensures |w| == |w'| && keep <= |w| && w'[..keep] == w[..keep]
  {
  }

  lemma OverStart(w: seq<nat>, data: seq<nat>)
    requires |data| <= |w|
    ensures |Over(w, data)| == |w| && Over(w, data)[..|data|] == data
  {
  }

  /** A window that holds the input is the same with the input over it. */
  lemma HoldsOver(w: seq<nat>, v: Vars, input: seq<nat>, base: nat)
    requires HoldsInput(w, v, input, base)
    ensures base <= |input| && |input| - base <= |w| && w == Over(w, input[base..])
  {
    var n := v.strstart + v.lookahead;
    assert w == w[..n] + w[n..];
  }

  lemma HoldsFrom(w: seq<nat>, v: Vars, input: seq<nat>, base: nat)
    requires |input| == base + v.strstart + v.lookahead <= base + |w|
    requires w[..|input| - base] == input[base..]
    ensures HoldsInput(w, v, input, base)
  {
  }

  lemma SameHolds(w: seq<nat>, v: Vars, v': Vars, input: seq<nat>, base: nat)
    requires HoldsInput(w, v, input, base) && (v'.strstart, v'.lookahead) == (v.strstart, v.lookahead)
    ensures HoldsInput(w, v', input, base)
  {
  }

  lemma ReadInput(input: seq<nat>, data: seq<Byte>, base: nat, n: nat)
    requires base <= |input| && n <= |data|
    ensures (input + data[..n])[base..] == input[base..] + data[..n] && input + data[..n] + data[n..] == input + data
  {
  }

  lemma SamePlaceKept(u: Vars, a: nat, v: Vars, v': Vars, b: nat)
    requires SamePlace(u, a, v, b)
    requires (v'.strstart, v'.blockStart, v'.matchStart, v'.prevLength) ==
      (v.strstart, v.blockStart, v.matchStart, v.prevLength)
    ensures SamePlace(u, a, v', b)
  {
  }

  lemma HoldsParts(w: seq<nat>, v: Vars, input: seq<nat>, base: nat)
    requires HoldsInput(w, v, input, base)
    ensures v.strstart + v.lookahead <= |w| && |input| == base + v.strstart + v.lookahead &&
      w[..v.strstart + v.lookahead] == input[base..]
  {
  }

  lemma StillHolds(w: seq<nat>, v: Vars, v': Vars, input: seq<nat>, base: nat, wSize: nat, windowSize: nat)
    requires v' == v.(highWater := v'.highWater) && Placed(v, wSize, windowSize, base)
    requires v.strstart + v.lookahead <= |w| && |input| == base + v.strstart + v.lookahead &&
      w[..v.strstart + v.lookahead] == input[base..]
    ensures HoldsInput(w, v', input, base) && Placed(v', wSize, windowSize, base)
  {
  }

  lemma LinksStay(p: seq<nat>, v: Vars)
    requires |p| > 0
    ensures LinksKept(p, p, v, 0)
  {
    hide Kept;
    KeptAll(p, v.strstart - v.insert - 1, v.strstart + MIN_LOOKAHEAD);
  }

  lemma StaysInPlace(v: Vars, base: nat)
    ensures SamePlace(v, base, v, base)
  {
  }

  lemma MovedEnd(v: Vars, base: nat, e: nat)
    ensures SamePlace(v, base, v.(fillEnd := e), base)
  {
  }

  lemma SamePlaceOn(u: Vars, a: nat, v: Vars, b: nat, w: Vars, c: nat)
    requires SamePlace(u, a, v, b) && SamePlace(v, b, w, c)
    ensures SamePlace(u, a, w, c)
  {
  }

  /** The buffer is full: the string is within the lookahead of its end. */
  ghost predicate SlideDue(v: Vars, wSize: nat, windowSize: nat, base: nat)
  {
    windowSize <= v.strstart + MIN_LOOKAHEAD && v.fillEnd + MIN_LOOKAHEAD == windowSize + wSize &&
    v.lookahead < MIN_LOOKAHEAD && v.strstart < windowSize && v.strstart + v.lookahead <= windowSize && FewLeft(v) &&
    0 <= base + v.blockStart && v.blockStart <= v.strstart
  }

  lemma DueParts(v: Vars, wSize: nat, windowSize: nat, base: nat)
    requires SlideDue(v, wSize, windowSize, base)
    ensures windowSize <= v.strstart + MIN_LOOKAHEAD && v.strstart < windowSize
  {
  }

  lemma SlidReach(v: Vars, n: nat, ahead: bool)
    requires n <= v.strstart && n <= v.fillEnd
    ensures Reach(Slid(v, n), ahead) == Reach(v, ahead) - n && n <= Reach(v, ahead)
    ensures Slid(v, n).strstart == v.strstart - n && Slid(v, n).fillEnd == v.fillEnd - n &&
      Slid(v, n).lookahead == v.lookahead
    ensures Slid(v, n).insert == if v.insert > v.strstart - n then v.strstart - n else v.insert
  {
  }

  lemma SlidHolds(w: seq<nat>, v: Vars, input: seq<nat>, base: nat, n: nat)
    requires n <= v.strstart && n <= v.fillEnd && v.strstart + v.lookahead - n <= |w| &&
      |input| == base + v.strstart + v.lookahead
    requires w[..v.strstart + v.lookahead - n] == input[base + n..]
    ensures HoldsInput(w, Slid(v, n), input, base + n)
  {
  }

  lemma SlidPlaced(v: Vars, wSize: nat, windowSize: nat, base: nat)
    requires SlideDue(v, wSize, windowSize, base) && wSize >= 512 && 2 * wSize <= windowSize
    ensures var n := windowSize - wSize;
      n <= v.strstart && n <= v.fillEnd && v.strstart + v.lookahead - n <= n && n <= v.strstart + v.lookahead &&
      Placed(Slid(v, n), wSize, windowSize, base + n) && SamePlace(v, base, Slid(v, n), base + n) &&
      Slid(v, n).strstart + MIN_LOOKAHEAD >= wSize && Slid(v, n).strstart < Slid(v, n).fillEnd &&
      (Slid(v, n).insert, Slid(v, n).insH, Slid(v, n).highWater) == (v.insert, v.insH, v.highWater) && n > 0
  {
    FillFirst(wSize);
    hide FillForm;
  }

  lemma Shifted(w: seq<nat>, input: seq<nat>, base: nat, n: nat, end: nat)
    requires n <= end <= |w| && |input| == base + end && w[..end] == input[base..]
    ensures w[n..end] == input[base + n..]
  {
    assert w[n..end] == w[..end][n..];
  }
}
