/** deflate.c fill_window and deflate.h window_size: a larger buffer slides less often, but it reads the same input at
    the same times as a buffer of two windows. */
module ReadLimits {
  import opened Bits
  import opened MatchFinder
  import opened SlidingWindow
  import opened LzSearch

  /** The two windows are at the same place of the same input, and have read the same part of it. */
  ghost predicate SameReader(a: Lz, b: Lz)
    reads a, b
  {
    a.wSize == b.wSize && a.base + a.v.strstart == b.base + b.v.strstart &&
    a.base + a.v.fillEnd == b.base + b.v.fillEnd && a.v.lookahead == b.v.lookahead && a.input == b.input &&
    a.nextIn == b.nextIn
  }

  /** A window, seen from the input: where its string is and where reads stop, how much has been read ahead, and how
      much is left. */
  datatype Reader = Reader(place: int, limit: int, lookahead: int, rest: int)

  ghost function At(lz: Lz): (r: Reader)
    reads lz
  {
    Reader(lz.base + lz.v.strstart, lz.base + lz.v.fillEnd, lz.v.lookahead, |lz.nextIn|)
  }

  /** A refill, if there is too little lookahead, in windows of w bytes. */
  function Filled(r: Reader, w: nat): (r': Reader)
  {
    if r.lookahead >= MIN_LOOKAHEAD || r.place < 0 || r.limit < 0 || r.lookahead < 0 || r.rest < 0 then r
    else
      var l := NextLimit(r.place, r.limit, w);
      var n := ReadCount(r.place, l, r.lookahead, r.rest);
      Reader(r.place, l, r.lookahead + n, r.rest - n)
  }

  /** The string moves on by n bytes, or by all that there are. */
  function MovedBy(r: Reader, n: nat): (r': Reader)
  {
    var m := if n < r.lookahead then n else r.lookahead;
    r.(place := r.place + m, lookahead := r.lookahead - m)
  }

  /** All steps, one after the other: what has been read then does not depend on the size of the buffer. */
  function Consumed(r: Reader, w: nat, steps: seq<nat>): (r': Reader)
  {
    if steps == [] then r
    else
      var n := |steps| - 1;
      MovedBy(Filled(Consumed(r, w, steps[..n]), w), steps[n])
  }

  lemma ConsumedOn(r: Reader, w: nat, steps: seq<nat>, i: nat)
    requires i < |steps|
    ensures Consumed(r, w, steps[..i + 1]) == MovedBy(Filled(Consumed(r, w, steps[..i]), w), steps[i])
  {
    hide Filled, MovedBy;
    assert steps[..i + 1][..i] == steps[..i];
  }

  /** The two windows share nothing. */
  ghost predicate Disjoint(a: Lz, b: Lz)
  {
    a != b && {a.window, a.head, a.prev} !! {b.window, b.head, b.prev}
  }

  /** What a refill reads is determined by how much of the input it leaves. */
  lemma SameRest(input: seq<nat>, next: seq<Byte>, a: seq<nat>, an: seq<Byte>, b: seq<nat>, bn: seq<Byte>)
    requires input + next == a + an == b + bn && |an| == |bn|
    ensures a == b && an == bn
  {
    var t := input + next;
    assert |a| == |b|;
    assert a == t[..|a|] == b;
    assert an == t[|a|..] == bn;
  }

  /** fill_window for both. */
  method FillBoth(a: Lz, b: Lz)
    requires Disjoint(a, b) && SameReader(a, b) && a.Valid() && b.Valid()
    requires a.v.lookahead < MIN_LOOKAHEAD
    requires a.v.strstart < a.v.fillEnd + MIN_LOOKAHEAD && b.v.strstart < b.v.fillEnd + MIN_LOOKAHEAD
    modifies a, a.window, a.head, a.prev, b, b.window, b.head, b.prev
    ensures SameReader(a, b) && a.Valid() && b.Valid()
    ensures a.v.strstart < a.v.fillEnd && b.v.strstart < b.v.fillEnd
    ensures a.v.lookahead >= MIN_LOOKAHEAD || a.nextIn == []
    ensures At(a) == Filled(old(At(a)), a.wSize) && At(b) == Filled(old(At(b)), a.wSize)
  {
    hide Below, FillForm, Multiple, HoldsInput, Placed, LinksKept, NextLimit, ReadCount, Reach, Lz.Valid, Refilled,
      Lz.Now, SamePlace, FarEnough;
    a.FillWindow();
    b.FillWindow();
    PlaceIs(old(a.v), old(a.base), a.v, a.base);
    PlaceIs(old(b.v), old(b.base), b.v, b.base);
    SameRest(old(a.input), old(a.nextIn), a.input, a.nextIn, b.input, b.nextIn);
  }

  /** The string moves on by n bytes in both. */
  method MoveBoth(a: Lz, b: Lz, n: nat)
    requires Disjoint(a, b) && SameReader(a, b) && a.Valid() && b.Valid() && n <= a.v.lookahead
    modifies a`v, b`v
    ensures SameReader(a, b) && a.Valid() && b.Valid()
    ensures a.v == old(a.v).(strstart := old(a.v.strstart) + n, lookahead := old(a.v.lookahead) - n)
    ensures b.v == old(b.v).(strstart := old(b.v.strstart) + n, lookahead := old(b.v.lookahead) - n)
  {
    hide Below, FillForm, Multiple, HoldsInput, Placed, Lz.Valid, Inserted;
    ValidInserted(a, Reach(a.v.(strstart := a.v.strstart + n), a.ahead));
    ValidInserted(b, Reach(b.v.(strstart := b.v.strstart + n), b.ahead));
    MoveOn(a, n);
    MoveOn(b, n);
  }

  lemma Enough(lz: Lz)
    requires lz.Valid() && lz.v.lookahead >= MIN_LOOKAHEAD
    ensures lz.v.strstart <= lz.v.fillEnd
  {
    hide Below, FillForm, Multiple, HoldsInput;
  }

  /** One step of any strategy, seen from the input: refill if need be, and move on by at most the longest match. */
  method StepBoth(a: Lz, b: Lz, step: nat)
    requires Disjoint(a, b) && SameReader(a, b) && a.Valid() && b.Valid() &&
      step <= STD_MAX_MATCH
    requires a.v.strstart < a.v.fillEnd + MIN_LOOKAHEAD && b.v.strstart < b.v.fillEnd + MIN_LOOKAHEAD
    modifies a, a.window, a.head, a.prev, b, b.window, b.head, b.prev
    ensures SameReader(a, b) && a.Valid() && b.Valid()
    ensures a.v.strstart < a.v.fillEnd + MIN_LOOKAHEAD && b.v.strstart < b.v.fillEnd + MIN_LOOKAHEAD
    ensures At(a) == MovedBy(Filled(old(At(a)), a.wSize), step) && At(b) == MovedBy(Filled(old(At(b)), a.wSize), step)
  {
    hide Below, FillForm, Multiple, HoldsInput, Placed, Lz.Valid, NextLimit, ReadCount;
    if a.v.lookahead < MIN_LOOKAHEAD {
      FillBoth(a, b);
    } else {
      Enough(a);
      Enough(b);
    }
    MoveBoth(a, b, if step < a.v.lookahead then step else a.v.lookahead);
  }

  /** However a stream is consumed, and whether the strategy looks ahead or not, a window of any size reads the same
      bytes at the same places as any other, and so as one of two windows. */
  method RunBoth(a: Lz, b: Lz, steps: seq<nat>)
    requires Disjoint(a, b) && SameReader(a, b) && a.Valid() && b.Valid()
    requires forall i :: 0 <= i < |steps| ==> steps[i] <= STD_MAX_MATCH
    requires a.v.strstart < a.v.fillEnd + MIN_LOOKAHEAD && b.v.strstart < b.v.fillEnd + MIN_LOOKAHEAD
    modifies a, a.window, a.head, a.prev, b, b.window, b.head, b.prev
    ensures SameReader(a, b) && a.Valid() && b.Valid()
    ensures At(a) == Consumed(old(At(a)), a.wSize, steps) && At(b) == Consumed(old(At(b)), a.wSize, steps)
  {
    hide Below, FillForm, Multiple, HoldsInput, Placed, Lz.Valid, Filled, MovedBy, Consumed, At;
    NoneConsumed(At(a), a.wSize, steps);
    NoneConsumed(At(b), a.wSize, steps);
    for i := 0 to |steps|
      invariant SameReader(a, b) && a.Valid() && b.Valid()
      invariant a.v.strstart < a.v.fillEnd + MIN_LOOKAHEAD && b.v.strstart < b.v.fillEnd + MIN_LOOKAHEAD
      invariant At(a) == Consumed(old(At(a)), a.wSize, steps[..i])
      invariant At(b) == Consumed(old(At(b)), a.wSize, steps[..i])
    {
      ConsumedOn(old(At(a)), a.wSize, steps, i);
      ConsumedOn(old(At(b)), a.wSize, steps, i);
      StepBoth(a, b, steps[i]);
    }
  }

  lemma NoneConsumed(r: Reader, w: nat, steps: seq<nat>)
    ensures Consumed(r, w, steps[..0]) == r && steps[..|steps|] == steps
  {
  }

  /** Two new windows, one of them of twice the window size. */
  method NewBoth(w: nat, size: nat, data: seq<Byte>, rolling: bool, ghost looks: bool) returns (a: Lz, b: Lz)
    requires 512 <= w && Multiple(size, w) && 2 * w <= size <= 65536
    ensures fresh(a) && fresh(b) && Disjoint(a, b) && SameReader(a, b) && a.Valid() && b.Valid()
    ensures a.roll == b.roll == rolling && a.ahead == b.ahead == looks
    ensures a.wSize == b.wSize == w && a.windowSize == 2 * w && b.windowSize == size && a.nextIn == data
    ensures a.v.strstart < a.v.fillEnd + MIN_LOOKAHEAD && b.v.strstart < b.v.fillEnd + MIN_LOOKAHEAD
  {
    hide Below, FillForm, HoldsInput, Placed, Lz.Valid;
    assert Multiple(2 * w, w) by { assert 2 * w == 2 * w; }
    a := new Lz(w, 2 * w, rolling, data, looks);
    b := new Lz(w, size, rolling, data, looks);
  }
}
