/** deflate_fast.c with deflate.c fill_window: a run in which a string that has been inserted early loses its link. */
module StaleLink {
  import opened Arith
  import opened Bits
  import opened HashFunctions
  import opened MatchFinder
  import opened HashChains
  import opened SlidingWindow
  import opened FlushBlock
  import opened TokenMeaning
  import opened Reinserts
  import opened LoneRuns
  import opened DeflateState
  import opened DeflateFast

  /** The hash, from the product with the multiplier. */
  lemma HashIs(val: nat, q: nat, h: nat, low: nat)
    requires val * 2654435761 == q * 0x1_0000_0000 + (h * 0x1_0000 + low) && h < 0x1_0000 && low < 0x1_0000
    ensures HashKnuth(val) == h
  {
    ModIs(q, h * 0x1_0000 + low, 0x1_0000_0000);
    ModIs(h, low, 0x1_0000);
  }

  lemma HashValues()
    ensures HashKnuth(0x100 * 97 + 0x1_0000 * 98 + 0x100_0000 * 99) == 3550
    ensures HashKnuth(97 + 0x100 * 98 + 0x1_0000 * 99) == 16141
    ensures HashKnuth(98 + 0x100 * 99 + 0x100_0000 * 97) == 5708
    ensures HashKnuth(99 + 0x1_0000 * 97 + 0x100_0000 * 98) == 3461
    ensures HashKnuth(97 + 0x100 * 98 + 0x1_0000 * 99 + 0x100_0000 * 100) == 25357
    ensures HashKnuth(98 + 0x100 * 99 + 0x1_0000 * 100) == 36464
  {
    hide HashKnuth;
    HashIs(1667391744, 1030504767, 3550, 4352);
    HashIs(6513249, 4025409, 16141, 56849);
    HashIs(1627415394, 1005798024, 5708, 2242);
    HashIs(1650524259, 1020080088, 3461, 3955);
    HashIs(1684234849, 1040914378, 25357, 56849);
    HashIs(6579042, 4066071, 36464, 2242);
  }

  /** The bytes of the three calls, one after the other. */
  function Whole(): (b: seq<Byte>) { [0, 97, 98, 99, 0, 97, 98, 99, 100] }

  /** The hashes of the strings, before and after the last byte is there. */
  lemma FirstHashes(w: seq<nat>)
    requires |w| >= 12 && w == Padded(Whole()[..7], |w|)
    ensures HashKnuth(Load32(w, 0)) == 3550 && HashKnuth(Load32(w, 1)) == 16141
    ensures HashKnuth(Load32(w, 2)) == 5708 && HashKnuth(Load32(w, 3)) == 3461
  {
    hide HashKnuth;
    HashValues();
  }

  lemma SecondHashes(w: seq<nat>)
    requires |w| >= 12 && w == Padded(Whole()[..8], |w|)
    ensures HashKnuth(Load32(w, 4)) == 3550 && HashKnuth(Load32(w, 5)) == 16141
  {
    hide HashKnuth;
    HashValues();
  }

  lemma ThirdHashes(w: seq<nat>)
    requires |w| >= 12 && w == Padded(Whole(), |w|)
    ensures HashKnuth(Load32(w, 5)) == 25357 && HashKnuth(Load32(w, 6)) == 36464
  {
    hide HashKnuth;
    HashValues();
  }

  /** Between two calls: the first n bytes have been compressed and stand at the start of the window. */
  ghost predicate Between(u: Snap, n: nat, w: nat, size: nat)
  {
    n <= 9 && u.base == 0 && u.v.lookahead == 0 && u.v.strstart == n && u.input == Whole()[..n] && |u.w| == size &&
    512 <= w && 2 * w <= size && u.w == Padded(u.input, size) && u.v.fillEnd == 2 * w - MIN_LOOKAHEAD &&
    u.v.insert == LastTwo(u.v) && |u.chains.head| == HASH_SIZE && |u.chains.prev| == w
  }

  /** The bytes from m to n. */
  function Part(m: nat, n: nat): (b: seq<Byte>)
    requires m <= n <= 9
    ensures |b| == n - m && Whole()[..m] + b == Whole()[..n]
  {
    Whole()[m..n]
  }

  lemma BetweenCall(u: Snap, m: nat, n: nat, w: nat, size: nat)
    requires Between(u, m, w, size) && m < n <= 9 && u.rest == n - m
    ensures AtCall(u, Part(m, n)) && u.input + Part(m, n) == Whole()[..n]
  {
    hide Padded, Whole;
    PartIs(m, n);
  }

  lemma PartIs(m: nat, n: nat)
    requires m <= n <= 9
    ensures |Part(m, n)| == n - m && Whole()[..m] + Part(m, n) == Whole()[..n] && |Whole()[..m]| == m
  {
  }

  lemma BetweenNext(u: Snap, m: nat, n: nat, w: nat, size: nat, toks: nat, t: Snap, toks': nat)
    requires Between(u, m, w, size) && m < n <= 9 && u.rest == n - m && QuietEnd(u, Part(m, n), toks, t, toks')
    ensures Between(t, n, w, size) && t.chains == After(u, Part(m, n), Entering(n - m, n - m)) && toks' <= toks + n - m
  {
    hide Padded, Whole, After;
    PartIs(m, n);
    BetweenCall(u, m, n, w, size);
    AfterSize(u, Part(m, n), Entering(n - m, n - m));
  }

  /** The first call inserts strings 0 to 3, each the first one with its hash. */
  lemma FirstCall(u: Snap, w: nat, size: nat)
    requires Between(u, 0, w, size) && u.rest == 7 && AllZero(u.chains.head)
    ensures AtCall(u, Part(0, 7)) && Lone(u, Part(0, 7))
    ensures var c := After(u, Part(0, 7), 4); c.head[16141] == 1 && c.head[25357] == 0 && c.head[36464] == 0
  {
    hide Put, Padded, Whole, After, HashKnuth, Load32, LeftOver, Part, PutBatch;
    BetweenCall(u, 0, 7, w, size);
    var d := Part(0, 7);
    var b := Padded(u.input + d, size);
    PartIs(0, 7);
    PaddedSize(u.input + d, size);
    FirstHashes(b);
    AfterNone(u, d);
    NoneAgain(u.chains, b, u.v.(lookahead := 7));
    FirstPuts(u.chains);
    AfterOn(u, d, 0);
    AfterOn(u, d, 1);
    AfterOn(u, d, 2);
    AfterOn(u, d, 3);
  }

  lemma NoneAgain(c: Chains, w: seq<nat>, v: Vars)
    requires Sized(c) && v.strstart == v.insert == 0 && |w| >= 3
    ensures PutBatch(c, LeftOver(w, v, false)) == c
  {
  }

  lemma FirstPuts(c: Chains)
    requires |c.head| == HASH_SIZE && AllZero(c.head) && |c.prev| > 0
    ensures var c1 := Put(c, 3550, 0);
      var c2 := Put(c1, 16141, 1);
      var c3 := Put(c2, 5708, 2);
      var c4 := Put(c3, 3461, 3);
      c.head[3550] == 0 && c1.head[16141] == 0 && c2.head[5708] == 0 && c3.head[3461] == 0 && c4.head[16141] == 1 &&
      c4.head[25357] == 0 && c4.head[36464] == 0
  {
  }

  /** With one byte more, the refill inserts the first of the two strings that were left over and the one before it. */
  lemma TwoAgain(c: Chains, w: seq<nat>, v: Vars)
    requires Sized(c) && v.strstart >= 3 && v.insert == 2 && v.lookahead == 1 && v.strstart + 3 <= |w|
    ensures var p, q := v.strstart - 3, v.strstart - 2;
      PutBatch(c, LeftOver(w, v, false)) == Put(Put(c, HashKnuth(Load32(w, p)), p), HashKnuth(Load32(w, q)), q)
  {
    hide HashKnuth, Load32, Put;
    var p := v.strstart - 3;
    KnuthOn(w, p, 1);
    KnuthOn(w, p, 0);
    PutAllNone(c, p);
    assert KnuthHashes(w, p, 0) == [];
    PutAllOn(c, [], p, HashKnuth(Load32(w, p)));
    PutAllOn(c, KnuthHashes(w, p, 1), p, HashKnuth(Load32(w, p + 1)));
  }

  /** The second call inserts string 5 with a zero behind it that is not input: a repeat of string 1. */
  lemma SecondCall(u: Snap, w: nat, size: nat)
    requires Between(u, 7, w, size) && u.rest == 1
    requires u.chains.head[16141] == 1 && u.chains.head[25357] == 0 && u.chains.head[36464] == 0
    ensures AtCall(u, Part(7, 8)) && Lone(u, Part(7, 8))
    ensures var c := After(u, Part(7, 8), 0);
      c.head[16141] == 5 && c.prev[5] == 1 && c.head[25357] == 0 && c.head[36464] == 0
  {
    hide Put, Padded, Whole, After, HashKnuth, Load32, LeftOver, Part, PutBatch;
    BetweenCall(u, 7, 8, w, size);
    var d := Part(7, 8);
    var b := Padded(u.input + d, size);
    PartIs(7, 8);
    PaddedSize(u.input + d, size);
    SecondHashes(b);
    AfterNone(u, d);
    TwoAgain(u.chains, b, u.v.(lookahead := 1));
    SecondPuts(u.chains);
  }

  lemma SecondPuts(c: Chains)
    requires |c.head| == HASH_SIZE && |c.prev| >= 512 && c.head[16141] == 1 && c.head[25357] == 0 && c.head[36464] == 0
    ensures var d := Put(Put(c, 3550, 4), 16141, 5);
      d.head[16141] == 5 && d.prev[5] == 1 && d.head[25357] == 0 && d.head[36464] == 0
  {
    ModSmall(5, |c.prev|);
  }

  /** The third call inserts it again with the byte that is input: its link is lost to the chain through it. */
  lemma ThirdCall(u: Snap, w: nat, size: nat)
    requires Between(u, 8, w, size) && u.rest == 1
    requires u.chains.head[16141] == 5 && u.chains.head[25357] == 0 && u.chains.head[36464] == 0
    ensures AtCall(u, Part(8, 9)) && Lone(u, Part(8, 9))
    ensures var c := After(u, Part(8, 9), 0); c.head[16141] == 5 && c.prev[5] == 0
  {
    hide Put, Padded, Whole, After, HashKnuth, Load32, LeftOver, Part, PutBatch;
    BetweenCall(u, 8, 9, w, size);
    var d := Part(8, 9);
    var b := Padded(u.input + d, size);
    PartIs(8, 9);
    AllBytes();
    PaddedSize(u.input + d, size);
    ThirdHashes(b);
    AfterNone(u, d);
    TwoAgain(u.chains, b, u.v.(lookahead := 1));
    ThirdPuts(u.chains);
  }

  lemma AllBytes()
    ensures Whole()[..9] == Whole()
  {
  }

  lemma ThirdPuts(c: Chains)
    requires |c.head| == HASH_SIZE && |c.prev| >= 512 && c.head[16141] == 5 && c.head[25357] == 0
    ensures var d := Put(Put(c, 25357, 5), 36464, 6); d.head[16141] == 5 && d.prev[5] == 0
  {
    ModSmall(5, |c.prev|);
    ModSmall(6, |c.prev|);
  }

  /** More input, and room for the output. */
  method Give(s: Deflater, data: seq<Byte>, room: nat)
    requires AtString(s)
    modifies s`availOut, s.lz`nextIn
    ensures AtString(s) && s.lz.nextIn == data && s.lz.Now() == old(s.lz.Now()).(rest := |data|) && s.availOut == room
  {
    hide Below, HoldsInput, Placed, BlockState.Valid, Tracks, Multiple;
    s.lz.nextIn := data;
    s.availOut := room;
  }

  /** One call on the bytes from m to n, with a flush. */
  method Call(s: Deflater, m: nat, n: nat, w: nat, size: nat, room: nat)
    requires AtString(s) && !s.lz.ahead && !s.lz.roll && 128 <= s.bs.litBufsize && |s.bs.toks| <= m < n <= 9
    requires Between(s.lz.Now(), m, w, size) && Lone(s.lz.Now().(rest := n - m), Part(m, n))
    modifies s, s.lz, s.lz.window, s.lz.head, s.lz.prev, s.bs, s.bs.w, s.bs.dynL, s.bs.dynD, s.bs.blTree
    ensures AtString(s) && |s.bs.toks| <= n && Between(s.lz.Now(), n, w, size)
    ensures AtCall(old(s.lz.Now()).(rest := n - m), Part(m, n))
    ensures s.lz.Now().chains == After(old(s.lz.Now()).(rest := n - m), Part(m, n), Entering(n - m, n - m))
  {
    hide *;
    PartIs(m, n);
    Give(s, Part(m, n), room);
    ghost var u, toks := s.lz.Now(), |s.bs.toks|;
    BetweenRest(old(s.lz.Now()), m, w, size, n - m);
    BetweenCall(u, m, n, w, size);
    IsQuiet(u, Part(m, n), toks, s.bs.litBufsize);
    var _, _ := DeflateFast.DeflateFast(s, SyncFlush);
    BetweenNext(u, m, n, w, size, toks, s.lz.Now(), |s.bs.toks|);
  }

  lemma BetweenRest(u: Snap, n: nat, w: nat, size: nat, rest: nat)
    requires Between(u, n, w, size)
    ensures Between(u.(rest := rest), n, w, size)
  {
  }

  lemma IsQuiet(u: Snap, data: seq<nat>, toks: nat, size: nat)
    requires Lone(u, data) && toks + |data| + 2 <= size
    ensures Quiet(u, data, toks, size, false)
  {
  }

  lemma StartBetween(lz: Lz, w: nat)
    requires lz.Valid() && lz.wSize == w >= 512 && lz.input == [] && lz.base == 0
    requires lz.v == Vars(0, 0, 2 * w - MIN_LOOKAHEAD, 0, 0, 0, 0, 0, 0)
    requires AllZero(lz.window[..])
    ensures Between(lz.Now(), 0, w, lz.windowSize)
  {
    hide Below, HoldsInput, FillForm, Multiple;
    IsPadded(lz.window[..], []);
  }

  lemma StartString(s: Deflater)
    requires s.Ready(0) && s.lz.base == 0 && s.lz.v.strstart == 0
    ensures AtString(s) && s.lz.Valid()
  {
    hide Lz.Valid, Deflater.Open;
  }

  /** Three calls of deflate_fast, each with a flush, on "\0abc\0ab", "c" and "d". Before the third one the chain of the
      hash of "abc\0" leads from string 5 to string 1; after it the chain still leads to string 5, and ends there. */
  method StaleRun(w: nat, size: nat, lazy: nat, good: nat, nice: nat, chain: nat, bufsize: nat, fix: bool, room: nat)
    returns (s: Deflater, ghost before: Snap)
    requires 512 <= w && Multiple(size, w) && 2 * w <= size <= 65536
    requires chain < 0x1_0000_0000 && 2 <= lazy && 128 <= bufsize <= 32768
    ensures AtString(s) && s.lz.input == Whole() && before.input == Whole()[..8]
    ensures s.lz.head.Length == |before.chains.head| == HASH_SIZE && s.lz.prev.Length == |before.chains.prev| == w
    ensures before.chains.head[16141] == 5 && before.chains.prev[5] == 1
    ensures s.lz.head[16141] == 5 && s.lz.prev[5] == 0
  {
    hide *;
    Sizes();
    s := new Deflater(w, size, false, lazy, good, nice, chain, bufsize, fix, [], false);
    StartString(s);
    StartBetween(s.lz, w);
    NowIs(s.lz);
    ghost var u := s.lz.Now();
    BetweenRest(u, 0, w, size, 7);
    FirstCall(u.(rest := 7), w, size);
    Call(s, 0, 7, w, size, room);
    u := s.lz.Now();
    BetweenRest(u, 7, w, size, 1);
    EnteringIs();
    SecondCall(u.(rest := 1), w, size);
    Call(s, 7, 8, w, size, room);
    before := s.lz.Now();
    BetweenRest(before, 8, w, size, 1);
    ThirdCall(before.(rest := 1), w, size);
    Call(s, 8, 9, w, size, room);
    BetweenParts(before, 8, w, size);
    BetweenParts(s.lz.Now(), 9, w, size);
    NowIs(s.lz);
    AllBytes();
  }

  lemma EnteringIs()
    ensures Entering(7, 7) == 4 && Entering(1, 1) == 0
  {
  }

  lemma BetweenParts(u: Snap, n: nat, w: nat, size: nat)
    requires Between(u, n, w, size)
    ensures u.input == Whole()[..n] && |u.chains.head| == HASH_SIZE == 65536 && |u.chains.prev| == w
  {
    hide Padded, Whole;
  }
}
