/** inffast_tpl.h, "entry assumptions": the accumulator is said to hold fewer than eight bits when the fast loop starts.
    A call of inflate() that ran out of input in the middle of a code leaves more, and the next call starts with
    them. */
module EntryBits {
  import opened Bits
  import opened Canonical
  import opened TableSpec
  import opened TableLookup
  import opened Tokens
  import opened FixedCodes
  import opened FlushBlock
  import opened InflateSpec
  import opened InflateRun
  import opened Decoding
  import opened BlockRoundTrip
  import opened InflateModes

  /** Some symbol is only recognized with more than n bits at hand. */
  ghost predicate NeedsMoreThan(ll: seq<nat>, n: nat)
    requires |ll| <= 288
  {
    exists s: nat :: Coded(ll, s) && Need(LENS, s, ll[s]) > n
  }

  /** With fewer bits than a longer code has, nothing is recognized. */
  lemma InsideOfCode(ll: seq<nat>, s: nat, n: nat)
    requires |ll| <= 288 && Accepts(LENS, ll) && Coded(ll, s) && 1 <= n < ll[s]
    ensures Lookup(LENS, ll, Codeword(ll, s)[..n]) == More
  {
    hide Codeword, Need, Kraft, Complete, Accepts;
    var b := Codeword(ll, s)[..n];
    AcceptsKraft(LENS, ll);
    if !Complete(ll) { ShortOnly(LENS, ll, s); }
    forall t: nat | Starts(ll, b, t)
      ensures false
    {
      assert Codeword(ll, t) <= Codeword(ll, s);
      PrefixFree(ll, t, s);
    }
  }

  /** The code of a symbol, filled up with zeros, does not do if the symbol needs more bits than that. */
  lemma BehindCode(ll: seq<nat>, s: nat, n: nat)
    requires |ll| <= 288 && Accepts(LENS, ll) && Coded(ll, s) && ll[s] <= n < Need(LENS, s, ll[s])
    ensures Lookup(LENS, ll, Codeword(ll, s) + Zeros(n - ll[s])) == More
  {
    hide Codeword, Need, Kraft, Complete, Accepts;
    AcceptsKraft(LENS, ll);
    LookupIs(LENS, ll, Codeword(ll, s) + Zeros(n - ll[s]), s);
  }

  /** If n or more bits do not do, some symbol needs more than n. */
  lemma MoreNeeds(ll: seq<nat>, b: Bits, n: nat)
    requires |ll| <= 288 && Accepts(LENS, ll) && |b| >= n >= 1 && Lookup(LENS, ll, b) == More
    ensures NeedsMoreThan(ll, n)
  {
    hide Codeword, Need, Kraft, Accepts;
    AcceptsKraft(LENS, ll);
    if exists s: nat :: Starts(ll, b, s) {
      var s := Owner(ll, b);
      assert Need(LENS, s, ll[s]) > n;
    } else {
      assert Complete(ll);
      var s := Covered(ll, b + Zeros(MAX_BITS));
      assert !Starts(ll, b, s);
      LongerPrefix(Codeword(ll, s), b, Zeros(MAX_BITS));
      assert ll[s] <= MAX_BITS by { KraftBound(ll, s); }
      EntryBits(LENS, s, ll[s]);
    }
  }

  lemma LongerPrefix(w: Bits, b: Bits, z: Bits)
    requires w <= b + z && !(w <= b)
    ensures |w| > |b|
  {
    forall i | 0 <= i < |w| && i < |b|
      ensures w[i] == b[i]
    {
      assert w[i] == (b + z)[i];
    }
  }

  lemma KraftBound(ll: seq<nat>, s: nat)
    requires Kraft(ll) && Coded(ll, s)
    ensures ll[s] <= MAX_BITS
  {
    hide Below;
  }

  /** Exactly when a stopped call may leave eight or more bits in mode LEN: when some symbol needs more than eight. */
  lemma EightBitsLeft(d: Dec)
    requires WellFormed(d) && d.mode.LEN?
    ensures |d.ll| <= 288 && ((exists b: Bits :: |b| >= 8 && Lean(d, b)) <==> NeedsMoreThan(d.ll, 8))
  {
    hide Codeword, Need, Lookup, Accepts, NeedsMoreThan, Act, Lean;
    SymbolsOf(d);
    if b: Bits :| |b| >= 8 && Lean(d, b) { LeanNeeds(d, b); }
    if NeedsMoreThan(d.ll, 8) { var b := NeedsLean(d); }
  }

  lemma SymbolsOf(d: Dec)
    requires WellFormed(d) && d.mode.LEN?
    ensures |d.ll| <= 288
  {
    hide Accepts;
  }

  lemma LeanNeeds(d: Dec, b: Bits)
    requires WellFormed(d) && d.mode.LEN? && |b| >= 8 && Lean(d, b)
    ensures NeedsMoreThan(d.ll, 8)
  {
    hide Codeword, Need, Lookup, Accepts, NeedsMoreThan, Act;
    ModeLen(d, b, [], 0);
    MoreNeeds(d.ll, b, 8);
  }

  lemma NeedsLean(d: Dec) returns (b: Bits)
    requires WellFormed(d) && d.mode.LEN? && NeedsMoreThan(d.ll, 8)
    ensures |b| >= 8 && Lean(d, b)
  {
    hide Codeword, Need, Lookup, Accepts, NeedsMoreThan, Act;
    var s := Needy(d.ll, 8);
    b := if Short(d.ll, s) then Codeword(d.ll, s) + Zeros(8 - d.ll[s]) else Codeword(d.ll, s)[..8];
    if Short(d.ll, s) { BehindCode(d.ll, s, 8); } else { InsideOfCode(d.ll, s, 8); }
    ModeLen(d, b, [], 0);
  }

  predicate Short(ll: seq<nat>, s: nat) { s < |ll| && ll[s] <= 8 }

  lemma Needy(ll: seq<nat>, n: nat) returns (s: nat)
    requires |ll| <= 288 && NeedsMoreThan(ll, n)
    ensures Coded(ll, s) && Need(LENS, s, ll[s]) > n
  {
    hide Need;
    s :| Coded(ll, s) && Need(LENS, s, ll[s]) > n;
  }

  // ---- codes without the two unused symbols ----

  /** For the codes of a dynamic block, which has at most 286 literal and length symbols: when some code is longer than
      eight bits. */
  lemma EightBitsLeftDynamic(d: Dec)
    requires WellFormed(d) && d.mode.LEN? && |d.ll| <= 286
    ensures (exists b: Bits :: |b| >= 8 && Lean(d, b)) <==> (exists s: nat :: Coded(d.ll, s) && d.ll[s] > 8)
  {
    hide Need, Accepts, Act;
    EightBitsLeft(d);
    AcceptsKraft(LENS, d.ll);
    forall s: nat | Coded(d.ll, s)
      ensures Need(LENS, s, d.ll[s]) == d.ll[s]
    {
      KraftBound(d.ll, s);
      NeedIs(LENS, s, d.ll[s]);
    }
  }

  // ---- a run that gets there ----

  /** The first eight of the nine bits of the fixed code of 144. */
  const HALF: Bits := [true, true, false, false, true, false, false, false]

  lemma Code144()
    ensures FixedL()[144] == 9 && Codeword(FixedL(), 144)[..8] == HALF
  {
    hide CodeVal, FixedL;
    FixedTable(144);
    Msb400();
  }

  lemma Msb400()
    ensures ToMsb(400, 9)[..8] == HALF
  {
    hide ToMsb;
    MsbNext(0, 0);
    MsbNext(1, 1);
    MsbNext(3, 2);
    MsbNext(6, 3);
    MsbNext(12, 4);
    MsbNext(25, 5);
    MsbNext(50, 6);
    MsbNext(100, 7);
    MsbNext(200, 8);
  }

  /** One bit more. */
  lemma MsbNext(v: nat, n: nat)
    ensures ToMsb(2 * v, n + 1) == ToMsb(v, n) + [false] && ToMsb(2 * v + 1, n + 1) == ToMsb(v, n) + [true]
    ensures ToMsb(v, 0) == []
  {
    assert (2 * v + 1) / 2 == v;
  }

  /** Five times the literal 144 in a fixed block, and eight more bits: seven bytes of input. */
  function Starving(): (u: Bits)
  {
    var toks := [Lit(144), Lit(144), Lit(144), Lit(144), Lit(144)];
    TypeBits(1, true) + (TokensBits(FixedL(), FixedD(32), toks) + HALF)
  }

  /** The entry condition is false: after these bytes inflate() stops in mode LEN with eight bits in the accumulator,
      and these are what the next call finds when it enters the fast loop. */
  lemma EightBitsReached(room: nat)
    requires room >= 5
    ensures WellFormed(Fresh())
    ensures var st := Run(State(Fresh(), Starving(), [], room));
      st.d.mode.LEN? && st.u == HALF && |HALF| == 8 && st.out == [144, 144, 144, 144, 144]
  {
    hide TypeBits, TokensBits, FixedL, FixedD, Reaches, Within, Codable, Accepts, Act, WellFormed, Run, Lookup;
    var toks := [Lit(144), Lit(144), Lit(144), Lit(144), Lit(144)];
    var d := Fresh();
    FreshBefore();
    FixedDecodable(toks);
    FiveLiterals();
    AfterTypeWellFormed(d, 1, true);
    var d1 := AfterType(d, 1, true);
    var u := TokensBits(FixedL(), FixedD(32), toks) + HALF;
    TypeStep(d, 1, true, u, [], room);
    var d2, k := TokensSteps(d1, toks, HALF, [], room);
    var a, b, c := State(d, TypeBits(1, true) + u, [], room), State(d1, u, [], room),
      State(d2, HALF, [144, 144, 144, 144, 144], room - 5);
    ReachesTrans(a, b, c, 1, k);
    HalfStarves(d2, c.out, c.room);
    ReachesRun(a, c, 1 + k);
    RunHalted(c);
  }

  lemma FiveLiterals()
    ensures var toks := [Lit(144), Lit(144), Lit(144), Lit(144), Lit(144)];
      Within([], toks) && Expand([], toks) == [144, 144, 144, 144, 144]
  {
    var t := Lit(144);
    ExpandLit([], t, [t, t, t, t]);
    ExpandLit([144], t, [t, t, t]);
    ExpandLit([144, 144], t, [t, t]);
    ExpandLit([144, 144, 144], t, [t]);
    ExpandLit([144, 144, 144, 144], t, []);
  }

  lemma ExpandLit(out: seq<nat>, t: Token, ts: seq<Token>)
    requires t.Lit?
    ensures Expand(out, [t] + ts) == Expand(out + [t.c], ts) && (Within(out, [t] + ts) <==> Within(out + [t.c], ts))
  {
    assert ([t] + ts)[1..] == ts;
  }

  lemma FreshBefore()
    ensures BeforeBlock(Fresh()) && WellFormed(Fresh())
  {
  }

  lemma HalfStarves(d: Dec, out: seq<nat>, room: nat)
    requires d.mode.LEN? && d.ll == FixedL()
    ensures Halted(State(d, HALF, out, room))
  {
    hide Lookup, FixedL, Accepts, Codeword;
    Code144();
    FixedAccepted();
    FixedCoded();
    InsideOfCode(FixedL(), 144, 8);
    ModeLen(d, HALF, out, room);
  }

  lemma FixedCoded()
    ensures |FixedL()| == 288 && Coded(FixedL(), 144)
  {
  }
}
