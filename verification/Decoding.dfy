/** What the encoder sends for a symbol is what the decoder makes of it. */
module Decoding {
  import opened Bits
  import opened Canonical
  import opened TableSpec
  import opened MatchCodes
  import opened Tokens
  import opened InflateSpec
  import opened InflateRun

  // ---- reaching a state ----

  /** st' is reached from st in k steps. */
  ghost predicate Reaches(st: State, st': State, k: nat)
    decreases k
  {
    if k == 0 then st == st' else !Halted(st) && Reaches(Next(st), st', k - 1)
  }

  lemma ReachesSelf(st: State)
    ensures Reaches(st, st, 0)
  {
  }

  lemma {:induction false} ReachesTrans(a: State, b: State, c: State, j: nat, k: nat)
    requires Reaches(a, b, j) && Reaches(b, c, k)
    ensures Reaches(a, c, j + k)
    decreases j
  {
    hide Act, Next;
    if j > 0 { ReachesTrans(Next(a), b, c, j - 1, k); }
  }

  lemma {:induction false} ReachesRun(a: State, b: State, k: nat)
    requires WellFormed(a.d) && Reaches(a, b, k)
    ensures WellFormed(b.d) && Run(a) == Run(b)
    decreases k
  {
    hide Act, Next, Run, WellFormed;
    if k > 0 {
      RunStep(a);
      ReachesRun(Next(a), b, k - 1);
    }
  }

  /** One step: bits p are consumed and e is written. */
  lemma OneStep(d: Dec, p: Bits, rest: Bits, out: seq<nat>, room: nat, d': Dec, e: seq<nat>)
    requires Act(d, p + rest, out, room) == Go(d', |p|, e)
    ensures |e| <= room && Reaches(State(d, p + rest, out, room), State(d', rest, out + e, room - |e|), 1)
  {
    hide Act;
    var st := State(d, p + rest, out, room);
    assert (p + rest)[|p|..] == rest;
    assert Next(st) == State(d', rest, out + e, room - |e|);
    assert Reaches(Next(st), Next(st), 0);
  }

  // ---- fields and symbols ----

  lemma FieldOfConcat(a: Bits, b: Bits, rest: Bits)
    ensures Field(a + (b + rest), |a|, |b|) == FromBits(b)
  {
    hide FromBits;
    assert (a + (b + rest))[|a|..|a| + |b|] == b;
  }

  /** A value that fits its field comes back. */
  lemma FieldOfValue(v: nat, n: nat, rest: Bits)
    ensures Field(ToBits(v, n) + rest, 0, n) == Low(v, n)
  {
    hide ToBits, FromBits;
    var b := ToBits(v, n);
    assert (b + rest)[0..n] == b;
  }

  lemma LowFits(v: nat, n: nat)
    requires v < Pow2(n)
    ensures Low(v, n) == v
  {
    FromBitsToBits(v, n);
  }

  lemma NeedIs(ty: CodeType, s: nat, n: nat)
    requires s < MaxSymbols(ty) && (ty == LENS ==> s < 286) && n <= 15
    ensures Need(ty, s, n) == n
  {
    if ty == LENS && s >= 257 {
      LExtRange(s - 257);
      NeedOp(ty, s, n, LEXT[s - 257]);
    } else if ty == DISTS {
      DExtRange(s);
      NeedOp(ty, s, n, DEXT[s]);
    }
  }

  lemma NeedOp(ty: CodeType, s: nat, n: nat, op: nat)
    requires s < MaxSymbols(ty) && s >= TableSpec.Match(ty) && n <= 15 && (16 <= op < 32 || op == 64)
    requires ty != CODES && op == if ty == LENS then LEXT[s - 257] else DEXT[s]
    ensures Need(ty, s, n) == n
  {
    CombinedOp(op, n);
  }

  lemma CombinedOp(op: nat, n: nat)
    requires n <= 15 && (16 <= op < 32 || op == 64)
    ensures 16 <= op < 32 ==> op / 16 % 2 == 1 && (n + 16) / 16 % 2 == 1
    ensures op == 64 ==> op / 16 % 2 == 0 && op % 16 == 0
  {
  }

  lemma LExtRange(k: nat)
    requires k < 29
    ensures 16 <= LEXT[k] < 32
  {
  }

  lemma DExtRange(k: nat)
    requires k < 32
    ensures 16 <= DEXT[k] < 32 || DEXT[k] == 64
  {
  }

  /** The code of a symbol is recognized whatever follows it. */
  lemma LookupCode(ty: CodeType, lens: seq<nat>, s: nat, rest: Bits)
    requires |lens| <= MaxSymbols(ty) && Kraft(lens) && Coded(lens, s) && (ty == LENS ==> s < 286)
    ensures Lookup(ty, lens, CodeBits(lens, s) + rest) == Sym(s, |CodeBits(lens, s)|)
  {
    hide Codeword, Below, Need, EntryFor;
    NeedIs(ty, s, lens[s]);
    assert Starts(lens, CodeBits(lens, s) + rest, s);
    LookupIs(ty, lens, CodeBits(lens, s) + rest, s);
  }

  // ---- one token ----

  /** A state in which symbols of the block are read. */
  ghost predicate InBlock(d: Dec) { WellFormed(d) && d.mode.LEN? }

  function CopyMatch(out: seq<nat>, dist: nat, n: nat): (r: seq<nat>)
    decreases n
  {
    if n == 0 || dist == 0 || dist > |out| then out else CopyMatch(out + [out[|out| - dist]], dist, n - 1)
  }

  /** The output after one token. */
  function ExpandOne(out: seq<nat>, t: Token): (r: seq<nat>)
  {
    match t case Lit(c) => out + [c] case Match(lc, dist) => CopyMatch(out, dist, lc + 3)
  }

  /** The output after all tokens. */
  function Expand(out: seq<nat>, toks: seq<Token>): (r: seq<nat>)
    decreases |toks|
  {
    if |toks| == 0 then out else Expand(ExpandOne(out, toks[0]), toks[1..])
  }

  /** No distance reaches back past the start of the output. */
  predicate Within(out: seq<nat>, toks: seq<Token>)
    decreases |toks|
  {
    |toks| == 0 || ((toks[0].Match? ==> toks[0].dist <= |out|) && Within(ExpandOne(out, toks[0]), toks[1..]))
  }

  lemma {:induction false} CopyLength(out: seq<nat>, dist: nat, n: nat)
    requires 1 <= dist <= |out|
    ensures |CopyMatch(out, dist, n)| == |out| + n
    decreases n
  {
    if n > 0 { CopyLength(out + [out[|out| - dist]], dist, n - 1); }
  }

  lemma {:induction false} ExpandLength(out: seq<nat>, toks: seq<Token>)
    requires Within(out, toks) && forall i :: 0 <= i < |toks| ==> ValidToken(toks[i])
    ensures |Expand(out, toks)| >= |out| + |toks|
    decreases |toks|
  {
    if |toks| > 0 {
      if toks[0].Match? { CopyLength(out, toks[0].dist, toks[0].lc + 3); }
      ExpandLength(ExpandOne(out, toks[0]), toks[1..]);
    }
  }

  /** Two steps in a row, of which the second consumes nothing. */
  lemma TwoSteps(d: Dec, p: Bits, rest: Bits, out: seq<nat>, room: nat, d1: Dec, d2: Dec, e: seq<nat>)
    requires Act(d, p + rest, out, room) == Go(d1, |p|, []) && Act(d1, rest, out, room) == Go(d2, 0, e)
    ensures |e| <= room && Reaches(State(d, p + rest, out, room), State(d2, rest, out + e, room - |e|), 2)
  {
    hide Act, Reaches;
    OneStep(d, p, rest, out, room, d1, []);
    assert out + [] == out && [] + rest == rest;
    OneStep(d1, [], rest, out, room, d2, e);
    ReachesTrans(State(d, p + rest, out, room), State(d1, rest, out, room), State(d2, rest, out + e, room - |e|), 1, 1);
  }

  lemma LenCode(d: Dec, s: nat, rest: Bits)
    requires InBlock(d) && s < 286 && Coded(d.ll, s)
    ensures Lookup(LENS, d.ll, CodeBits(d.ll, s) + rest) == Sym(s, |CodeBits(d.ll, s)|) && |d.ll| <= 288
  {
    hide Kraft, Complete;
    AcceptsKraft(LENS, d.ll);
    LookupCode(LENS, d.ll, s, rest);
  }

  /** The action of a length code in the mode that reads one. */
  lemma ActLenIs(d: Dec, s: nat, rest: Bits, out: seq<nat>, room: nat)
    requires InBlock(d) && s < 286 && Coded(d.ll, s)
    ensures Act(d, CodeBits(d.ll, s) + rest, out, room) == LenSym(d, s, |CodeBits(d.ll, s)|)
  {
    LenCode(d, s, rest);
    hide Lookup, CodeBits, WellFormed, LenSym, Coded;
    ModeLen(d, CodeBits(d.ll, s) + rest, out, room);
  }

  lemma ModeLen(d: Dec, u: Bits, out: seq<nat>, room: nat)
    requires d.mode.LEN?
    ensures Act(d, u, out, room) == ActLen(d, u)
  {
    hide ActLen;
  }

  lemma ActLitIs(d: Dec, u: Bits, out: seq<nat>, room: nat)
    requires d.mode.LIT? && room >= 1
    ensures Act(d, u, out, room) == Go(d.(mode := LEN, toks := d.toks + [Lit(d.length)]), 0, [d.length])
  {
  }

  lemma LitIs(d: Dec, c: nat, n: nat)
    requires c < 256
    ensures LenSym(d, c, n) == Go(d.(mode := LIT, length := c), n, [])
  {
  }

  /** A literal takes two steps: the code, and the byte. */
  lemma LitSteps(d: Dec, c: nat, rest: Bits, out: seq<nat>, room: nat)
    requires InBlock(d) && c < 256 && Coded(d.ll, c) && room >= 1
    ensures Reaches(State(d, CodeBits(d.ll, c) + rest, out, room),
                    State(d.(length := c, toks := d.toks + [Lit(c)]), rest, out + [c], room - 1), 2)
  {
    hide CodeBits, WellFormed, Act, Reaches, LenSym;
    ActLenIs(d, c, rest, out, room);
    var p, d1 := CodeBits(d.ll, c), d.(mode := LIT, length := c);
    LitIs(d, c, |p|);
    ActLitIs(d1, rest, out, room);
    TwoSteps(d, p, rest, out, room, d1, d1.(mode := LEN, toks := d.toks + [Lit(c)]), [c]);
  }

  lemma LengthIs(d: Dec, lc: nat, n: nat)
    requires lc < 256
    ensures LengthCode(lc) < 29
    ensures LenSym(d, 257 + LengthCode(lc), n) ==
            Go(d.(mode := LENEXT, length := LBASE[LengthCode(lc)], extra := ExtraL(LengthCode(lc))), n, [])
  {
    hide LengthCode, ExtraL, Low, LenSym;
    LengthDecodes(lc);
    LExtRange(LengthCode(lc));
    LenSymOf(d, LengthCode(lc), n);
  }

  lemma LenSymOf(d: Dec, k: nat, n: nat)
    requires k < 29 && 16 <= LEXT[k] < 32
    ensures LenSym(d, 257 + k, n) == Go(d.(mode := LENEXT, length := LBASE[k], extra := LEXT[k] - 16), n, [])
  {
    OpField(LEXT[k]);
  }

  lemma DistIs(d: Dec, dist: nat, n: nat)
    requires 1 <= dist <= 32768
    ensures DistCode(dist - 1) < 30
    ensures DistSym(d, DistCode(dist - 1), n) ==
            Go(d.(mode := DISTEXT, offset := DBASE[DistCode(dist - 1)], extra := ExtraD(DistCode(dist - 1))), n, [])
  {
    hide DistCode, ExtraD, Low, DistSym;
    DistDecodes(dist - 1);
    DExtSmall(DistCode(dist - 1));
    DistSymOf(d, DistCode(dist - 1), n);
  }

  lemma DistSymOf(d: Dec, s: nat, n: nat)
    requires s < 30 && 16 <= DEXT[s] < 32
    ensures DistSym(d, s, n) == Go(d.(mode := DISTEXT, offset := DBASE[s], extra := DEXT[s] - 16), n, [])
  {
    OpField(DEXT[s]);
  }

  lemma OpField(op: nat)
    requires 16 <= op < 32
    ensures op / 64 % 2 == 0 && op % 16 == op - 16
  {
  }

  lemma DExtSmall(k: nat)
    requires k < 30
    ensures 16 <= DEXT[k] < 32
  {
  }

  lemma ActDistIs(d: Dec, s: nat, rest: Bits, out: seq<nat>, room: nat)
    requires WellFormed(d) && d.mode.DIST? && s < 30 && Coded(d.dl, s)
    ensures Act(d, CodeBits(d.dl, s) + rest, out, room) == DistSym(d, s, |CodeBits(d.dl, s)|)
  {
    DistLookup(d, s, rest);
    hide Lookup, CodeBits, WellFormed, DistSym, Coded;
    ModeDist(d, CodeBits(d.dl, s) + rest, out, room);
  }

  lemma ModeDist(d: Dec, u: Bits, out: seq<nat>, room: nat)
    requires d.mode.DIST?
    ensures Act(d, u, out, room) == ActDist(d, u)
  {
    hide ActDist;
  }

  lemma DistLookup(d: Dec, s: nat, rest: Bits)
    requires WellFormed(d) && d.mode.DIST? && s < 30 && Coded(d.dl, s)
    ensures Lookup(DISTS, d.dl, CodeBits(d.dl, s) + rest) == Sym(s, |CodeBits(d.dl, s)|) && |d.dl| <= 32
  {
    hide Kraft, Complete;
    AcceptsKraft(DISTS, d.dl);
    LookupCode(DISTS, d.dl, s, rest);
  }

  /** Extra bits of a length, and of a distance. */
  lemma ActExtIs(d: Dec, v: nat, rest: Bits, out: seq<nat>, room: nat)
    requires d.mode.LENEXT? || d.mode.DISTEXT?
    ensures Act(d, ToBits(v, d.extra) + rest, out, room) ==
      if d.mode.LENEXT? then Go(d.(mode := DIST, length := d.length + Low(v, d.extra)), d.extra, [])
      else Go(d.(mode := MATCH, offset := d.offset + Low(v, d.extra),
                 toks := d.toks + [Match(if d.length >= 3 then d.length - 3 else 0, d.offset + Low(v, d.extra))]),
                   d.extra, [])
  {
    hide Field, Low, ToBits;
    FieldOfValue(v, d.extra, rest);
  }

  /** The state that a match leads to before its bytes are copied. */
  function BeforeCopy(d: Dec, lc: nat, dist: nat): (d': Dec)
    requires dist > 0
  {
    d.(mode := MATCH, length := lc + 3, offset := dist, extra := ExtraD(DistCode(dist - 1)),
      toks := d.toks + [Match(lc, dist)])
  }

  /** The length of a match takes two steps. */
  lemma LengthSteps(d: Dec, lc: nat, rest: Bits, out: seq<nat>, room: nat)
    requires InBlock(d) && lc < 256 && Coded(d.ll, 257 + LengthCode(lc))
    ensures Reaches(State(d, CodeBits(d.ll, 257 + LengthCode(lc)) + (ToBits(lc, ExtraL(LengthCode(lc))) + rest), out,
                          room),
                    State(d.(mode := DIST, length := lc + 3, extra := ExtraL(LengthCode(lc))), rest, out, room), 2)
  {
    hide CodeBits, WellFormed, Act, Reaches, LenSym, LengthCode, ExtraL, Low, ToBits;
    var k := LengthCode(lc);
    LengthDecodes(lc);
    var p, q, d1 := CodeBits(d.ll, 257 + k), ToBits(lc, ExtraL(k)),
      d.(mode := LENEXT, length := LBASE[k], extra := ExtraL(k));
    ActLenIs(d, 257 + k, q + rest, out, room);
    LengthIs(d, lc, |p|);
    OneStep(d, p, q + rest, out, room, d1, []);
    ActExtIs(d1, lc, rest, out, room);
    var d2 := d.(mode := DIST, length := lc + 3, extra := ExtraL(k));
    OneStep(d1, q, rest, out, room, d2, []);
    assert out + [] == out;
    ReachesTrans(State(d, p + (q + rest), out, room), State(d1, q + rest, out, room), State(d2, rest, out, room), 1, 1);
  }

  lemma DistanceSteps(d: Dec, dist: nat, rest: Bits, out: seq<nat>, room: nat)
    requires WellFormed(d) && d.mode.DIST? && 3 <= d.length <= 258 && 1 <= dist <= 32768 &&
      Coded(d.dl, DistCode(dist - 1))
    ensures var k := DistCode(dist - 1);
      Reaches(State(d, CodeBits(d.dl, k) + (ToBits(dist - 1, ExtraD(k)) + rest), out, room),
              State(BeforeCopy(d, d.length - 3, dist), rest, out, room), 2)
  {
    hide CodeBits, WellFormed, Act, Reaches, DistSym, DistCode, ExtraD, Low, ToBits;
    var k := DistCode(dist - 1);
    DistDecodes(dist - 1);
    var p, q, d1 := CodeBits(d.dl, k), ToBits(dist - 1, ExtraD(k)),
      d.(mode := DISTEXT, offset := DBASE[k], extra := ExtraD(k));
    ActDistIs(d, k, q + rest, out, room);
    DistIs(d, dist, |p|);
    OneStep(d, p, q + rest, out, room, d1, []);
    ActExtIs(d1, dist - 1, rest, out, room);
    var d2 := BeforeCopy(d, d.length - 3, dist);
    OneStep(d1, q, rest, out, room, d2, []);
    assert out + [] == out;
    ReachesTrans(State(d, p + (q + rest), out, room), State(d1, q + rest, out, room), State(d2, rest, out, room), 1, 1);
  }

  lemma ActMatchIs(d: Dec, u: Bits, out: seq<nat>, room: nat)
    requires d.mode.MATCH? && room >= 1 && 1 <= d.offset <= |out| && d.length >= 1
    ensures Act(d, u, out, room) ==
            Go(d.(length := d.length - 1, mode := if d.length == 1 then LEN else MATCH), 0, [out[|out| - d.offset]])
  {
  }

  // ---- all tokens of a block ----

  /** n steps of MATCH. */
  lemma {:induction false} CopySteps(d: Dec, u: Bits, out: seq<nat>, room: nat, n: nat)
    requires d.mode.MATCH? && 1 <= d.offset <= |out| && 1 <= n <= d.length && n <= room
    ensures |CopyMatch(out, d.offset, n)| == |out| + n
    ensures Reaches(State(d, u, out, room),
                    State(d.(length := d.length - n, mode := if d.length == n then LEN else MATCH), u,
                      CopyMatch(out, d.offset, n), room - n), n)
    decreases n
  {
    hide Act, Reaches;
    CopyLength(out, d.offset, n);
    ActMatchIs(d, u, out, room);
    var b := out[|out| - d.offset];
    var d1 := d.(length := d.length - 1, mode := if d.length == 1 then LEN else MATCH);
    assert [] + u == u;
    OneStep(d, [], u, out, room, d1, [b]);
    var last := State(d.(length := d.length - n, mode := if d.length == n then LEN else MATCH), u,
      CopyMatch(out, d.offset, n), room - n);
    if n == 1 {
      assert CopyMatch(out + [b], d.offset, 0) == out + [b];
      assert last == State(d1, u, out + [b], room - 1);
    } else {
      CopySteps(d1, u, out + [b], room - 1, n - 1);
      ReachesTrans(State(d, u, out, room), State(d1, u, out + [b], room - 1), last, 1, n - 1);
    }
  }

  /** d' is d after the tokens ts of the same block. */
  ghost predicate Follows(d: Dec, d': Dec, ts: seq<Token>)
  {
    InBlock(d') && d'.ll == d.ll && d'.dl == d.dl && d'.last == d.last && d'.toks == d.toks + ts
  }

  /** One token is decoded to itself and expanded. */
  lemma TokenSteps(d: Dec, t: Token, rest: Bits, out: seq<nat>, room: nat) returns (d': Dec, k: nat)
    requires InBlock(d) && Codable(d.ll, d.dl, t) && (t.Match? ==> t.dist <= |out|) &&
      |ExpandOne(out, t)| <= |out| + room
    ensures Follows(d, d', [t]) && |out| < |ExpandOne(out, t)|
    ensures Reaches(State(d, TokenBits(d.ll, d.dl, t) + rest, out, room),
                    State(d', rest, ExpandOne(out, t), |out| + room - |ExpandOne(out, t)|), k)
  {
    hide CodeBits, Reaches, Accepts, LengthCode, DistCode, ExtraL, ExtraD, ToBits;
    match t {
      case Lit(c) =>
        LitSteps(d, c, rest, out, room);
        d', k := d.(length := c, toks := d.toks + [Lit(c)]), 2;
      case Match(lc, dist) =>
        CopyLength(out, dist, lc + 3);
        d' := MatchSteps(d, lc, dist, rest, out, room);
        k := lc + 7;
    }
  }

  lemma MatchSteps(d: Dec, lc: nat, dist: nat, rest: Bits, out: seq<nat>, room: nat) returns (d': Dec)
    requires InBlock(d) && Codable(d.ll, d.dl, Match(lc, dist)) && dist <= |out| && lc + 3 <= room
    ensures Follows(d, d', [Match(lc, dist)])
    ensures Reaches(State(d, TokenBits(d.ll, d.dl, Match(lc, dist)) + rest, out, room),
                    State(d', rest, CopyMatch(out, dist, lc + 3), room - lc - 3), lc + 7)
  {
    hide CodeBits, Reaches, Accepts, LengthCode, DistCode, ExtraL, ExtraD, ToBits, CopyMatch;
    var j, k := LengthCode(lc), DistCode(dist - 1);
    var p, q, r, s := CodeBits(d.ll, 257 + j), ToBits(lc, ExtraL(j)), CodeBits(d.dl, k), ToBits(dist - 1, ExtraD(k));
    MatchBitsSplit(d, lc, dist, rest);
    var d1 := d.(mode := DIST, length := lc + 3, extra := ExtraL(j));
    LengthSteps(d, lc, r + (s + rest), out, room);
    DistanceSteps(d1, dist, rest, out, room);
    var d2 := BeforeCopy(d1, lc, dist);
    CopySteps(d2, rest, out, room, d2.length);
    d' := d2.(length := 0, mode := LEN);
    var st := State(d, TokenBits(d.ll, d.dl, Match(lc, dist)) + rest, out, room);
    ReachesTrans(st, State(d1, r + (s + rest), out, room), State(d2, rest, out, room), 2, 2);
    ReachesTrans(st, State(d2, rest, out, room), State(d', rest, CopyMatch(out, dist, lc + 3), room - lc - 3), 4,
      lc + 3);
  }

  lemma MatchBitsSplit(d: Dec, lc: nat, dist: nat, rest: Bits)
    requires dist > 0
    ensures var j, k := LengthCode(lc), DistCode(dist - 1);
      TokenBits(d.ll, d.dl, Match(lc, dist)) + rest ==
      CodeBits(d.ll, 257 + j) + (ToBits(lc, ExtraL(j)) + (CodeBits(d.dl, k) + (ToBits(dist - 1, ExtraD(k)) + rest)))
  {
    hide CodeBits, LengthCode, DistCode, ExtraL, ExtraD, ToBits;
  }

  lemma {:induction false} TokensSteps(d: Dec, toks: seq<Token>, rest: Bits, out: seq<nat>, room: nat)
    returns (d': Dec, k: nat)
    requires InBlock(d) && (forall i :: 0 <= i < |toks| ==> Codable(d.ll, d.dl, toks[i])) && Within(out, toks)
    requires |Expand(out, toks)| <= |out| + room
    ensures Follows(d, d', toks) && |out| <= |Expand(out, toks)|
    ensures Reaches(State(d, TokensBits(d.ll, d.dl, toks) + rest, out, room),
                    State(d', rest, Expand(out, toks), |out| + room - |Expand(out, toks)|), k)
    decreases |toks|
  {
    hide TokenBits, InBlock, Codable, ExpandOne, Reaches;
    if |toks| == 0 {
      d', k := d, 0;
      assert [] + rest == rest && d.toks + [] == d.toks;
      ReachesSelf(State(d, rest, out, room));
    } else {
      var t, ts := toks[0], toks[1..];
      CodableValid(d.ll, d.dl, toks);
      FirstFits(out, toks);
      var tail := TokensBits(d.ll, d.dl, ts) + rest;
      var out1 := ExpandOne(out, t);
      var d1, k1 := TokenSteps(d, t, tail, out, room);
      var room1 := |out| + room - |out1|;
      var d2, k2 := TokensSteps(d1, ts, rest, out1, room1);
      d', k := d2, k1 + k2;
      assert TokensBits(d.ll, d.dl, toks) + rest == TokenBits(d.ll, d.dl, t) + tail;
      ReachesTrans(State(d, TokenBits(d.ll, d.dl, t) + tail, out, room), State(d1, tail, out1, room1),
                   State(d2, rest, Expand(out1, ts), |out1| + room1 - |Expand(out1, ts)|), k1, k2);
      assert [t] + ts == toks && d.toks + [t] + ts == d.toks + toks;
    }
  }

  lemma CodableValid(ll: seq<nat>, dl: seq<nat>, toks: seq<Token>)
    requires forall i :: 0 <= i < |toks| ==> Codable(ll, dl, toks[i])
    ensures forall i :: 0 <= i < |toks| ==> ValidToken(toks[i])
  {
    hide LSym, DSym;
  }

  lemma FirstFits(out: seq<nat>, toks: seq<Token>)
    requires |toks| > 0 && Within(out, toks) && forall i :: 0 <= i < |toks| ==> ValidToken(toks[i])
    ensures |out| <= |ExpandOne(out, toks[0])| <= |Expand(out, toks)|
  {
    if toks[0].Match? { CopyLength(out, toks[0].dist, toks[0].lc + 3); }
    ExpandLength(ExpandOne(out, toks[0]), toks[1..]);
  }

  /** The data of a block is decoded to its tokens and the end of the block. */
  lemma BodySteps(d: Dec, toks: seq<Token>, rest: Bits, out: seq<nat>, room: nat)
    returns (d': Dec, k: nat)
    requires InBlock(d) && (forall i :: 0 <= i < |toks| ==> Codable(d.ll, d.dl, toks[i])) && Within(out, toks)
    requires |Expand(out, toks)| <= |out| + room && Coded(d.ll, END_BLOCK)
    ensures WellFormed(d') && d'.mode.TYPE? && d'.last == d.last && d'.toks == d.toks + toks &&
      |out| <= |Expand(out, toks)|
    ensures Reaches(State(d, BodyBits(d.ll, d.dl, toks) + rest, out, room),
                    State(d', rest, Expand(out, toks), |out| + room - |Expand(out, toks)|), k)
  {
    hide TokensBits, CodeBits, Expand, Within, Reaches, Codable, Accepts;
    var e := CodeBits(d.ll, END_BLOCK);
    assert BodyBits(d.ll, d.dl, toks) + rest == TokensBits(d.ll, d.dl, toks) + (e + rest);
    var d1, k1 := TokensSteps(d, toks, e + rest, out, room);
    var out1 := Expand(out, toks);
    var room1 := |out| + room - |out1|;
    ActLenIs(d1, END_BLOCK, rest, out1, room1);
    EndIs(d1, |e|);
    d' := d1.(mode := TYPE);
    OneStep(d1, e, rest, out1, room1, d', []);
    assert out1 + [] == out1;
    k := k1 + 1;
    ReachesTrans(State(d, BodyBits(d.ll, d.dl, toks) + rest, out, room), State(d1, e + rest, out1, room1),
                 State(d', rest, out1, room1), k1, 1);
  }

  lemma EndIs(d: Dec, n: nat)
    ensures LenSym(d, END_BLOCK, n) == Go(d.(mode := TYPE), n, [])
  {
  }
}
