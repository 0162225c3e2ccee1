/** inffast_tpl.h INFLATE_FAST, the normal and the safe variant: symbols are decoded without checking the input, from an
    accumulator that is refilled eight bytes at a time. The loop does what the decoder over bits does. */
module InflateFast {
  import opened Bits
  import opened TableSpec
  import opened Tokens
  import opened FlushBlock
  import opened InflateSpec
  import opened InflateRun
  import opened Decoding
  import opened TableLookup
  import opened BitWriter
  import opened BitReader
  import opened Window
  import opened MatchCopy
  import opened InflateModes
  import opened InflateCodes
  import opened InflateOutput
  import opened Reservoir
  import opened FastSteps

  const INFLATE_FAST_MIN_HAVE: nat := 15
  const INFLATE_FAST_MIN_LEFT: nat := 260
  const INFLATE_FAST_MIN_SAFE: nat := 3

  /** The local variables of the loop. */
  datatype Regs = Regs(h: Word, bits: nat, idx: nat, put: nat)

  /** What does not change during the loop: the tables and the codes. */
  ghost predicate Tables(l: seq<Entry>, lenbits: nat, t: seq<Entry>, distbits: nat, d: Dec)
  {
    WellFormed(d) && Decodes(l, lenbits, LENS, d.ll) && Decodes(t, distbits, DISTS, d.dl) && lenbits <= 10 &&
      distbits <= 9 &&
    Accepts(LENS, d.ll) && Accepts(DISTS, d.dl)
  }

  lemma TablesParts(l: seq<Entry>, lenbits: nat, t: seq<Entry>, distbits: nat, d: Dec)
    requires Tables(l, lenbits, t, distbits, d)
    ensures Decodes(l, lenbits, LENS, d.ll) && Decodes(t, distbits, DISTS, d.dl) && lenbits <= 10 && distbits <= 9
    ensures Accepts(LENS, d.ll) && Accepts(DISTS, d.dl) && |d.ll| <= 288 && |d.dl| <= 32 && WellFormed(d)
  {
    hide Decodes, Accepts;
  }

  lemma TablesStay(l: seq<Entry>, lenbits: nat, t: seq<Entry>, distbits: nat, d: Dec, d': Dec)
    requires Tables(l, lenbits, t, distbits, d) && WellFormed(d') && d'.ll == d.ll && d'.dl == d.dl
    ensures Tables(l, lenbits, t, distbits, d')
  {
    hide Decodes, Accepts, WellFormed;
  }

  /** The accumulator agrees with the unread bits u, and there is input for another refill. */
  ghost predicate Loaded(r: Regs, inp: seq<Byte>, u: Bits, least: nat)
  {
    Agrees(r.h, r.bits, inp, r.idx, u) && r.bits >= least && r.idx + 8 <= |inp|
  }

  lemma LoadedParts(r: Regs, inp: seq<Byte>, u: Bits, least: nat)
    requires Loaded(r, inp, u, least)
    ensures least <= r.bits <= 63 && |u| >= r.bits + 64 && r.h[..r.bits] == u[..r.bits]
  {
    hide BytesBits;
    AgreesParts(r.h, r.bits, inp, r.idx, u);
  }

  lemma LoadedDrop(r: Regs, inp: seq<Byte>, u: Bits, least: nat, n: nat)
    requires Loaded(r, inp, u, least) && n <= least
    ensures r.bits <= 63 && n <= r.bits && n <= |u|
    ensures Loaded(r.(h := Shr(r.h, n), bits := r.bits - n), inp, u[n..], least - n)
  {
    hide Agrees;
    LoadedParts(r, inp, u, least);
    DropAgrees(r.h, r.bits, inp, r.idx, u, n);
  }

  // ---- literals ----

  /** The entry for the next literal or length at the first level. */
  method LenLookup(l: array<Entry>, lenbits: nat, r: Regs, inp: seq<Byte>, ghost d: Dec, ghost u: Bits,
                   ghost least: nat, ghost t: seq<Entry>, ghost distbits: nat)
    returns (here: Entry)
    requires Tables(l[..], lenbits, t, distbits, d) && Loaded(r, inp, u, least) && least >= 10 && d.mode.LEN?
    ensures |d.ll| <= 288 && lenbits <= 10 <= r.bits <= 63 && BitsOf(r.h, lenbits) < l.Length &&
      here == l[BitsOf(r.h, lenbits)]
    ensures if IsLink(here) then here.bits == lenbits
            else Recognized(LENS, d.ll, u, here, 0) && (Lookup(LENS, d.ll, u).Sym? ==> Lookup(LENS, d.ll, u).n <= 10)
  {
    hide Tables, Loaded, Decodes, Accepts, BitsOf, IsLink, Recognized, Lookup;
    TablesParts(l[..], lenbits, t, distbits, d);
    LoadedParts(r, inp, u, least);
    FirstEntry(LENS, d.ll, l[..], lenbits, r.h, r.bits, u);
    here := l[BitsOf(r.h, lenbits)];
  }

  /** Drop a literal and write it. */
  method PutLit(out: array<nat>, r: Regs, inp: seq<Byte>, here: Entry, n0: nat, ghost total: seq<nat>, ghost d: Dec,
                ghost u: Bits, ghost least: nat, ghost l: seq<Entry>, ghost lenbits: nat, ghost t: seq<Entry>,
                ghost distbits: nat)
    returns (r': Regs, ghost d': Dec, ghost u': Bits)
    requires Tables(l, lenbits, t, distbits, d) && d.mode.LEN? && |d.ll| <= 288 &&
      Recognized(LENS, d.ll, u, here, n0) && here.op == 0
    requires n0 <= |u| && Loaded(r, inp, u[n0..], least) && here.bits <= least && r.put < out.Length
    modifies out
    ensures r'.put == r.put + 1 && u' == u[n0 + here.bits..] && Loaded(r', inp, u', least - here.bits) && |u'| < |u|
    ensures d'.mode.LEN? && Tables(l, lenbits, t, distbits, d') && d'.ll == d.ll && d'.dl == d.dl && d'.last == d.last
    ensures Leads(State(d, u, total + old(out[..r.put]), out.Length - r.put),
      State(d', u', total + out[..r'.put], out.Length - r'.put))
    ensures r'.idx == r.idx && out[..r.put] == old(out[..r.put])
  {
    hide Tables, Loaded, Recognized, Leads, WellFormed;
    ghost var o := total + out[..r.put];
    LitLeads(d, u, o, out.Length - r.put, here, n0);
    LoadedDrop(r, inp, u[n0..], least, here.bits);
    LenEntrySize(d.ll, u, here, n0);
    r' := Regs(Shr(r.h, here.bits), r.bits - here.bits, r.idx, r.put + 1);
    out[r.put] := here.val;
    d' := d.(length := here.val, toks := d.toks + [Lit(here.val)]);
    u' := u[n0 + here.bits..];
    assert u[n0..][here.bits..] == u';
    assert total + out[..r'.put] == o + [here.val];
    LoadedPut(r', inp, u', least - here.bits, r.put);
    LitTables(l, lenbits, t, distbits, d, State(d, u, o, out.Length - r.put),
      State(d', u', total + out[..r'.put], out.Length - r'.put));
    LitPositive(d.ll, u, here, n0);
  }

  lemma LoadedPut(r: Regs, inp: seq<Byte>, u: Bits, least: nat, put: nat)
    requires Loaded(r.(put := put), inp, u, least)
    ensures Loaded(r, inp, u, least)
  {
    hide Agrees;
  }

  lemma LitTables(l: seq<Entry>, lenbits: nat, t: seq<Entry>, distbits: nat, d: Dec, a: State, b: State)
    requires Tables(l, lenbits, t, distbits, d) && a.d == d && Leads(a, b) && b.d.ll == d.ll && b.d.dl == d.dl
    ensures Tables(l, lenbits, t, distbits, b.d)
  {
    hide Tables, Leads, WellFormed;
    TablesParts(l, lenbits, t, distbits, d);
    LeadsKeeps(a, b);
    TablesStay(l, lenbits, t, distbits, d, b.d);
  }

  lemma LitPositive(ll: seq<nat>, u: Bits, e: Entry, n0: nat)
    requires |ll| <= 288 && Recognized(LENS, ll, u, e, n0) && e.op == 0
    ensures 0 < n0 + e.bits <= |u|
  {
    hide Lookup;
    LenEntrySize(ll, u, e, n0);
  }

  // ---- the distance ----

  /** The accumulator agrees with u and holds at least so many valid bits, out of 64 that are still to come. */
  ghost predicate Held(r: Regs, inp: seq<Byte>, u: Bits, least: nat)
  {
    Agrees(r.h, r.bits, inp, r.idx, u) && r.bits >= least
  }

  lemma HeldParts(r: Regs, inp: seq<Byte>, u: Bits, least: nat)
    requires Held(r, inp, u, least)
    ensures least <= r.bits <= 63 && |u| >= r.bits && r.h[..r.bits] == u[..r.bits] && r.idx <= |inp|
  {
    hide BytesBits;
    AgreesParts(r.h, r.bits, inp, r.idx, u);
  }

  lemma HeldDrop(r: Regs, inp: seq<Byte>, u: Bits, least: nat, n: nat)
    requires Held(r, inp, u, least) && n <= least
    ensures r.bits <= 63 && n <= r.bits && n <= |u|
    ensures Held(r.(h := Shr(r.h, n), bits := r.bits - n), inp, u[n..], least - n)
  {
    hide Agrees;
    HeldParts(r, inp, u, least);
    DropAgrees(r.h, r.bits, inp, r.idx, u, n);
  }

  lemma LoadedHeld(r: Regs, inp: seq<Byte>, u: Bits, least: nat, less: nat)
    requires Loaded(r, inp, u, least) && less <= least
    ensures Held(r, inp, u, less)
  {
    hide Agrees;
  }

  /** Refill if fewer than the bits for a distance and the next lookup are there. */
  method TopUp(r: Regs, inp: seq<Byte>, ghost u: Bits, ghost least: nat) returns (r': Regs)
    requires Loaded(r, inp, u, least)
    ensures Held(r', inp, u, 38) && r'.put == r.put && |u| >= 64 && r'.idx >= r.idx
    ensures r'.bits == r.bits ==> r'.h[..r'.bits] == r.h[..r.bits]
  {
    hide Agrees;
    LoadedParts(r, inp, u, least);
    r' := r;
    if r.bits < 38 {
      var h, bits, idx := Refill(r.h, r.bits, inp, r.idx, u);
      r' := Regs(h, bits, idx, r.put);
    }
  }

  /** A distance code at both levels; here is the entry of the first level, and one refill may have come in between. */
  method DistEntryAt(t: array<Entry>, distbits: nat, r: Regs, inp: seq<Byte>, here: Entry, ghost d: Dec, ghost u: Bits,
                     ghost l: seq<Entry>, ghost lenbits: nat)
    returns (e: Entry, n0: nat, r': Regs)
    requires Tables(l, lenbits, t[..], distbits, d) && |d.dl| <= 32 && distbits <= 9
    requires Held(r, inp, u, 38) && |u| >= 64 && r.bits <= 63 && BitsOf(r.h, distbits) < t.Length &&
      here == t[BitsOf(r.h, distbits)]
    requires if IsLink(here) then here.bits == distbits else Recognized(DISTS, d.dl, u, here, 0) && here.op >= 16
    ensures Recognized(DISTS, d.dl, u, e, n0) && n0 <= 9 && n0 <= |u| && Held(r', inp, u[n0..], 38 - n0) &&
      r'.put == r.put && r'.idx == r.idx
  {
    hide Tables, Held, Decodes, Accepts, BitsOf, IsLink, Recognized, Lookup;
    TablesParts(l, lenbits, t[..], distbits, d);
    HeldParts(r, inp, u, 38);
    LinkTest(here);
    e, n0, r' := here, 0, r;
    assert u[0..] == u;
    if here.op < 16 {
      SecondEntry(DISTS, d.dl, t[..], distbits, r.h, r.bits, u) by { DecodesSize(DISTS, d.dl, t[..], distbits); }
      HeldDrop(r, inp, u, 38, distbits);
      n0 := distbits;
      r' := r.(h := Shr(r.h, distbits), bits := r.bits - distbits);
      e := t[here.val + BitsOf(r'.h, here.op)];
      LinkIs(here);
    }
  }

  lemma LinkIs(e: Entry)
    ensures IsLink(e) ==> e.op < 16 && e.op > 0
  {
  }

  /** What a symbol of the loop has come to: the mode in which inflate() goes on, LEN if the loop may continue. */
  ghost predicate Reached(st: State, d: Dec, d': Dec, u': Bits, mode: Mode, out': seq<nat>, room': nat)
  {
    Leads(st, State(d', u', out', room')) && d'.mode == mode && d'.ll == d.ll && d'.dl == d.dl && d'.last == d.last &&
      |u'| <= |st.u|
  }

  lemma FieldRange(u: Bits, a: nat, n: nat)
    requires a + n <= |u|
    ensures Field(u, a, n) < Pow2(n)
  {
    hide Pow2;
    BelowPow2(u[a..a + n]);
  }

  /** Read a distance: the mode is MATCH, or BAD for a code that is not used. */
  method ReadDistance(t: array<Entry>, distbits: nat, r: Regs, inp: seq<Byte>, ghost out: seq<nat>, ghost room: nat,
                      ghost d: Dec, ghost u: Bits, ghost least: nat, ghost l: seq<Entry>, ghost lenbits: nat)
    returns (mode: Mode, dist: nat, r': Regs, ghost d': Dec, ghost u': Bits)
    requires Tables(l, lenbits, t[..], distbits, d) && d.mode.DIST? && Loaded(r, inp, u, least) && least >= 16
    ensures mode.MATCH? || mode.BAD?
    ensures Reached(State(d, u, out, room), d, d', u', mode, out, room) && Held(r', inp, u', 10) && r'.put == r.put &&
      r'.idx >= r.idx
    ensures mode.MATCH? ==> 1 <= dist <= 32768 && d'.offset == dist && d'.length == d.length
  {
    hide Tables, Held, Loaded, Decodes, Accepts, BitsOf, IsLink, Recognized, Lookup, Leads, Pow2, IsBase, ExtraBitsOf,
      Field, CodeExtraOf;
    TablesParts(l, lenbits, t[..], distbits, d);
    LoadedParts(r, inp, u, least);
    FirstEntry(DISTS, d.dl, t[..], distbits, r.h, r.bits, u);
    var here := t[BitsOf(r.h, distbits)];
    var r1 := TopUp(r, inp, u, least);
    HeldParts(r1, inp, u, 38);
    SameLookup(r.h, r.bits, r1.h, r1.bits, u, distbits);
    var e, n0, r2 := DistEntryAt(t, distbits, r1, inp, here, d, u, l, lenbits);
    DistEntrySize(d.dl, u, e, n0);
    HeldParts(r2, inp, u[n0..], 38 - n0);
    HeldDrop(r2, inp, u[n0..], 38 - n0, e.bits);
    assert u[n0..][e.bits..] == u[n0 + e.bits..];
    u', dist := u[n0 + e.bits..], 0;
    r' := r2.(h := Shr(r2.h, e.bits), bits := r2.bits - e.bits);
    HeldLess(r', inp, u', 38 - n0 - e.bits, 10);
    if e.op / 16 % 2 == 1 {
      mode := MATCH;
      BaseIs(e);
      BaseBits(e);
      ExtraIsField(r2.h, r2.bits, u[n0..], e);
      dist := e.val + ExtraBitsOf(r2.h, e);
      d' := DistanceLeads(d, u, out, room, e, n0);
      FieldRange(u[n0..], e.op % 16, e.bits - e.op % 16);
    } else {
      mode := BAD;
      NotBase(e);
      PlainOp(e);
      DistLeads(d, u, out, room, e, n0);
      d' := d.(mode := BAD);
    }
  }

  lemma BaseIs(e: Entry)
    requires e.op / 16 % 2 == 1 && (e.op / 64 % 2 == 1 ==> e.op / 16 % 2 == 0) && (e.op / 64 % 2 == 1 || IsBase(e))
    ensures IsBase(e) && e.op % 16 <= e.bits
  {
  }

  lemma NotBase(e: Entry)
    requires e.op / 16 % 2 != 1 && (e.op / 64 % 2 == 1 || IsBase(e))
    ensures e.op / 64 % 2 == 1 && e.op / 16 % 2 == 0
  {
  }

  lemma HeldLess(r: Regs, inp: seq<Byte>, u: Bits, least: nat, less: nat)
    requires Held(r, inp, u, least) && less <= least
    ensures Held(r, inp, u, less)
  {
    hide Agrees;
  }

  lemma SameLookup(h: Word, bits: nat, h': Word, bits': nat, u: Bits, n: nat)
    requires n <= bits <= 63 && n <= bits' <= 63 && bits <= |u| && bits' <= |u| && h[..bits] == u[..bits] &&
      h'[..bits'] == u[..bits']
    ensures BitsOf(h, n) == BitsOf(h', n)
  {
    assert h[..n] == h[..bits][..n] == u[..bits][..n] == u[..n] == u[..bits'][..n] == h'[..bits'][..n] == h'[..n];
  }

  // ---- the copy ----

  // ---- a match ----

  /** From a state reached to a state reached. */
  lemma ReachedOn(st: State, d: Dec, d1: Dec, u1: Bits, out1: seq<nat>, room1: nat, d2: Dec, u2: Bits, out2: seq<nat>,
                  room2: nat)
    requires Reached(st, d, d1, u1, d1.mode, out1, room1)
    requires Reached(State(d1, u1, out1, room1), d1, d2, u2, d2.mode, out2, room2)
    ensures Reached(st, d, d2, u2, d2.mode, out2, room2)
  {
    hide Leads;
    LeadsTrans(st, State(d1, u1, out1, room1), State(d2, u2, out2, room2));
  }

  lemma FarReached(d: Dec, u: Bits, out: seq<nat>, room: nat)
    requires d.mode.MATCH? && room >= 1 && d.offset > |out|
    ensures Reached(State(d, u, out, room), d, d.(mode := BAD), u, BAD, out, room)
  {
    hide Leads, Reaches, Act;
    TooFar(State(d, u, out, room));
    assert [] + u == u && out + [] == out;
    OneStep(d, [], u, out, room, d.(mode := BAD), []);
    LeadsBy(State(d, u, out, room), State(d.(mode := BAD), u, out, room), 1);
  }

  lemma CopyReached(d: Dec, u: Bits, out: seq<nat>, room: nat)
    requires d.mode.MATCH? && 1 <= d.offset <= |out| && 1 <= d.length <= room
    ensures |CopyMatch(out, d.offset, d.length)| == |out| + d.length
    ensures Reached(State(d, u, out, room), d, d.(length := 0, mode := LEN), u, LEN,
      CopyMatch(out, d.offset, d.length), room - d.length)
  {
    hide Leads, Reaches, CopyMatch;
    CopySteps(d, u, out, room, d.length);
    LeadsBy(State(d, u, out, room), State(d.(length := 0, mode := LEN), u, CopyMatch(out, d.offset, d.length),
      room - d.length), d.length);
  }

  /** The part of the loop behind a length: read the distance and copy the match. In the safe variant a match that does
      not fit is left to inflate(). */
  method FinishMatch(safe: bool, v: Vars, t: array<Entry>, distbits: nat, out: array<nat>, win: Window, r: Regs,
                     inp: seq<Byte>, len: nat, ghost total: seq<nat>, ghost d: Dec, ghost u: Bits, ghost least: nat,
                     ghost l: seq<Entry>, ghost lenbits: nat)
    returns (mode: Mode, dist: nat, r': Regs, ghost d': Dec, ghost u': Bits)
    requires Tables(l, lenbits, t[..], distbits, d) && d.mode.DIST? && Loaded(r, inp, u, least) && least >= 16
    requires 1 <= len == d.length && r.put < out.Length && out != win.window && win.Valid(total) &&
      (!safe ==> len <= 258 && r.put + 258 <= out.Length)
    modifies out
    ensures mode in {LEN, BAD, MATCH} && r.put <= r'.put <= out.Length && Held(r', inp, u', 10) && r'.idx >= r.idx
    ensures Reached(State(d, u, total + old(out[..r.put]), out.Length - r.put), d, d', u', mode, total + out[..r'.put],
      out.Length - r'.put)
    ensures mode.MATCH? ==> d'.offset == dist && d'.length == len && 1 <= dist <= 32768 && 1 <= len
  {
    hide Tables, Held, Loaded, Reached, RingHolds, CopyMatch;
    ghost var o, room := total + out[..r.put], out.Length - r.put;
    var r1;
    ghost var d1, u1;
    mode, dist, r1, d1, u1 := ReadDistance(t, distbits, r, inp, o, room, d, u, least, l, lenbits);
    ReachedMode(State(d, u, o, room), d, d1, u1, mode, o, room);
    r', d', u' := r1, d1, u1;
    if mode.BAD? { return; }
    if safe && len > out.Length - r1.put { return; }
    RingParts(win.window[..], win.wnext, win.whave, total);
    if dist > r1.put { WindowReach(win.whave, total, r1.put, dist); }
    if dist > r1.put && dist - r1.put > win.whave {
      FarReached(d1, u1, o, room);
      d' := d1.(mode := BAD);
      ReachedOn(State(d, u, o, room), d, d1, u1, o, room, d', u1, o, room);
      mode := BAD;
      return;
    }
    CopyReached(d1, u1, o, room);
    var near: bool := *;
    CopyAll(safe, len, dist, out, r1.put, win, near, total);
    var put := r1.put + len;
    d' := d1.(length := 0, mode := LEN);
    ReachedOn(State(d, u, o, room), d, d1, u1, o, room, d', u1, total + out[..put], out.Length - put);
    r' := r1.(put := put);
    HeldPut(r', inp, u', 10, r1.put);
    mode := LEN;
  }

  lemma HeldPut(r: Regs, inp: seq<Byte>, u: Bits, least: nat, put: nat)
    requires Held(r.(put := put), inp, u, least)
    ensures Held(r, inp, u, least)
  {
    hide Agrees;
  }

  lemma ReachedMode(st: State, d: Dec, d': Dec, u': Bits, mode: Mode, out': seq<nat>, room': nat)
    requires Reached(st, d, d', u', mode, out', room')
    ensures d'.mode == mode && d'.ll == d.ll && d'.dl == d.dl && |u'| <= |st.u|
  {
    hide Leads;
  }

  // ---- one symbol ----

  /** A literal/length code at both levels; here is the entry of the first level. */
  method LenEntryAt(l: array<Entry>, lenbits: nat, r: Regs, inp: seq<Byte>, here: Entry, ghost d: Dec, ghost u: Bits,
                    ghost least: nat, ghost t: seq<Entry>, ghost distbits: nat)
    returns (e: Entry, n0: nat, r': Regs)
    requires Tables(l[..], lenbits, t, distbits, d) && |d.ll| <= 288 && lenbits <= 10 && r.bits <= 63
    requires Loaded(r, inp, u, least) && least >= 25 && BitsOf(r.h, lenbits) < l.Length &&
      here == l[BitsOf(r.h, lenbits)]
    requires if IsLink(here) then here.bits == lenbits else Recognized(LENS, d.ll, u, here, 0)
    ensures Recognized(LENS, d.ll, u, e, n0) && n0 <= 10 && n0 <= |u| && Loaded(r', inp, u[n0..], least - n0) &&
      r'.put == r.put && r'.idx == r.idx
  {
    hide Tables, Loaded, Decodes, Accepts, BitsOf, IsLink, Recognized, Lookup;
    TablesParts(l[..], lenbits, t, distbits, d);
    LoadedParts(r, inp, u, least);
    LinkTest(here);
    LinkIs(here);
    e, n0, r' := here, 0, r;
    assert u[0..] == u;
    if here.op != 0 && here.op < 16 {
      SecondEntry(LENS, d.ll, l[..], lenbits, r.h, r.bits, u);
      LoadedDrop(r, inp, u, least, lenbits);
      n0 := lenbits;
      r' := r.(h := Shr(r.h, lenbits), bits := r.bits - lenbits);
      e := l[here.val + BitsOf(r'.h, here.op)];
    }
  }

  /** The end of the block or an invalid code. */
  lemma StopReached(d: Dec, u: Bits, out: seq<nat>, room: nat, e: Entry, n0: nat)
    requires d.mode.LEN? && |d.ll| <= 288 && Recognized(LENS, d.ll, u, e, n0) && e.op != 0 && e.op / 16 % 2 == 0
    ensures n0 + e.bits <= |u| && LenResult(d, e).mode == if e.op / 32 % 2 == 1 then TYPE else BAD
    ensures Reached(State(d, u, out, room), d, LenResult(d, e), u[n0 + e.bits..], LenResult(d, e).mode, out, room)
  {
    hide Leads, Recognized, Lookup;
    LenEntrySize(d.ll, u, e, n0);
    NoBase(e);
    LenLeads(d, u, out, room, e, n0);
    PlainOp(e);
  }

  lemma NoBase(e: Entry)
    requires e.op / 16 % 2 == 0
    ensures !IsBase(e)
  {
  }

  lemma LitReached(st: State, d: Dec, d': Dec, u': Bits, out': seq<nat>, room': nat)
    requires Leads(st, State(d', u', out', room')) && d'.mode.LEN? && d'.ll == d.ll && d'.dl == d.dl &&
      d'.last == d.last && |u'| < |st.u|
    ensures Reached(st, d, d', u', LEN, out', room')
  {
  }

  /** From dolen on: the entry of the first level, whatever it is. At least one bit of input is consumed. */
  method Symbol(safe: bool, v: Vars, l: array<Entry>, lenbits: nat, t: array<Entry>, distbits: nat, out: array<nat>,
                win: Window, r: Regs, inp: seq<Byte>, here: Entry, ghost total: seq<nat>, ghost d: Dec, ghost u: Bits,
                ghost least: nat, ghost p: Bits)
    returns (mode: Mode, len: nat, dist: nat, r': Regs, ghost d': Dec, ghost u': Bits)
    requires p <= u && Tables(l[..], lenbits, t[..], distbits, d) && d.mode.LEN? && |d.ll| <= 288 && lenbits <= 10 &&
      r.bits <= 63
    requires Loaded(r, inp, u, least) && least >= 36 && BitsOf(r.h, lenbits) < l.Length &&
      here == l[BitsOf(r.h, lenbits)]
    requires if IsLink(here) then here.bits == lenbits else Recognized(LENS, d.ll, u, here, 0)
    requires r.put < out.Length && out != win.window && win.Valid(total) && (!safe ==> r.put + 258 <= out.Length)
    modifies out
    ensures mode in {LEN, TYPE, BAD, MATCH} && r.put <= r'.put <= out.Length && Held(r', inp, u', 0) && r'.idx >= r.idx
    ensures mode.LEN? ==> r'.bits >= 10
    ensures Reached(State(d, u, total + old(out[..r.put]), out.Length - r.put), d, d', u', mode, total + out[..r'.put],
      out.Length - r'.put)
    ensures mode.MATCH? ==> d'.offset == dist && d'.length == len && 1 <= dist <= 32768 && 1 <= len
    ensures |u'| < |u| && (Lookup(LENS, d.ll, p) == More ==> |u'| < |u| - |p|)
  {
    hide Tables, Held, Loaded, Decodes, Accepts, BitsOf, IsLink, Recognized, Lookup, Reached, RingHolds;
    var e, n0, r1 := LenEntryAt(l, lenbits, r, inp, here, d, u, least, t[..], distbits);
    SymbolBits(d, u, e, n0, p) by { TablesParts(l[..], lenbits, t[..], distbits, d); }
    mode, len, dist, r', d', u' := SymbolRest(safe, v, t, distbits, out, win, r1, inp, e, n0, total, d, u, least,
      l[..], lenbits);
  }

  /** What the entry that finishes the code asks for. */
  method SymbolRest(safe: bool, v: Vars, t: array<Entry>, distbits: nat, out: array<nat>, win: Window, r1: Regs,
                    inp: seq<Byte>, e: Entry, n0: nat, ghost total: seq<nat>, ghost d: Dec, ghost u: Bits,
                    ghost least: nat, ghost l: seq<Entry>, ghost lenbits: nat)
    returns (mode: Mode, len: nat, dist: nat, r': Regs, ghost d': Dec, ghost u': Bits)
    requires Tables(l, lenbits, t[..], distbits, d) && d.mode.LEN? && |d.ll| <= 288 && Recognized(LENS, d.ll, u, e, n0)
    requires least >= 36 && n0 <= 10 && n0 <= |u| && Loaded(r1, inp, u[n0..], least - n0)
    requires r1.put < out.Length && out != win.window && win.Valid(total) && (!safe ==> r1.put + 258 <= out.Length)
    modifies out
    ensures mode in {LEN, TYPE, BAD, MATCH} && r1.put <= r'.put <= out.Length && Held(r', inp, u', 0) &&
      r'.idx >= r1.idx
    ensures (mode.LEN? ==> r'.bits >= 10) && |u'| <= |u| - n0 - e.bits
    ensures Reached(State(d, u, total + old(out[..r1.put]), out.Length - r1.put), d, d', u', mode,
      total + out[..r'.put], out.Length - r'.put)
    ensures mode.MATCH? ==> d'.offset == dist && d'.length == len && 1 <= dist <= 32768 && 1 <= len
  {
    hide *;
    mode, len, dist := LEN, 0, 0;
    LenEntrySize(d.ll, u, e, n0);
    LoadedParts(r1, inp, u[n0..], least - n0);
    if e.op == 0 {
      ghost var st := State(d, u, total + out[..r1.put], out.Length - r1.put);
      r', d', u' := PutLit(out, r1, inp, e, n0, total, d, u, least - n0, l, lenbits, t[..], distbits);
      LitReached(st, d, d', u', total + out[..r'.put], out.Length - r'.put);
      LoadedHeld(r', inp, u', least - n0 - e.bits, 10) by { LitShort(d.ll, u, e, n0); }
      HeldParts(r', inp, u', 10);
      HeldLess(r', inp, u', 10, 0);
      return;
    }
    LoadedDrop(r1, inp, u[n0..], least - n0, e.bits);
    assert u[n0..][e.bits..] == u[n0 + e.bits..];
    var r2 := r1.(h := Shr(r1.h, e.bits), bits := r1.bits - e.bits);
    if e.op / 16 % 2 == 1 {
      IsLength(e);
      mode, len, dist, r', d', u' := LengthSymbol(safe, v, t, distbits, out, win, r1, r2, inp, e, n0, total, d, u,
        least, l, lenbits);
    } else {
      StopReached(d, u, total + out[..r1.put], out.Length - r1.put, e, n0);
      mode := if e.op / 32 % 2 == 1 then TYPE else BAD;
      r', d', u' := r2, LenResult(d, e), u[n0 + e.bits..];
      LoadedHeld(r2, inp, u', least - n0 - e.bits, 0);
    }
  }

  lemma LitShort(ll: seq<nat>, u: Bits, e: Entry, n0: nat)
    requires |ll| <= 288 && Recognized(LENS, ll, u, e, n0) && e.op == 0
    ensures n0 + e.bits <= 15
  {
    hide Lookup;
    LenEntrySize(ll, u, e, n0);
  }

  /** A length, and the rest of its match. */
  method LengthSymbol(safe: bool, v: Vars, t: array<Entry>, distbits: nat, out: array<nat>, win: Window, r1: Regs,
                      r2: Regs, inp: seq<Byte>, e: Entry, n0: nat, ghost total: seq<nat>, ghost d: Dec, ghost u: Bits,
                      ghost least: nat, ghost l: seq<Entry>, ghost lenbits: nat)
    returns (mode: Mode, len: nat, dist: nat, r': Regs, ghost d': Dec, ghost u': Bits)
    requires Tables(l, lenbits, t[..], distbits, d) && d.mode.LEN? && |d.ll| <= 288 && IsBase(e) &&
      Recognized(LENS, d.ll, u, e, n0)
    requires least >= 36 && n0 + e.bits <= 20 && 1 <= e.val && e.val + Pow2(CodeExtraOf(e)) <= 259
    requires n0 + e.bits <= |u| && r1.bits <= 63 && e.bits <= r1.bits <= |u[n0..]| &&
      r1.h[..r1.bits] == u[n0..][..r1.bits]
    requires r2.put == r1.put && r2.idx == r1.idx && Loaded(r2, inp, u[n0 + e.bits..], least - n0 - e.bits)
    requires r1.put < out.Length && out != win.window && win.Valid(total) && (!safe ==> r1.put + 258 <= out.Length)
    modifies out
    ensures mode in {LEN, BAD, MATCH} && r1.put <= r'.put <= out.Length && Held(r', inp, u', 0) && r'.idx >= r1.idx
    ensures (mode.LEN? ==> r'.bits >= 10) && |u'| <= |u| - n0 - e.bits
    ensures Reached(State(d, u, total + old(out[..r1.put]), out.Length - r1.put), d, d', u', mode,
      total + out[..r'.put], out.Length - r'.put)
    ensures mode.MATCH? ==> d'.offset == dist && d'.length == len && 1 <= dist <= 32768 && 1 <= len
  {
    hide Tables, Held, Loaded, Recognized, Reached, Leads, IsBase, RingHolds, CodeExtraOf, ExtraBitsOf, Field, Pow2,
      WellFormed;
    ghost var o, room := total + out[..r1.put], out.Length - r1.put;
    ghost var u1 := u[n0 + e.bits..];
    BaseBits(e);
    BaseField(e);
    ghost var x := Field(u[n0..], e.op % 16, e.bits - e.op % 16);
    ExtraIsField(r1.h, r1.bits, u[n0..], e);
    FieldRange(u[n0..], e.op % 16, e.bits - e.op % 16);
    LengthLeads(d, u, o, room, e, n0);
    ghost var d1 := AfterLength(d, e, x);
    LitTables(l, lenbits, t[..], distbits, d, State(d, u, o, room), State(d1, u1, o, room));
    len := e.val + ExtraBitsOf(r1.h, e);
    mode, dist, r', d', u' := FinishMatch(safe, v, t, distbits, out, win, r2, inp, len, total, d1, u1,
      least - n0 - e.bits, l, lenbits);
    LengthReached(State(d, u, o, room), d, d1, u1, o, room);
    ReachedMode(State(d1, u1, o, room), d1, d', u', mode, total + out[..r'.put], out.Length - r'.put);
    ReachedOn(State(d, u, o, room), d, d1, u1, o, room, d', u', total + out[..r'.put], out.Length - r'.put);
    HeldParts(r', inp, u', 10);
    HeldLess(r', inp, u', 10, 0);
  }

  lemma BaseField(e: Entry)
    requires IsBase(e)
    ensures e.op % 16 <= e.bits
  {
  }

  lemma LengthReached(st: State, d: Dec, d1: Dec, u1: Bits, out: seq<nat>, room: nat)
    requires Leads(st, State(d1, u1, out, room)) && d1.ll == d.ll && d1.dl == d.dl && d1.last == d.last &&
      |u1| <= |st.u|
    ensures Reached(st, d, d1, u1, d1.mode, out, room)
  {
  }

  lemma IsLength(e: Entry)
    requires e.op / 16 % 2 == 1 && (e.op == 0 || e.op / 32 % 2 == 1 || e.op / 64 % 2 == 1 || IsBase(e))
    requires ((e.op == 0 || e.op / 64 % 2 == 1) ==> e.op / 16 % 2 == 0) && (e.op / 32 % 2 == 1 ==> e.op / 64 % 2 == 1)
    ensures IsBase(e)
  {
  }

  /** The bits of a symbol are more than what did not decide it. */
  lemma SymbolBits(d: Dec, u: Bits, e: Entry, n0: nat, p: Bits)
    requires |d.ll| <= 288 && Accepts(LENS, d.ll) && Recognized(LENS, d.ll, u, e, n0) && p <= u
    ensures 0 < n0 + e.bits && (Lookup(LENS, d.ll, p) == More ==> |p| < n0 + e.bits)
  {
    hide Lookup, Recognized;
    AcceptsKraft(LENS, d.ll);
    CodeWithin(d.ll, u, e, n0);
    if Lookup(LENS, d.ll, p) == More { NeedsMore(LENS, d.ll, p, u, e, n0); }
  }

  lemma CodeWithin(ll: seq<nat>, u: Bits, e: Entry, n0: nat)
    requires |ll| <= 288 && Recognized(LENS, ll, u, e, n0)
    ensures CodeBitsOf(e) <= e.bits && n0 + CodeBitsOf(e) > 0
  {
    hide Lookup, EntryFor, Need, IsBase, Pow2, CodeBitsOf;
    InvalidBits();
    var f := Lookup(LENS, ll, u);
    if f.Sym? {
      EntryBits(LENS, f.s, f.n - n0);
      LenForm(f.s, f.n - n0);
      BaseOr(e);
    }
  }

  lemma InvalidBits()
    ensures CodeBitsOf(INVALID) == INVALID.bits == 1
  {
  }

  lemma BaseOr(e: Entry)
    requires e.op == 0 || e.op / 32 % 2 == 1 || e.op / 64 % 2 == 1 || IsBase(e)
    requires ((e.op == 0 || e.op / 64 % 2 == 1) ==> e.op / 16 % 2 == 0) && (e.op / 32 % 2 == 1 ==> e.op / 64 % 2 == 1)
    ensures CodeBitsOf(e) <= e.bits
  {
  }

  // ---- one turn of the loop ----

  /** What is known of an entry that has been looked up at the first level. */
  ghost predicate Found(l: array<Entry>, lenbits: nat, r: Regs, here: Entry, d: Dec, u: Bits)
    reads l
  {
    |d.ll| <= 288 && lenbits <= 10 && r.bits <= 63 && BitsOf(r.h, lenbits) < l.Length &&
      here == l[BitsOf(r.h, lenbits)] &&
    (if IsLink(here) then here.bits == lenbits
     else Recognized(LENS, d.ll, u, here, 0) && (Lookup(LENS, d.ll, u).Sym? ==> Lookup(LENS, d.ll, u).n <= 10))
  }

  lemma FoundLit(l: array<Entry>, lenbits: nat, r: Regs, here: Entry, d: Dec, u: Bits)
    requires Found(l, lenbits, r, here, d, u) && here.op == 0
    ensures |d.ll| <= 288 && Recognized(LENS, d.ll, u, here, 0) && 0 < here.bits <= 10
  {
    hide Lookup, Recognized;
    LenEntrySize(d.ll, u, here, 0);
    LitPositive(d.ll, u, here, 0);
  }

  /** One literal of the first level, and the lookup of the next entry. */
  method NextLit(l: array<Entry>, lenbits: nat, out: array<nat>, r: Regs, inp: seq<Byte>, here: Entry,
                 ghost total: seq<nat>, ghost d: Dec, ghost u: Bits, ghost least: nat, ghost t: seq<Entry>,
                 ghost distbits: nat, ghost p: Bits)
    returns (here': Entry, r': Regs, ghost d': Dec, ghost u': Bits)
    requires Tables(l[..], lenbits, t, distbits, d) && d.mode.LEN? && Loaded(r, inp, u, least) && least >= 20
    requires Found(l, lenbits, r, here, d, u) && here.op == 0 && r.put < out.Length && p <= u
    modifies out
    ensures Tables(l[..], lenbits, t, distbits, d') && d'.mode.LEN? && Loaded(r', inp, u', least - 10)
    ensures Found(l, lenbits, r', here', d', u') && r'.put == r.put + 1 && r'.idx == r.idx
    ensures Reached(State(d, u, total + old(out[..r.put]), out.Length - r.put), d, d', u', LEN, total + out[..r'.put],
      out.Length - r'.put)
    ensures |u'| < |u| && (|d.ll| <= 288 && Lookup(LENS, d.ll, p) == More ==> |u'| < |u| - |p|)
  {
    hide Tables, Loaded, Found, Recognized, Reached, Leads, Lookup, BitsOf, IsLink;
    FoundLit(l, lenbits, r, here, d, u);
    assert u[0..] == u;
    SymbolBits(d, u, here, 0, p) by { TablesParts(l[..], lenbits, t, distbits, d); }
    ghost var st := State(d, u, total + out[..r.put], out.Length - r.put);
    LitPositive(d.ll, u, here, 0);
    r', d', u' := PutLit(out, r, inp, here, 0, total, d, u, least, l[..], lenbits, t, distbits);
    LitReached(st, d, d', u', total + out[..r'.put], out.Length - r'.put);
    LoadedLess(r', inp, u', least - here.bits, least - 10);
    here' := LenLookup(l, lenbits, r', inp, d', u', least - 10, t, distbits);
    FoundNow(l, lenbits, r', here', d', u');
  }

  lemma LoadedLess(r: Regs, inp: seq<Byte>, u: Bits, least: nat, less: nat)
    requires Loaded(r, inp, u, least) && less <= least
    ensures Loaded(r, inp, u, less)
  {
    hide Agrees;
  }

  lemma FoundNow(l: array<Entry>, lenbits: nat, r: Regs, here: Entry, d: Dec, u: Bits)
    requires |d.ll| <= 288 && lenbits <= 10 && r.bits <= 63 && BitsOf(r.h, lenbits) < l.Length &&
      here == l[BitsOf(r.h, lenbits)]
    requires if IsLink(here) then here.bits == lenbits
             else Recognized(LENS, d.ll, u, here, 0) && (Lookup(LENS, d.ll, u).Sym? ==> Lookup(LENS, d.ll, u).n <= 10)
    ensures Found(l, lenbits, r, here, d, u)
  {
  }

  lemma FoundParts(l: array<Entry>, lenbits: nat, r: Regs, here: Entry, d: Dec, u: Bits)
    requires Found(l, lenbits, r, here, d, u)
    ensures |d.ll| <= 288 && lenbits <= 10 && r.bits <= 63 && BitsOf(r.h, lenbits) < l.Length &&
      here == l[BitsOf(r.h, lenbits)]
    ensures if IsLink(here) then here.bits == lenbits else Recognized(LENS, d.ll, u, here, 0)
  {
  }

  /** The first refill of a turn happens behind the lookup, and does not change the index. */
  method LookAndRefill(l: array<Entry>, lenbits: nat, r: Regs, inp: seq<Byte>, ghost d: Dec, ghost u: Bits,
                       ghost t: seq<Entry>, ghost distbits: nat)
    returns (here: Entry, r': Regs)
    requires Tables(l[..], lenbits, t, distbits, d) && d.mode.LEN? && Loaded(r, inp, u, 10)
    requires r.idx + 15 <= |inp| || r.bits >= 56
    ensures Loaded(r', inp, u, 56) && Found(l, lenbits, r', here, d, u) && r'.put == r.put && r'.idx >= r.idx
  {
    hide Tables, Found, Recognized, Lookup, BitsOf, IsLink, Agrees;
    here := LenLookup(l, lenbits, r, inp, d, u, 10, t, distbits);
    LoadedParts(r, inp, u, 10);
    var h, bits, idx := Refill(r.h, r.bits, inp, r.idx, u);
    r' := Regs(h, bits, idx, r.put);
    LoadedParts(r', inp, u, 56);
    SameLookup(r.h, r.bits, r'.h, r'.bits, u, lenbits);
    FoundNow(l, lenbits, r', here, d, u);
  }

  /** One turn: at most two literals of the first level, and then any symbol. */
  method Iterate(safe: bool, v: Vars, l: array<Entry>, lenbits: nat, t: array<Entry>, distbits: nat, out: array<nat>,
                 win: Window, r: Regs, inp: seq<Byte>, ghost total: seq<nat>, ghost d: Dec, ghost u: Bits,
                 ghost p: Bits)
    returns (mode: Mode, len: nat, dist: nat, r': Regs, ghost d': Dec, ghost u': Bits)
    requires p <= u && Tables(l[..], lenbits, t[..], distbits, d) && d.mode.LEN? && Loaded(r, inp, u, 10)
    requires r.idx + 15 <= |inp| || r.bits >= 56
    requires out != win.window && win.Valid(total) &&
      r.put + (if safe then INFLATE_FAST_MIN_SAFE else INFLATE_FAST_MIN_LEFT) <= out.Length
    modifies out
    ensures mode in {LEN, TYPE, BAD, MATCH} && r.put <= r'.put <= out.Length && Held(r', inp, u', 0) && r'.idx >= r.idx
    ensures mode.LEN? ==> r'.bits >= 10
    ensures Reached(State(d, u, total + old(out[..r.put]), out.Length - r.put), d, d', u', mode, total + out[..r'.put],
      out.Length - r'.put)
    ensures mode.MATCH? ==> d'.offset == dist && d'.length == len && 1 <= dist <= 32768 && 1 <= len
    ensures |u'| < |u| && (|d.ll| <= 288 && Lookup(LENS, d.ll, p) == More ==> |u'| < |u| - |p|)
  {
    hide Tables, Held, Loaded, Found, Recognized, Lookup, Reached, RingHolds, BitsOf, IsLink;
    var here, r1 := LookAndRefill(l, lenbits, r, inp, d, u, t[..], distbits);
    if here.op == 0 {
      mode, len, dist, r', d', u' := AfterLit(safe, v, l, lenbits, t, distbits, out, win, r1, inp, here, total, d, u,
        p);
    } else {
      FoundParts(l, lenbits, r1, here, d, u);
      mode, len, dist, r', d', u' := Symbol(safe, v, l, lenbits, t, distbits, out, win, r1, inp, here, total, d, u, 56,
        p);
    }
  }

  /** A turn that starts with a literal. */
  method AfterLit(safe: bool, v: Vars, l: array<Entry>, lenbits: nat, t: array<Entry>, distbits: nat, out: array<nat>,
                  win: Window, r: Regs, inp: seq<Byte>, here: Entry, ghost total: seq<nat>, ghost d: Dec, ghost u: Bits,
                  ghost p: Bits)
    returns (mode: Mode, len: nat, dist: nat, r': Regs, ghost d': Dec, ghost u': Bits)
    requires p <= u && Tables(l[..], lenbits, t[..], distbits, d) && d.mode.LEN? && Loaded(r, inp, u, 56)
    requires Found(l, lenbits, r, here, d, u) && here.op == 0
    requires out != win.window && win.Valid(total) &&
      r.put + (if safe then INFLATE_FAST_MIN_SAFE else INFLATE_FAST_MIN_LEFT) <= out.Length
    modifies out
    ensures mode in {LEN, TYPE, BAD, MATCH} && r.put <= r'.put <= out.Length && Held(r', inp, u', 0) && r'.idx >= r.idx
    ensures mode.LEN? ==> r'.bits >= 10
    ensures Reached(State(d, u, total + old(out[..r.put]), out.Length - r.put), d, d', u', mode, total + out[..r'.put],
      out.Length - r'.put)
    ensures mode.MATCH? ==> d'.offset == dist && d'.length == len && 1 <= dist <= 32768 && 1 <= len
    ensures |u'| < |u| && (|d.ll| <= 288 && Lookup(LENS, d.ll, p) == More ==> |u'| < |u| - |p|)
  {
    hide Tables, Held, Loaded, Found, Recognized, Lookup, Reached, RingHolds, BitsOf, IsLink;
    ghost var st := State(d, u, total + out[..r.put], out.Length - r.put);
    var here1, r1, here2, r2;
    ghost var d1, u1, d2, u2;
    here1, r1, d1, u1 := NextLit(l, lenbits, out, r, inp, here, total, d, u, 56, t[..], distbits, p);
    ghost var out1, room1 := total + out[..r1.put], out.Length - r1.put;
    here2, r2, d2, u2 := here1, r1, d1, u1;
    assert p[..0] <= u1;
    if here1.op == 0 {
      here2, r2, d2, u2 := NextLit(l, lenbits, out, r1, inp, here1, total, d1, u1, 46, t[..], distbits, p[..0]);
      ReachedOn(st, d, d1, u1, out1, room1, d2, u2, total + out[..r2.put], out.Length - r2.put);
    } else {
      LoadedLess(r2, inp, u2, 46, 36);
    }
    ghost var out2, room2 := total + out[..r2.put], out.Length - r2.put;
    FoundParts(l, lenbits, r2, here2, d2, u2);
    mode, len, dist, r', d', u' := Symbol(safe, v, l, lenbits, t, distbits, out, win, r2, inp, here2, total, d2, u2,
      36, p[..0]);
    ReachedMode(State(d2, u2, out2, room2), d2, d', u', mode, total + out[..r'.put], out.Length - r'.put);
    ReachedOn(st, d, d2, u2, out2, room2, d', u', total + out[..r'.put], out.Length - r'.put);
  }

  // ---- the whole routine ----

  lemma {:induction false} ReachesSuffix(a: State, b: State, k: nat)
    requires Reaches(a, b, k)
    ensures |b.u| <= |a.u| && b.u == a.u[|a.u| - |b.u|..]
    decreases k
  {
    hide Act;
    if k > 0 { ReachesSuffix(Next(a), b, k - 1); }
  }

  lemma LeadsSuffix(a: State, b: State)
    requires Leads(a, b)
    ensures |b.u| <= |a.u| && b.u == a.u[|a.u| - |b.u|..]
  {
    hide Reaches;
    var k: nat :| Reaches(a, b, k);
    ReachesSuffix(a, b, k);
  }

  lemma ReachedLeads(st: State, d: Dec, d': Dec, u': Bits, mode: Mode, out': seq<nat>, room': nat)
    requires Reached(st, d, d', u', mode, out', room')
    ensures Leads(st, State(d', u', out', room')) && d'.last == d.last
  {
    hide Leads;
  }

  /** At the start nothing is above the valid bits. */
  lemma AgreesAtEntry(h: Word, bits: nat, inp: seq<Byte>)
    requires bits <= 40 && Clear(h, bits)
    ensures Agrees(h, bits, inp, 0, h[..bits] + BytesBits(inp))
  {
    hide BytesBits;
    assert inp[0..] == inp;
  }

  /** In LEN, what is in the accumulator is less than a byte or does not decide the next code. */
  lemma EntryBitsLean(v: Vars, d: Dec, b: Bits)
    requires Core(v, d, b) && d.mode.LEN?
    ensures |d.ll| <= 288 && (|b| < 8 || Lookup(LENS, d.ll, b) == More)
  {
    hide Tied, Lookup;
    ModeLen(d, b, [], 0);
    assert |d.ll| <= 288 by { LenWidth(v, d); }
  }

  lemma LenWidth(v: Vars, d: Dec)
    requires Tied(v, d)
    ensures |d.ll| <= 288 && WellFormed(d) && d.last == v.last && |v.lens| == 320
  {
    hide InRanges;
  }

  lemma ExitCore(v: Vars, d: Dec, b: Bits, v': Vars, d': Dec, b': Bits)
    requires Core(v, d, b) && |b'| < 8 && WellFormed(d') && d'.last == d.last && v'.last == v.last && v'.lens == v.lens
    requires v'.mode == d'.mode && d'.mode in {LEN, TYPE, BAD, MATCH}
    requires d'.mode.MATCH? ==>
      d'.offset == v'.offset && d'.length == v'.length && 1 <= d'.offset <= 32768 && 1 <= d'.length
    ensures Core(v', d', b')
  {
    hide Act, WellFormed;
    LenWidth(v, d) by { hide Tied; }
  }

  /** Return the unused bytes. */
  method Leave(br: BitReader, r: Regs, ghost u: Bits, ghost b0: Bits)
    requires Held(r, br.input, u, 0) && |u| <= |b0| + 8 * |br.input| && |u| < 8 * |br.input| + 8
    requires u == (b0 + BytesBits(br.input))[|b0| + 8 * |br.input| - |u|..]
    modifies br
    ensures br.Valid() && br.Unread() == u && br.bits < 8
  {
    hide BytesBits, Agrees;
    HeldParts(r, br.input, u, 0);
    GiveBack(r.h, r.bits, br.input, r.idx, u, b0, b0 + BytesBits(br.input));
    var len := r.bits / 8;
    br.input := br.input[r.idx - len..];
    br.bits := r.bits - 8 * len;
    br.hold := ToWord(r.h[..r.bits % 8]);
    assert br.hold[..br.bits] == r.h[..r.bits % 8];
  }

  /** INFLATE_FAST. */
  method InflateFast(safe: bool, br: BitReader, v: Vars, out: array<nat>, put: nat, win: Window, ghost total: seq<nat>,
                     ghost d: Dec)
    returns (v': Vars, put': nat, ghost d': Dec)
    requires br.Valid() && Core(v, d, br.hold[..br.bits]) && d.mode.LEN? && |br.input| >= INFLATE_FAST_MIN_HAVE
    requires Tables(v.lencode[..], v.lenbits, v.distcode[..], v.distbits, d)
    requires out != win.window && win.Valid(total) &&
      put + (if safe then INFLATE_FAST_MIN_SAFE else INFLATE_FAST_MIN_LEFT) <= out.Length
    modifies br, out
    ensures br.Valid() && Core(v', d', br.hold[..br.bits]) && put <= put' <= out.Length
    ensures Moved(State(d, old(br.Unread()), total + old(out[..put]), out.Length - put),
                  State(d', br.Unread(), total + out[..put'], out.Length - put'), false)
    ensures v' == v.(mode := v'.mode, length := v'.length, offset := v'.offset) && v'.mode in {LEN, TYPE, BAD, MATCH}
    ensures d'.ll == d.ll && d'.dl == d.dl
  {
    hide Tables, Held, Loaded, Reached, Leads, RingHolds, Lookup, Core, Clear, BytesBits, Moved, WellFormed, Agrees;
    ghost var b0, u0 := br.hold[..br.bits], br.Unread();
    CoreParts(v, d, b0);
    EntryBitsLean(v, d, b0);
    AgreesAtEntry(br.hold, br.bits, br.input);
    var mode, len, dist, r;
    ghost var u;
    mode, len, dist, r, d', u := FastLoop(safe, v, br.hold, br.bits, br.input, out, put, win, total, d, b0, u0);
    ghost var st, st' := State(d, u0, total + old(out[..put]), out.Length - put),
      State(d', u, total + out[..r.put], out.Length - r.put);
    ReachedLeads(st, d, d', u, mode, st'.out, st'.room);
    ReachedMode(st, d, d', u, mode, st'.out, st'.room);
    LeadsSuffix(st, st');
    LeadsKeeps(st, st');
    LeadsMoved(st, st');
    Leave(br, r, u, b0);
    put' := r.put;
    v' := v.(mode := mode);
    if mode.MATCH? {
      v' := v'.(length := len, offset := dist);
    }
    ExitCore(v, d, b0, v', d', br.hold[..br.bits]);
  }

  /** The loop. It starts with a refill and runs at least once; afterwards the unread bits start less than eight bits
      before the input of the call. */
  method FastLoop(safe: bool, v: Vars, h: Word, bits: nat, inp: seq<Byte>, out: array<nat>, put: nat, win: Window,
                  ghost total: seq<nat>, ghost d: Dec, ghost b0: Bits, ghost u0: Bits)
    returns (mode: Mode, len: nat, dist: nat, r: Regs, ghost d': Dec, ghost u: Bits)
    requires Tables(v.lencode[..], v.lenbits, v.distcode[..], v.distbits, d) && d.mode.LEN? &&
      |inp| >= INFLATE_FAST_MIN_HAVE
    requires |d.ll| <= 288 && (|b0| < 8 || Lookup(LENS, d.ll, b0) == More) && |b0| == bits <= 40
    requires u0 == b0 + BytesBits(inp) && Agrees(h, bits, inp, 0, u0)
    requires out != win.window && win.Valid(total) &&
      put + (if safe then INFLATE_FAST_MIN_SAFE else INFLATE_FAST_MIN_LEFT) <= out.Length
    modifies out
    ensures mode in {LEN, TYPE, BAD, MATCH} && put <= r.put <= out.Length && Held(r, inp, u, 0)
    ensures Reached(State(d, u0, total + old(out[..put]), out.Length - put), d, d', u, mode, total + out[..r.put],
      out.Length - r.put)
    ensures |u| < |u0| && |u| < 8 * |inp| + 8
    ensures mode.MATCH? ==> d'.offset == dist && d'.length == len && 1 <= dist <= 32768 && 1 <= len
  {
    hide Tables, Held, Loaded, Reached, RingHolds, Lookup, BytesBits, Agrees;
    var l, t := v.lencode, v.distcode;
    var least := if safe then INFLATE_FAST_MIN_SAFE else INFLATE_FAST_MIN_LEFT;
    var h1, bits1, idx1 := Refill(h, bits, inp, 0, u0);
    r := Regs(h1, bits1, idx1, put);
    LoadedNow(r, inp, u0, 56);
    LoadedLess(r, inp, u0, 56, 10);
    ghost var st := State(d, u0, total + out[..put], out.Length - put);
    mode, len, dist, r, d', u := Iterate(safe, v, l, v.lenbits, t, v.distbits, out, win, r, inp, total, d, u0, b0);
    while mode.LEN? && r.idx + (INFLATE_FAST_MIN_HAVE - 1) < |inp| && r.put + least <= out.Length
      invariant mode in {LEN, TYPE, BAD, MATCH} && put <= r.put <= out.Length && Held(r, inp, u, 0) &&
        (mode.LEN? ==> r.bits >= 10)
      invariant Reached(st, d, d', u, mode, total + out[..r.put], out.Length - r.put)
      invariant |u| < |u0| && |u| < 8 * |inp| + 8
      invariant mode.MATCH? ==> d'.offset == dist && d'.length == len && 1 <= dist <= 32768 && 1 <= len
      decreases |u|
    {
      ghost var d1, u1, out1, room1 := d', u, total + out[..r.put], out.Length - r.put;
      HeldLoaded(r, inp, u);
      ReachedTables(l[..], v.lenbits, t[..], v.distbits, d, st, d1, u1, out1, room1);
      mode, len, dist, r, d', u := Iterate(safe, v, l, v.lenbits, t, v.distbits, out, win, r, inp, total, d1, u1, []);
      ReachedMode(State(d1, u1, out1, room1), d1, d', u, mode, total + out[..r.put], out.Length - r.put);
      ReachedOn(st, d, d1, u1, out1, room1, d', u, total + out[..r.put], out.Length - r.put);
    }
  }

  lemma LoadedNow(r: Regs, inp: seq<Byte>, u: Bits, least: nat)
    requires Agrees(r.h, r.bits, inp, r.idx, u) && r.bits >= least && r.idx + 8 <= |inp|
    ensures Loaded(r, inp, u, least)
  {
  }

  lemma HeldLoaded(r: Regs, inp: seq<Byte>, u: Bits)
    requires Held(r, inp, u, 0) && r.bits >= 10 && r.idx + 15 <= |inp|
    ensures Loaded(r, inp, u, 10)
  {
    hide Agrees;
  }

  lemma ReachedTables(l: seq<Entry>, lenbits: nat, t: seq<Entry>, distbits: nat, d: Dec, st: State, d1: Dec, u1: Bits,
                      out1: seq<nat>, room1: nat)
    requires Tables(l, lenbits, t, distbits, d) && st.d == d && Reached(st, d, d1, u1, LEN, out1, room1)
    ensures Tables(l, lenbits, t, distbits, d1) && d1.mode.LEN?
  {
    hide Tables, Leads, WellFormed;
    LitTables(l, lenbits, t, distbits, d, st, State(d1, u1, out1, room1));
  }
}
