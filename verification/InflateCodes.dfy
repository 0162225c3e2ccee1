/** inflate.c inflate(): the modes LEN and DIST, which look codes up in the decoding tables. */
module InflateCodes {
  import opened Bits
  import opened TableSpec
  import opened MatchCodes
  import opened FlushBlock
  import opened InflateSpec
  import opened InflateRun
  import opened Decoding
  import opened TableLookup
  import opened BitWriter
  import opened BitReader
  import opened InflateModes

  // ---- what an entry says ----

  /** The outcome of LEN for the entry that finishes the code. */
  function LenResult(d: Dec, e: Entry): (d': Dec)
  {
    if e.op == 0 then d.(mode := LIT, length := e.val)
    else if e.op / 32 % 2 == 1 then d.(mode := TYPE)
    else if e.op / 64 % 2 == 1 then d.(mode := BAD)
    else d.(mode := LENEXT, length := e.val, extra := CodeExtraOf(e))
  }

  function DistResult(d: Dec, e: Entry): (d': Dec)
  {
    if e.op / 64 % 2 == 1 then d.(mode := BAD) else d.(mode := DISTEXT, offset := e.val, extra := CodeExtraOf(e))
  }

  lemma OpBits(op: nat, n: nat)
    requires n <= 15
    ensures 16 <= op < 32 ==> op / 16 % 2 == 1 && op / 64 % 2 == 0
    ensures (n + 16) / 16 % 2 == 1 && (n + 16) % 16 == n && (n + 16) / 32 % 2 == 0 && (n + 16) / 64 % 2 == 0
  {
  }

  lemma UnusedOps(k: nat)
    requires k < 31
    ensures k < 29 ==> 16 <= LEXT[k] < 32
    ensures k == 29 ==> LEXT[k] == 199
    ensures k == 30 ==> LEXT[k] == 75
  {
  }

  /** A length entry of the table means what the length symbol means. */
  lemma LenEntry(d: Dec, s: nat, n: nat, n0: nat)
    requires s < 288 && n0 < n <= 15
    ensures var e := EntryFor(LENS, s, n - n0);
      LenSym(d, s, n) == Go(LenResult(d, e), n0 + CodeBitsOf(e), [])
  {
    if s >= 257 {
      UnusedOps(s - 257);
      OpBits(LEXT[s - 257], n - n0);
      NeedSplit(LENS, s, n, n0);
      EntryBits(LENS, s, n - n0);
      LengthEntry(d, s - 257, n, n0);
    }
  }

  lemma LengthEntry(d: Dec, k: nat, n: nat, n0: nat)
    requires k < 31 && n0 < n <= 15
    requires (k < 29 ==> 16 <= LEXT[k] < 32) && (k == 29 ==> LEXT[k] == 199) && (k == 30 ==> LEXT[k] == 75)
    requires Need(LENS, 257 + k, n) == n0 + CodeBitsOf(EntryFor(LENS, 257 + k, n - n0))
    ensures var e := EntryFor(LENS, 257 + k, n - n0);
      LenSym(d, 257 + k, n) == Go(LenResult(d, e), n0 + CodeBitsOf(e), [])
  {
    OpBits(LEXT[k], n - n0);
    OpBits(LEXT[k], n);
  }

  lemma DistEntry(d: Dec, s: nat, n: nat, n0: nat)
    requires s < 32 && n0 < n <= 15
    ensures var e := EntryFor(DISTS, s, n - n0);
      DistSym(d, s, n) == Go(DistResult(d, e), n0 + CodeBitsOf(e), [])
  {
    DExtRange(s);
    DistanceEntry(d, s, n, n0);
  }

  lemma DistanceEntry(d: Dec, s: nat, n: nat, n0: nat)
    requires s < 32 && n0 < n <= 15 && (16 <= DEXT[s] < 32 || DEXT[s] == 64)
    ensures var e := EntryFor(DISTS, s, n - n0);
      DistSym(d, s, n) == Go(DistResult(d, e), n0 + CodeBitsOf(e), [])
  {
    OpBits(DEXT[s], n - n0);
  }

  lemma LenGo(d: Dec, u: Bits, e: Entry, n0: nat)
    requires d.mode.LEN? && |d.ll| <= 288 && Recognized(LENS, d.ll, u, e, n0)
    ensures n0 + CodeBitsOf(e) <= |u| && Act(d, u, [], 0) == Go(LenResult(d, e), n0 + CodeBitsOf(e), [])
  {
    hide Act, EntryFor, Need, CodeBitsOf, LenSym, LenResult, Lookup;
    ModeLen(d, u, [], 0);
    var f := Lookup(LENS, d.ll, u);
    if f.Sym? {
      LenEntry(d, f.s, f.n, n0);
    } else {
      InvalidEntry(d);
    }
  }

  lemma InvalidEntry(d: Dec)
    ensures CodeBitsOf(INVALID) == 1 && LenResult(d, INVALID) == d.(mode := BAD) &&
      DistResult(d, INVALID) == d.(mode := BAD)
  {
  }

  lemma DistGo(d: Dec, u: Bits, e: Entry, n0: nat)
    requires d.mode.DIST? && |d.dl| <= 32 && Recognized(DISTS, d.dl, u, e, n0)
    ensures n0 + CodeBitsOf(e) <= |u| && Act(d, u, [], 0) == Go(DistResult(d, e), n0 + CodeBitsOf(e), [])
  {
    hide Act, EntryFor, Need, CodeBitsOf, DistSym, DistResult, Lookup;
    ModeDist(d, u, [], 0);
    var f := Lookup(DISTS, d.dl, u);
    if f.Sym? {
      DistEntry(d, f.s, f.n, n0);
    } else {
      InvalidEntry(d);
    }
  }

  // ---- ranges ----

  lemma LenRanges(d: Dec, e: Entry, u: Bits, n0: nat)
    requires |d.ll| <= 288 && Recognized(LENS, d.ll, u, e, n0) && LenResult(d, e).mode.LENEXT?
    ensures e.val >= 1 && CodeExtraOf(e) <= 15
  {
    hide Lookup, Need, EntryFor, CodeExtraOf, CodeBitsOf;
    var f := Lookup(LENS, d.ll, u);
    if f.Sym? {
      LenValue(f.s, f.n - n0);
    } else {
      InvalidEntry(d);
    }
  }

  lemma LenValue(s: nat, n: nat)
    requires s < 288 && n <= 15
    ensures var e := EntryFor(LENS, s, n);
      e.op != 0 && e.op / 32 % 2 == 0 && e.op / 64 % 2 == 0 ==> e.val >= 1 && CodeExtraOf(e) <= 15
  {
    if s >= 257 {
      UnusedOps(s - 257);
      OpBits(LEXT[s - 257], n);
      if s - 257 < 29 { LBasePositive(s - 257); }
    }
  }

  lemma LBasePositive(k: nat)
    requires k < 29
    ensures LBASE[k] >= 3
  {
  }

  lemma DistRanges(d: Dec, e: Entry, u: Bits, n0: nat)
    requires |d.dl| <= 32 && Recognized(DISTS, d.dl, u, e, n0) && DistResult(d, e).mode.DISTEXT?
    ensures e.val >= 1 && CodeExtraOf(e) <= 15 && e.val + Pow2(CodeExtraOf(e)) <= 32769
  {
    hide Lookup, Need, Pow2, EntryFor, CodeExtraOf, CodeBitsOf;
    var f := Lookup(DISTS, d.dl, u);
    if f.Sym? {
      DistValue(f.s, f.n - n0);
    } else {
      InvalidEntry(d);
    }
  }

  lemma DistValue(s: nat, n: nat)
    requires s < 32 && n <= 15
    ensures var e := EntryFor(DISTS, s, n);
      e.op / 64 % 2 == 0 ==> e.val >= 1 && CodeExtraOf(e) <= 15 && e.val + Pow2(CodeExtraOf(e)) <= 32769
  {
    hide Pow2;
    DExtRange(s);
    OpBits(DEXT[s], n);
    if DEXT[s] != 64 {
      UsedDistance(s);
      DistSpan(s);
    }
  }

  lemma UsedDistance(s: nat)
    requires s < 32 && DEXT[s] != 64
    ensures s < 30
  {
  }

  lemma DistSpan(s: nat)
    requires s < 30
    ensures DBASE[s] >= 1 && DEXT[s] % 16 <= 13 && DBASE[s] + Pow2(DEXT[s] % 16) <= 32769
  {
    DTable(s);
    Ends();
    BaseDStep(s);
    if s < 29 { BaseDMono(s + 1, 30); }
    SmallExtra(s);
  }

  lemma SmallExtra(s: nat)
    requires s < 30
    ensures ExtraD(s) <= 13 && (16 + ExtraD(s)) % 16 == ExtraD(s)
  {
  }

  // ---- the modes ----

  lemma LenCore(v: Vars, d: Dec, b: Bits, u: Bits, e: Entry, n0: nat, v': Vars, b': Bits)
    requires Core(v, d, b) && d.mode.LEN? && |d.ll| <= 288 && Recognized(LENS, d.ll, u, e, n0) && |b'| < 8
    requires v' == v.(length := e.val, mode := LenResult(d, e).mode,
      extra := if LenResult(d, e).mode.LENEXT? then CodeExtraOf(e) else v.extra)
    ensures Core(v', LenResult(d, e), b')
  {
    hide Act, Accepts, Recognized, CodeBitsOf;
    if LenResult(d, e).mode.LENEXT? { LenRanges(d, e, u, n0); }
    hide CodeExtraOf;
  }

  lemma DistCore(v: Vars, d: Dec, b: Bits, u: Bits, e: Entry, n0: nat, v': Vars, b': Bits)
    requires Core(v, d, b) && d.mode.DIST? && |d.dl| <= 32 && Recognized(DISTS, d.dl, u, e, n0) && |b'| < 8
    requires v' == if e.op / 64 % 2 == 1 then v.(mode := BAD)
      else v.(mode := DISTEXT, offset := e.val, extra := CodeExtraOf(e))
    ensures Core(v', DistResult(d, e), b')
  {
    hide Act, Accepts, Recognized, CodeBitsOf, Pow2;
    if DistResult(d, e).mode.DISTEXT? { DistRanges(d, e, u, n0); }
    hide CodeExtraOf;
  }

  /** A lookup that is not decided leaves the machine waiting in its mode. */
  lemma WaitCore(v: Vars, d: Dec, b: Bits, u: Bits)
    requires Core(v, d, b) && |u| <= 40
    requires (d.mode.LEN? && |d.ll| <= 288 && Lookup(LENS, d.ll, u) == More) ||
             (d.mode.DIST? && |d.dl| <= 32 && Lookup(DISTS, d.dl, u) == More)
    ensures Core(v, d, u) && Act(d, u, [], 0).Stuck?
  {
    hide Lookup, Tied;
    if d.mode.LEN? { ModeLen(d, u, [], 0); } else { ModeDist(d, u, [], 0); }
  }

  /** In LEN and DIST, more than seven bits in the accumulator do not decide the code. */
  lemma LeanCode(v: Vars, d: Dec, b: Bits)
    requires Core(v, d, b) && ((d.mode.LEN? && |d.ll| <= 288 && Lookup(LENS, d.ll, b) != More) ||
                               (d.mode.DIST? && |d.dl| <= 32 && Lookup(DISTS, d.dl, b) != More))
    ensures |b| < 8
  {
    hide Lookup, Tied;
    if d.mode.LEN? { ModeLen(d, b, [], 0); } else { ModeDist(d, b, [], 0); }
  }

  lemma CodesAccepted(v: Vars, d: Dec, b: Bits)
    requires Core(v, d, b) && (d.mode.LEN? || d.mode.DIST?)
    ensures Accepts(LENS, d.ll) && Accepts(DISTS, d.dl) && |d.ll| <= 288 && |d.dl| <= 32
  {
    hide Accepts;
  }

  /** LEN: a literal, a length or the end of the block. */
  method LenMode(br: BitReader, v: Vars, ghost d: Dec) returns (leave: bool, v': Vars, ghost d': Dec)
    requires br.Valid() && Core(v, d, br.hold[..br.bits]) && v.mode.LEN? &&
      Decodes(v.lencode[..], v.lenbits, LENS, d.ll)
    modifies br
    ensures br.Valid() && Core(v', d', br.hold[..br.bits]) && Did(leave, v, d, old(br.Unread()), v', d', br.Unread())
    ensures v' == v.(length := v'.length, mode := v'.mode, extra := v'.extra) && d'.ll == d.ll && d'.dl == d.dl
    ensures v'.mode in {LEN, LIT, TYPE, BAD, LENEXT}
  {
    hide Act, Core, Clear, BytesBits, WellFormed, Decodes, Accepts, Lookup, Recognized, CodeBitsOf, CodeExtraOf;
    ghost var u, b0 := br.Unread(), br.hold[..br.bits];
    CoreParts(v, d, b0);
    CodesAccepted(v, d, b0);
    v', d' := v, d;
    var ok, here, n0 := br.FindEntry(v.lencode, v.lenbits, false, LENS, d.ll);
    if !ok {
      BytesNone();
      assert br.Unread() == br.hold[..br.bits];
      WaitCore(v, d, b0, br.hold[..br.bits]);
      return true, v, d;
    }
    if Lookup(LENS, d.ll, b0) != More { LeanCode(v, d, b0); }
    LenGo(d, u, here, n0);
    DropTwice(u, n0, CodeBitsOf(here));
    if n0 != 0 {
      br.DropBits(n0);
    }
    br.DropBits(CodeBitsOf(here));
    d' := LenResult(d, here);
    v' := v.(length := here.val);
    if here.op == 0 {
      v' := v'.(mode := LIT);
    } else if here.op / 32 % 2 == 1 {
      v' := v'.(mode := TYPE);
    } else if here.op / 64 % 2 == 1 {
      v' := v'.(mode := BAD);
    } else {
      v' := v'.(extra := CodeExtraOf(here), mode := LENEXT);
    }
    LenCore(v, d, b0, u, here, n0, v', br.hold[..br.bits]);
    return false, v', d';
  }

  lemma DropTwice(u: Bits, a: nat, b: nat)
    requires a + b <= |u|
    ensures u[a..][b..] == u[a + b..] && u[0..] == u
  {
  }

  /** DIST: a distance. */
  method DistMode(br: BitReader, v: Vars, ghost d: Dec) returns (leave: bool, v': Vars, ghost d': Dec)
    requires br.Valid() && Core(v, d, br.hold[..br.bits]) && v.mode.DIST? &&
      Decodes(v.distcode[..], v.distbits, DISTS, d.dl)
    modifies br
    ensures br.Valid() && Core(v', d', br.hold[..br.bits]) && Did(leave, v, d, old(br.Unread()), v', d', br.Unread())
    ensures v' == v.(offset := v'.offset, mode := v'.mode, extra := v'.extra) && d'.ll == d.ll && d'.dl == d.dl
    ensures v'.mode in {DIST, DISTEXT, BAD}
  {
    hide Act, Core, Clear, BytesBits, WellFormed, Decodes, Accepts, Lookup, Recognized, CodeBitsOf, CodeExtraOf;
    ghost var u, b0 := br.Unread(), br.hold[..br.bits];
    CoreParts(v, d, b0);
    CodesAccepted(v, d, b0);
    v', d' := v, d;
    var ok, here, n0 := br.FindEntry(v.distcode, v.distbits, true, DISTS, d.dl);
    if !ok {
      BytesNone();
      assert br.Unread() == br.hold[..br.bits];
      WaitCore(v, d, b0, br.hold[..br.bits]);
      return true, v, d;
    }
    if Lookup(DISTS, d.dl, b0) != More { LeanCode(v, d, b0); }
    DistGo(d, u, here, n0);
    DropTwice(u, n0, CodeBitsOf(here));
    if n0 != 0 {
      br.DropBits(n0);
    }
    br.DropBits(CodeBitsOf(here));
    d' := DistResult(d, here);
    if here.op / 64 % 2 == 1 {
      v' := v.(mode := BAD);
    } else {
      v' := v.(offset := here.val, extra := CodeExtraOf(here), mode := DISTEXT);
    }
    DistCore(v, d, b0, u, here, n0, v', br.hold[..br.bits]);
    return false, v', d';
  }
}
