/** inflate.c inflate(): one call runs the modes until input or room run out, and then updates the window. A call does
    exactly what the decoder over bits does with the same input and room. */
module Inflate {
  import opened Bits
  import opened Canonical
  import opened TableSpec
  import opened FixedCodes
  import opened InflateTable
  import opened InflateSpec
  import opened InflateRun
  import opened Decoding
  import opened BlockRoundTrip
  import opened BitWriter
  import opened BitReader
  import opened Window
  import opened InflateModes
  import opened InflateCodes
  import opened InflateLens
  import opened InflateOutput
  import opened InflateFast

  predicate InCodes(m: Mode) { m in {LEN, LENEXT, DIST, DISTEXT, MATCH, LIT} }

  /** The tables that the mode uses decode the codes of d. */
  ghost predicate Codes(v: Vars, d: Dec, lenTable: array<Entry>, distTable: array<Entry>, fixLen: array<Entry>,
                        fixDist: array<Entry>)
    reads lenTable, distTable, fixLen, fixDist
  {
    lenTable != distTable && fixLen !in {lenTable, distTable} && fixDist !in {lenTable, distTable} &&
    lenTable.Length == ENOUGH_LENS && distTable.Length == ENOUGH_DISTS &&
    Decodes(fixLen[..], 9, LENS, FixedL()) && Decodes(fixDist[..], 5, DISTS, FixedD(32)) &&
    (v.mode.CODELENS? ==>
      v.lencode == lenTable && Decodes(lenTable[..], v.lenbits, CODES, d.cl) && NoLonger(d.cl, v.lenbits)) &&
    (InCodes(v.mode) ==>
      ((v.lencode == lenTable && v.distcode == distTable) || (v.lencode == fixLen && v.distcode == fixDist)) &&
      v.lenbits <= 10 && v.distbits <= 9 &&
      Decodes(v.lencode[..], v.lenbits, LENS, d.ll) && Decodes(v.distcode[..], v.distbits, DISTS, d.dl))
  }

  lemma CodesIn(v: Vars, d: Dec, lenTable: array<Entry>, distTable: array<Entry>, fixLen: array<Entry>,
                fixDist: array<Entry>)
    requires Codes(v, d, lenTable, distTable, fixLen, fixDist) && InCodes(v.mode)
    ensures Decodes(v.lencode[..], v.lenbits, LENS, d.ll) && Decodes(v.distcode[..], v.distbits, DISTS, d.dl)
    ensures v.lenbits <= 10 && v.distbits <= 9
  {
    hide Decodes, FixedL, FixedD, NoLonger;
  }

  lemma CodesStay(v: Vars, d: Dec, v': Vars, d': Dec, lenTable: array<Entry>, distTable: array<Entry>,
                  fixLen: array<Entry>, fixDist: array<Entry>)
    requires Codes(v, d, lenTable, distTable, fixLen, fixDist) && InCodes(v.mode) && !v'.mode.CODELENS?
    requires (v'.lencode, v'.lenbits, v'.distcode, v'.distbits) == (v.lencode, v.lenbits, v.distcode, v.distbits)
    requires d'.ll == d.ll && d'.dl == d.dl
    ensures Codes(v', d', lenTable, distTable, fixLen, fixDist)
  {
    hide Decodes, FixedL, FixedD, NoLonger;
  }

  /** A step of LEN, LENEXT, DIST or DISTEXT. */
  method CodeStep(br: BitReader, v: Vars, lenTable: array<Entry>, distTable: array<Entry>, fixLen: array<Entry>,
                  fixDist: array<Entry>, ghost d: Dec)
    returns (leave: bool, v': Vars, ghost d': Dec)
    requires br.Valid() && Core(v, d, br.hold[..br.bits]) && v.mode in {LEN, LENEXT, DIST, DISTEXT}
    requires Codes(v, d, lenTable, distTable, fixLen, fixDist)
    modifies br
    ensures br.Valid() && Core(v', d', br.hold[..br.bits]) && Codes(v', d', lenTable, distTable, fixLen, fixDist)
    ensures Did(leave, v, d, old(br.Unread()), v', d', br.Unread())
  {
    hide Act, Core, Clear, BytesBits, Decodes, Did, Codes;
    CodesIn(v, d, lenTable, distTable, fixLen, fixDist);
    if v.mode.LEN? {
      leave, v', d' := LenMode(br, v, d);
    } else if v.mode.DIST? {
      leave, v', d' := DistMode(br, v, d);
    } else {
      leave, v', d' := ExtMode(br, v, d);
    }
    CodesStay(v, d, v', d', lenTable, distTable, fixLen, fixDist);
  }

  lemma FastTables(v: Vars, d: Dec, b: Bits, lenTable: array<Entry>, distTable: array<Entry>, fixLen: array<Entry>,
                   fixDist: array<Entry>)
    requires Codes(v, d, lenTable, distTable, fixLen, fixDist) && Core(v, d, b) && d.mode.LEN?
    ensures Tables(v.lencode[..], v.lenbits, v.distcode[..], v.distbits, d)
  {
    hide Codes, Core, Decodes, Accepts, WellFormed;
    CoreParts(v, d, b);
    CodesIn(v, d, lenTable, distTable, fixLen, fixDist);
    CodesAccepted(v, d, b);
  }

  /** What the tables must be in the modes before a block. */
  ghost predicate HasFixed(lenTable: array<Entry>, distTable: array<Entry>, fixLen: array<Entry>, fixDist: array<Entry>)
    reads fixLen, fixDist
  {
    lenTable != distTable && fixLen !in {lenTable, distTable} && fixDist !in {lenTable, distTable} &&
    lenTable.Length == ENOUGH_LENS && distTable.Length == ENOUGH_DISTS &&
    Decodes(fixLen[..], 9, LENS, FixedL()) && Decodes(fixDist[..], 5, DISTS, FixedD(32))
  }

  lemma CodesFixed(v: Vars, d: Dec, lenTable: array<Entry>, distTable: array<Entry>, fixLen: array<Entry>,
                   fixDist: array<Entry>)
    requires Codes(v, d, lenTable, distTable, fixLen, fixDist)
    ensures HasFixed(lenTable, distTable, fixLen, fixDist)
    ensures v.mode.CODELENS? ==>
      v.lencode == lenTable && Decodes(lenTable[..], v.lenbits, CODES, d.cl) && NoLonger(d.cl, v.lenbits)
  {
    hide Decodes, FixedL, FixedD, NoLonger;
  }

  lemma FixedSizes(lenTable: array<Entry>, distTable: array<Entry>, fixLen: array<Entry>, fixDist: array<Entry>)
    requires HasFixed(lenTable, distTable, fixLen, fixDist)
    ensures lenTable != distTable && fixLen !in {lenTable, distTable} && fixDist !in {lenTable, distTable}
    ensures lenTable.Length == ENOUGH_LENS && distTable.Length == ENOUGH_DISTS
  {
    hide Decodes, FixedL, FixedD;
  }

  lemma CodesNow(v: Vars, d: Dec, lenTable: array<Entry>, distTable: array<Entry>, fixLen: array<Entry>,
                 fixDist: array<Entry>)
    requires HasFixed(lenTable, distTable, fixLen, fixDist)
    requires v.mode.CODELENS? ==>
      v.lencode == lenTable && Decodes(lenTable[..], v.lenbits, CODES, d.cl) && NoLonger(d.cl, v.lenbits)
    requires v.mode.LEN? ==>
      (v.lencode == lenTable && v.distcode == distTable && v.lenbits <= 10 && v.distbits <= 9 &&
       Decodes(lenTable[..], v.lenbits, LENS, d.ll) && Decodes(distTable[..], v.distbits, DISTS, d.dl)) ||
      (v.lencode == fixLen && v.distcode == fixDist && v.lenbits == 9 && v.distbits == 5 && d.ll == FixedL() &&
        d.dl == FixedD(32))
    requires InCodes(v.mode) ==> v.mode.LEN?
    ensures Codes(v, d, lenTable, distTable, fixLen, fixDist)
  {
    hide Decodes, FixedL, FixedD, NoLonger;
  }

  /** A step of TYPE, STORED, TABLE, LENLENS or CODELENS. */
  method HeaderStep(br: BitReader, v: Vars, lenTable: array<Entry>, distTable: array<Entry>, fixLen: array<Entry>,
                    fixDist: array<Entry>, ghost d: Dec)
    returns (leave: bool, v': Vars, ghost d': Dec)
    requires br.Valid() && Core(v, d, br.hold[..br.bits]) && v.mode in {TYPE, STORED, TABLE, LENLENS, CODELENS}
    requires Codes(v, d, lenTable, distTable, fixLen, fixDist)
    modifies br, lenTable, distTable
    ensures br.Valid() && Core(v', d', br.hold[..br.bits]) && Codes(v', d', lenTable, distTable, fixLen, fixDist)
    ensures Did(leave, v, d, old(br.Unread()), v', d', br.Unread())
  {
    hide Act, Core, Clear, BytesBits, Decodes, NoLonger, Did, FixedL, FixedD, Codes, HasFixed;
    CodesFixed(v, d, lenTable, distTable, fixLen, fixDist);
    FixedSizes(lenTable, distTable, fixLen, fixDist);
    if v.mode.TYPE? {
      leave, v', d' := TypeMode(br, v, fixLen, fixDist, d);
    } else if v.mode.STORED? {
      leave, v', d' := StoredMode(br, v, d);
    } else if v.mode.TABLE? {
      leave, v', d' := TableMode(br, v, d);
    } else if v.mode.LENLENS? {
      leave, v', d' := LenLensMode(br, v, lenTable, d);
    } else {
      leave, v', d' := CodeLensMode(br, v, lenTable, distTable, d);
    }
    CodesNow(v', d', lenTable, distTable, fixLen, fixDist);
  }

  // ---- one call ----

  /** A step of a reading mode is a step of the machine, whatever has been written. */
  lemma DidMoved(leave: bool, v: Vars, d: Dec, u: Bits, v': Vars, d': Dec, u': Bits, out: seq<nat>, room: nat)
    requires Did(leave, v, d, u, v', d', u') && Reads(d.mode)
    ensures Moved(State(d, u, out, room), State(d', u', out, room), leave)
  {
    hide Act, Reaches;
    AnyRoom(d, u, out, room);
    var st := State(d, u, out, room);
    if leave {
      MovedSelf(st);
    } else {
      var n := Act(d, u, [], 0).n;
      assert u == u[..n] + u[n..] && out + [] == out;
      OneStep(d, u[..n], u[n..], out, room, d', []);
      MovedBy(st, State(d', u', out, room), 1);
    }
  }

  lemma {:induction false} ReachesProgress(a: State, b: State, k: nat)
    requires WellFormed(a.d) && Reaches(a, b, k) && k > 0
    ensures WellFormed(b.d)
    ensures |b.u| + b.room < |a.u| + a.room || (|b.u| + b.room == |a.u| + a.room && Rank(b.d.mode) < Rank(a.d.mode))
    decreases k
  {
    hide Act, WellFormed, Rank;
    Progress(a.d, a.u, a.out, a.room);
    StaysWellFormed(a.d, a.u, a.out, a.room);
    if k > 1 { ReachesProgress(Next(a), b, k - 1); }
  }

  lemma MovedCount(a: State, b: State, leave: bool) returns (k: nat)
    requires Moved(a, b, leave)
    ensures Reaches(a, b, k) && (leave ==> Halted(b)) && (!leave ==> k > 0)
  {
    hide Reaches, Halted;
    k :| Reaches(a, b, k) && (leave ==> Halted(b)) && (!leave ==> k > 0);
  }

  /** One more step of a run. */
  lemma RunOn(st0: State, a: State, b: State, leave: bool)
    requires WellFormed(st0.d) && WellFormed(a.d) && Run(st0) == Run(a) && Moved(a, b, leave)
    ensures WellFormed(b.d) && Run(st0) == Run(b) && (leave ==> Run(st0) == b)
    ensures !leave ==>
      |b.u| + b.room < |a.u| + a.room || (|b.u| + b.room == |a.u| + a.room && Rank(b.d.mode) < Rank(a.d.mode))
  {
    hide *;
    var k := MovedCount(a, b, leave);
    ReachesRun(a, b, k);
    if leave { RunHalted(b); } else { ReachesProgress(a, b, k); }
  }

  /** The state of inflate() between calls. */
  class Inflater {
    const br: BitReader
    const win: Window
    const lenTable: array<Entry>
    const distTable: array<Entry>
    const fixLen: array<Entry>
    const fixDist: array<Entry>
    var v: Vars
    ghost var d: Dec
    ghost var total: seq<nat>

    /** inflateInit2 for a raw stream. */
    constructor ()
      ensures Valid() && d == Fresh() && total == [] && br.Unread() == []
      ensures fresh(br) && fresh(win) && fresh(win.window) && fresh(lenTable) && fresh(distTable)
    {
      hide Decodes, Core;
      br := new BitReader();
      win := new Window();
      lenTable := new Entry[ENOUGH_LENS](_ => INVALID);
      distTable := new Entry[ENOUGH_DISTS](_ => INVALID);
      var fl, fd := FixedTables();
      fixLen, fixDist := fl, fd;
      v := Vars(TYPE, false, 0, 0, 0, 0, 0, 0, 0, seq(320, i => 0), fl, 9, fd, 5);
      d, total := Fresh(), [];
      new;
      FreshCore(v, br.hold[..br.bits]);
    }

    /** Inside of a call, before the window is updated. */
    ghost predicate Running()
      reads this, br, lenTable, distTable, fixLen, fixDist
    {
      br.Valid() && Core(v, d, br.hold[..br.bits]) && Codes(v, d, lenTable, distTable, fixLen, fixDist)
    }

    /** total is all output so far; the window holds its end, unless the stream has failed before there was one. */
    ghost predicate Valid()
      reads this, br, win, win.window, lenTable, distTable, fixLen, fixDist
    {
      Running() && (win.Valid(total) || (v.mode.BAD? && win.wsize == 0))
    }

    /** The state of the decoder over bits, with put bytes in the buffer of this call. */
    ghost function Now(out: array<nat>, put: nat): (st: State)
      requires br.bits <= 64 && put <= out.Length
      reads this, br, out
    {
      State(d, br.Unread(), total + out[..put], out.Length - put)
    }

    lemma RunningParts()
      requires Running()
      ensures br.Valid() && br.bits <= 64 && Core(v, d, br.hold[..br.bits]) &&
        Codes(v, d, lenTable, distTable, fixLen, fixDist)
    {
      hide Core, Codes, Clear;
    }

    lemma IsRunning()
      requires br.Valid() && Core(v, d, br.hold[..br.bits]) && Codes(v, d, lenTable, distTable, fixLen, fixDist)
      ensures Running()
    {
      hide Core, Codes, Clear;
    }

    lemma NowIs(out: array<nat>, put: nat)
      requires br.bits <= 64 && put <= out.Length
      ensures Now(out, put) == State(d, br.Unread(), total + out[..put], out.Length - put)
    {
      hide BytesBits;
    }

    /** One turn of the loop over the modes. */
    method Turn(out: array<nat>, put: nat) returns (leave: bool, put': nat)
      requires Running() && put <= out.Length && out != win.window && (win.Valid(total) || v.mode.BAD?)
      modifies this`v, this`d, br, lenTable, distTable, out
      ensures Running() && put <= put' <= out.Length && (win.Valid(total) || v.mode.BAD?)
      ensures Moved(old(Now(out, put)), Now(out, put'), leave)
    {
      hide *;
      RunningParts();
      leave, put' := true, put;
      CoreParts(v, d, br.hold[..br.bits]);
      NowIs(out, put);
      if v.mode.LEN? && |br.input| >= INFLATE_FAST_MIN_HAVE && out.Length - put >= INFLATE_FAST_MIN_SAFE {
        leave, put' := FastTurn(out, put);
      } else if Reads(v.mode) {
        ReadModes(v.mode);
        leave := ReadTurn(out, put);
        IsRunning();
        EnoughBits(br);
        NowIs(out, put);
      } else if v.mode.DONE? || v.mode.BAD? {
        Ended(Now(out, put));
        MovedSelf(Now(out, put));
      } else {
        OutputModes(v.mode);
        leave, put' := OutputTurn(out, put);
      }
    }

    /** LEN with enough input and output: inflate_fast or inflate_fast_safe. */
    method FastTurn(out: array<nat>, put: nat) returns (leave: bool, put': nat)
      requires Running() && put <= out.Length && out != win.window && win.Valid(total) && v.mode.LEN? && d.mode.LEN?
      requires |br.input| >= INFLATE_FAST_MIN_HAVE && out.Length - put >= INFLATE_FAST_MIN_SAFE
      modifies this`v, this`d, br, out
      ensures Running() && put <= put' <= out.Length && win.Valid(total)
      ensures Moved(old(Now(out, put)), Now(out, put'), leave)
    {
      hide Act, Core, Clear, BytesBits, Moved, Codes, RingHolds, Tables;
      var v';
      ghost var d';
      FastTables(v, d, br.hold[..br.bits], lenTable, distTable, fixLen, fixDist);
      v', put', d' := InflateFast.InflateFast(out.Length - put < INFLATE_FAST_MIN_LEFT, br, v, out, put, win, total, d);
      CodesStay(v, d, v', d', lenTable, distTable, fixLen, fixDist);
      v, d := v', d';
      leave := false;
    }

    method ReadTurn(ghost out: array<nat>, ghost put: nat) returns (leave: bool)
      requires Running() && put <= out.Length && Reads(v.mode)
      modifies this`v, this`d, br, lenTable, distTable
      ensures br.Valid() && Core(v, d, br.hold[..br.bits]) && Codes(v, d, lenTable, distTable, fixLen, fixDist)
      ensures Moved(old(Now(out, put)), State(d, br.Unread(), total + out[..put], out.Length - put), leave)
    {
      hide *;
      RunningParts();
      NowIs(out, put);
      ghost var u, d0, v0 := br.Unread(), d, v;
      CoreParts(v, d, br.hold[..br.bits]);
      ReadModes(v.mode);
      var v';
      ghost var d';
      if v.mode in {LEN, LENEXT, DIST, DISTEXT} {
        leave, v', d' := CodeStep(br, v, lenTable, distTable, fixLen, fixDist, d);
      } else {
        leave, v', d' := HeaderStep(br, v, lenTable, distTable, fixLen, fixDist, d);
      }
      v, d := v', d';
      EnoughBits(br);
      DidMoved(leave, v0, d0, u, v, d, br.Unread(), total + out[..put], out.Length - put);
    }

    method OutputTurn(out: array<nat>, put: nat) returns (leave: bool, put': nat)
      requires Running() && put <= out.Length && out != win.window && win.Valid(total) && v.mode in {COPY, MATCH, LIT}
      modifies this`v, this`d, br, out
      ensures Running() && put <= put' <= out.Length && win.Valid(total)
      ensures Moved(old(Now(out, put)), Now(out, put'), leave)
    {
      hide *;
      RunningParts();
      CoreParts(v, d, br.hold[..br.bits]);
      NowIs(out, put);
      if v.mode.COPY? {
        leave, put' := CopyTurn(out, put);
      } else {
        var v';
        ghost var d';
        if v.mode.MATCH? {
          leave, v', put', d' := MatchMode(br, v, out, put, win, total, d);
        } else {
          leave, v', put', d' := LitMode(br, v, out, put, total, d);
        }
        LeavesOutput(v.mode);
        CodesStay(v, d, v', d', lenTable, distTable, fixLen, fixDist);
        v, d := v', d';
        IsRunning();
        NowIs(out, put');
      }
    }

    method CopyTurn(out: array<nat>, put: nat) returns (leave: bool, put': nat)
      requires Running() && put <= out.Length && out != win.window && v.mode.COPY? && d.mode.COPY?
      modifies this`v, this`d, br, out
      ensures Running() && put <= put' <= out.Length
      ensures Moved(old(Now(out, put)), Now(out, put'), leave)
    {
      hide Act, Core, Clear, BytesBits, Moved, Codes, RingHolds, Decodes, HasFixed, NoLonger;
      var v';
      ghost var d';
      CodesFixed(v, d, lenTable, distTable, fixLen, fixDist);
      leave, v', put', d' := CopyMode(br, v, out, put, total, d);
      CodesNow(v', d', lenTable, distTable, fixLen, fixDist);
      v, d := v', d';
    }

    /** One call of inflate() with more input and a buffer for output. */
    method Inflate(more: seq<Byte>, out: array<nat>) returns (put: nat)
      requires Valid() && out != win.window
      modifies this, br, win, win.window, lenTable, distTable, out
      ensures Valid() && put <= out.Length
      ensures WellFormed(old(d)) && total == old(total) + out[..put]
      ensures State(d, br.Unread(), total, out.Length - put) ==
              Run(State(old(d), old(br.Unread()) + BytesBits(more), old(total), out.Length))
    {
      hide Act, Core, Clear, BytesBits, Moved, Codes, RingHolds, Run, WellFormed, Rank, Reaches;
      ghost var st0 := State(d, br.Unread() + BytesBits(more), total, out.Length);
      BytesConcat(br.input, more);
      br.input := br.input + more;
      put := 0;
      var leave := false;
      CoreParts(v, d, br.hold[..br.bits]);
      assert Now(out, 0) == st0;
      while !leave
        invariant Running() && put <= out.Length &&
          (win.Valid(total) || (v.mode.BAD? && (win.Valid(total) || win.wsize == 0)))
        invariant total == old(total) && WellFormed(st0.d) && WellFormed(d) && Run(st0) == Run(Now(out, put))
        invariant leave ==> Run(st0) == Now(out, put)
        decreases if leave then 0 else 1, |br.Unread()| + out.Length - put, Rank(d.mode)
      {
        ghost var a := Now(out, put);
        leave, put := Turn(out, put);
        RunOn(st0, a, Now(out, put), leave);
      }
      if win.wsize != 0 || (put != 0 && !v.mode.BAD?) {
        win.Update(out, put, put, total);
      }
      total := total + out[..put];
    }
  }

  lemma LeavesOutput(m: Mode)
    requires m in {MATCH, LIT}
    ensures InCodes(m)
  {
  }

  lemma OutputModes(m: Mode)
    requires !Reads(m) && !m.DONE? && !m.BAD?
    ensures m in {COPY, MATCH, LIT}
  {
  }

  lemma EnoughBits(br: BitReader)
    requires br.Valid()
    ensures br.bits <= 64
  {
    hide Clear;
  }

  lemma ReadModes(m: Mode)
    requires Reads(m)
    ensures m in {LEN, LENEXT, DIST, DISTEXT} || m in {TYPE, STORED, TABLE, LENLENS, CODELENS}
  {
  }

  lemma Ended(st: State)
    requires st.d.mode.DONE? || st.d.mode.BAD?
    ensures Halted(st)
  {
  }

  lemma FreshCore(v: Vars, b: Bits)
    requires v.mode.TYPE? && !v.last && |v.lens| == 320 && b == []
    ensures Core(v, Fresh(), b)
  {
  }

  /** The fixed tables: lenfix and distfix of inffixed_tbl.h as makefixed generates them. */
  method FixedTables() returns (fl: array<Entry>, fd: array<Entry>)
    ensures fresh(fl) && fresh(fd) && fl != fd
    ensures Decodes(fl[..], 9, LENS, FixedL()) && Decodes(fd[..], 5, DISTS, FixedD(32))
  {
    hide Decodes, FixedL, FixedD, Accepts;
    fl := new Entry[ENOUGH_LENS](_ => INVALID);
    fd := new Entry[ENOUGH_DISTS](_ => INVALID);
    FixedAccepted();
    FixedShort();
    var ret, used, root := InflateTable.InflateTable(LENS, FixedL(), fl, 9);
    FixedRoots(root, 5);
    ret, used, root := InflateTable.InflateTable(DISTS, FixedD(32), fd, 5);
    FixedRoots(9, root);
  }

  lemma FixedShort()
    ensures NoLonger(FixedL(), 9) && NoLonger(FixedD(32), 5) && Bounded(FixedL()) && Bounded(FixedD(32))
    ensures |FixedL()| == 288 && |FixedD(32)| == 32
  {
  }

  lemma FixedRoots(r: nat, q: nat)
    requires r <= 9 && NoLonger(FixedL(), r) && q <= 5 && NoLonger(FixedD(32), q)
    ensures r == 9 && q == 5
  {
    assert FixedL()[200] == 9 && FixedD(32)[0] == 5;
  }
}
