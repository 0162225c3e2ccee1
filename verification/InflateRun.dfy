/** Runs of the decoder, and why they do not depend on how input and output are cut into pieces. */
module InflateRun {
  import opened Bits
  import opened Canonical
  import opened TableSpec
  import opened RunLength
  import opened FixedCodes
  import opened InflateSpec

  /** The decoder with the bits it has not read, the output it has written, and the room that is left. */
  datatype State = State(d: Dec, u: Bits, out: seq<nat>, room: nat)

  /** The codes in use are codes that the tables accept. */
  ghost predicate WellFormed(d: Dec)
  {
    |d.cl| == 19 && (forall i :: 0 <= i < 19 ==> d.cl[i] < 8) && |d.ll| <= 288 && |d.dl| <= 32 &&
    (d.mode.CODELENS? ==> Accepts(CODES, d.cl)) &&
    (d.mode in {LEN, LENEXT, DIST, DISTEXT, MATCH, LIT} ==> Accepts(LENS, d.ll) && Accepts(DISTS, d.dl)) &&
    (d.mode in {LENLENS, CODELENS} ==> 257 <= d.nlen <= 286 && 1 <= d.ndist <= 30) &&
    (d.mode.LENLENS? ==> d.ncode <= 19 && d.have <= d.ncode) &&
    (d.mode.CODELENS? ==> |d.acc| <= d.nlen + d.ndist && forall i :: 0 <= i < |d.acc| ==> d.acc[i] < 16)
  }

  /** The step of a state, if there is one. */
  ghost function Next(st: State): (r: State)
    requires Act(st.d, st.u, st.out, st.room).Go?
  {
    var o := Act(st.d, st.u, st.out, st.room);
    State(o.d, st.u[o.n..], st.out + o.e, st.room - |o.e|)
  }

  ghost predicate Halted(st: State) { Act(st.d, st.u, st.out, st.room).Stuck? }

  /** How far a mode is from consuming a bit, producing a byte, or stopping. */
  function Rank(m: Mode): (r: nat)
  {
    match m
    case DONE => 0 case BAD => 0
    case TYPE => 1
    case COPY => 2 case MATCH => 2 case LIT => 2
    case LEN => 3 case DIST => 3
    case CODELENS => 4 case LENEXT => 4 case DISTEXT => 4
    case LENLENS => 5 case STORED => 5 case TABLE => 5
  }

  /** Every step makes progress. */
  lemma Progress(d: Dec, u: Bits, out: seq<nat>, room: nat)
    requires WellFormed(d) && Act(d, u, out, room).Go?
    ensures var o := Act(d, u, out, room); o.n + |o.e| > 0 || Rank(o.d.mode) < Rank(d.mode)
  {
    hide Lookup, Field, Apply, Accepts;
    if d.mode.CODELENS? || d.mode.LEN? || d.mode.DIST? {
      CodesArePositive(d, u);
    }
  }

  lemma CodesArePositive(d: Dec, u: Bits)
    requires WellFormed(d)
    ensures var f := Lookup(CODES, d.cl, u); f.Sym? ==> f.n > 0
    ensures var f := Lookup(LENS, d.ll, u); f.Sym? ==> f.n > 0
    ensures var f := Lookup(DISTS, d.dl, u); f.Sym? ==> f.n > 0
  {
  }

  /** Run until nothing more can be done with the input and the room at hand. */
  ghost function Run(st: State): (r: State)
    requires WellFormed(st.d)
    ensures WellFormed(r.d) && Halted(r)
    decreases |st.u| + st.room, Rank(st.d.mode)
  {
    if Halted(st) then st
    else
      Progress(st.d, st.u, st.out, st.room);
      StaysWellFormed(st.d, st.u, st.out, st.room);
      Run(Next(st))
  }

  // ---- well-formedness ----

  lemma FieldBound(u: Bits, from: nat, n: nat)
    requires from + n <= |u|
    ensures Field(u, from, n) < Pow2(n)
  {
    hide Pow2;
    BelowPow2(u[from..from + n]);
  }

  lemma FixedAccepted()
    ensures Accepts(LENS, FixedL()) && Accepts(DISTS, FixedD(32))
  {
    hide Below, Pow2;
    FixedLComplete();
    FixedDComplete();
  }

  lemma TypeWellFormed(d: Dec, u: Bits)
    requires WellFormed(d) && d.mode.TYPE? && ActType(d, u).Go?
    ensures WellFormed(ActType(d, u).d)
  {
    hide Accepts, Field, FixedL, FixedD;
    FixedAccepted();
  }

  lemma TableWellFormed(d: Dec, u: Bits)
    requires WellFormed(d) && d.mode.TABLE? && ActTable(d, u).Go?
    ensures WellFormed(ActTable(d, u).d)
  {
    hide Accepts, Field, Pow2;
    FieldBound(u, 10, 4);
    assert Pow2(4) == 16 by { Pow2Table(); }
  }

  lemma LenLensWellFormed(d: Dec, u: Bits)
    requires WellFormed(d) && d.mode.LENLENS? && ActLenLens(d, u).Go?
    ensures WellFormed(ActLenLens(d, u).d)
  {
    hide Accepts, Field, Pow2;
    assert Pow2(3) == 8 by { Pow2Table(); }
    if |u| >= 3 { FieldBound(u, 0, 3); }
  }

  lemma ApplyBounds(sym: ClSym, acc: seq<nat>, limit: nat)
    requires |acc| < limit && Apply(sym, acc, limit).Lens? && forall i :: 0 <= i < |acc| ==> acc[i] < 16
    ensures var r := Apply(sym, acc, limit).lens; |r| <= limit && forall i :: 0 <= i < |r| ==> r[i] < 16
  {
  }

  lemma CodeLensWellFormed(d: Dec, u: Bits)
    requires WellFormed(d) && d.mode.CODELENS? && ActCodeLens(d, u).Go?
    ensures WellFormed(ActCodeLens(d, u).d)
  {
    hide Accepts, Field, Lookup, Apply;
    if |d.acc| < d.nlen + d.ndist {
      var f := Lookup(CODES, d.cl, u);
      if f.Sym? && |u| >= f.n + ExtraBits(f.s) {
        var sym := ClSym(f.s, Field(u, f.n, ExtraBits(f.s)));
        if Apply(sym, d.acc, d.nlen + d.ndist).Lens? { ApplyBounds(sym, d.acc, d.nlen + d.ndist); }
      }
    }
  }

  lemma StaysWellFormed(d: Dec, u: Bits, out: seq<nat>, room: nat)
    requires WellFormed(d) && Act(d, u, out, room).Go?
    ensures WellFormed(Act(d, u, out, room).d)
  {
    hide Accepts, Field, Lookup, Apply, ActType, ActTable, ActLenLens, ActCodeLens;
    match d.mode {
      case TYPE => TypeWellFormed(d, u);
      case TABLE => TableWellFormed(d, u);
      case LENLENS => LenLensWellFormed(d, u);
      case CODELENS => CodeLensWellFormed(d, u);
      case _ =>
    }
  }

  // ---- more input and more room ----

  lemma FieldMono(u: Bits, v: Bits, from: nat, n: nat)
    requires from + n <= |u|
    ensures Field(u + v, from, n) == Field(u, from, n)
  {
    assert (u + v)[from..from + n] == u[from..from + n];
  }

  /** What can be done with less input and less room is done in the same way with more. */
  lemma ActMono(d: Dec, u: Bits, out: seq<nat>, room: nat, v: Bits, r: nat)
    requires WellFormed(d) && Act(d, u, out, room).Go? && |v| % 8 == 0
    ensures Act(d, u + v, out, room + r) == Act(d, u, out, room)
  {
    hide Accepts, Field, Lookup, Apply, FixedL, FixedD;
    match d.mode {
      case TYPE =>
        if |u| >= 3 { FieldMono(u, v, 1, 2); }
      case STORED =>
        if |u| >= 32 {
          FieldMono(u, v, 0, 16);
          FieldMono(u, v, 16, 16);
        }
      case COPY =>
        if |u| >= 8 { FieldMono(u, v, 0, 8); }
      case TABLE =>
        FieldMono(u, v, 0, 5);
        FieldMono(u, v, 5, 5);
        FieldMono(u, v, 10, 4);
      case LENLENS =>
        if |u| >= 3 { FieldMono(u, v, 0, 3); }
      case CODELENS =>
        if |d.acc| < d.nlen + d.ndist {
          LookupMono(CODES, d.cl, u, v);
          var f := Lookup(CODES, d.cl, u);
          if f.Sym? { FieldMono(u, v, f.n, ExtraBits(f.s)); }
        }
      case LEN => LookupMono(LENS, d.ll, u, v);
      case LENEXT => FieldMono(u, v, 0, d.extra);
      case DIST => LookupMono(DISTS, d.dl, u, v);
      case DISTEXT => FieldMono(u, v, 0, d.extra);
      case MATCH =>
      case LIT =>
    }
  }

  function Extend(st: State, v: Bits, r: nat): (st': State) { st.(u := st.u + v, room := st.room + r) }

  /** Running as far as possible, then going on with more input and more room, is the same as having it all from the
      start. */
  lemma {:induction false} SplitRun(st: State, v: Bits, r: nat)
    requires WellFormed(st.d) && |v| % 8 == 0
    ensures Run(Extend(st, v, r)) == Run(Extend(Run(st), v, r))
    decreases |st.u| + st.room, Rank(st.d.mode)
  {
    hide Act, WellFormed, Rank;
    if !Halted(st) {
      Progress(st.d, st.u, st.out, st.room);
      StaysWellFormed(st.d, st.u, st.out, st.room);
      SplitRun(Next(st), v, r);
      ActMono(st.d, st.u, st.out, st.room, v, r);
      assert Next(Extend(st, v, r)) == Extend(Next(st), v, r);
      RunStep(Extend(st, v, r));
      RunStep(st);
    } else {
      RunHalted(st);
    }
  }

  lemma RunStep(st: State)
    requires WellFormed(st.d) && !Halted(st)
    ensures WellFormed(Next(st).d) && Run(st) == Run(Next(st))
  {
    hide Act, WellFormed, Rank;
    StaysWellFormed(st.d, st.u, st.out, st.room);
  }

  lemma RunHalted(st: State)
    requires WellFormed(st.d) && Halted(st)
    ensures Run(st) == st
  {
  }

  // ---- cutting a whole run into calls ----

  /** What one call of inflate() brings: whole bytes of input, and room for output. */
  datatype Call = Call(input: Bits, room: nat)

  /** The state in which a call starts: the room of the call before does not matter any more. */
  function Given(st: State, c: Call): (r: State) { st.(u := st.u + c.input, room := c.room) }

  /** The state after a sequence of calls. */
  ghost function Calls(st: State, cs: seq<Call>): (r: State)
    requires WellFormed(st.d)
    ensures WellFormed(r.d)
    decreases |cs|
  {
    if |cs| == 0 then st else Calls(Run(Given(st, cs[0])), cs[1..])
  }

  function AllInput(cs: seq<Call>): (b: Bits) { if |cs| == 0 then [] else cs[0].input + AllInput(cs[1..]) }

  function AllRoom(cs: seq<Call>): (n: nat) { if |cs| == 0 then 0 else cs[0].room + AllRoom(cs[1..]) }

  /** The same state with the input v still to come and room for n bytes of output in all. */
  function Whole(st: State, v: Bits, n: nat): (r: State)
    requires |st.out| <= n
  {
    st.(u := st.u + v, room := n - |st.out|)
  }

  lemma {:induction false} RunRoom(st: State)
    requires WellFormed(st.d)
    ensures |Run(st).out| + Run(st).room == |st.out| + st.room
    decreases |st.u| + st.room, Rank(st.d.mode)
  {
    hide Act, WellFormed, Rank;
    if Halted(st) {
      RunHalted(st);
    } else {
      Progress(st.d, st.u, st.out, st.room);
      RunStep(st);
      RunRoom(Next(st));
    }
  }

  /** However the calls cut the input and the output, they stay on the one run that has all of the input. */
  lemma {:induction false} CallsStayOnRun(st: State, cs: seq<Call>, n: nat)
    requires WellFormed(st.d) && (forall i :: 0 <= i < |cs| ==> |cs[i].input| % 8 == 0) && |st.out| + AllRoom(cs) <= n
    ensures |AllInput(cs)| % 8 == 0 && |Calls(st, cs).out| <= n
    ensures Run(Whole(st, AllInput(cs), n)) == Run(Whole(Calls(st, cs), [], n))
    decreases |cs|
  {
    hide Act, WellFormed, Run, Halted;
    if |cs| > 0 {
      var c, rest := cs[0], cs[1..];
      var st1 := Given(st, c);
      RunRoom(st1);
      CallsStayOnRun(Run(st1), rest, n);
      var v, r := AllInput(rest), n - |st.out| - c.room;
      SplitRun(st1, v, r);
      assert Extend(st1, v, r) == Whole(st, AllInput(cs), n);
      assert Extend(Run(st1), v, r) == Whole(Run(st1), v, n);
    }
  }

  predicate Finished(st: State) { st.d.mode.DONE? || st.d.mode.BAD? }

  lemma FinishedStays(st: State, n: nat)
    requires WellFormed(st.d) && Finished(st) && |st.out| <= n
    ensures Run(Whole(st, [], n)) == Whole(st, [], n)
  {
    hide Run, WellFormed;
    RunHalted(Whole(st, [], n));
  }

  /** Two ways of calling the decoder on the same input that both come to an end agree on the verdict, on the output
      and on the input that is left over. */
  lemma SplitInvariance(st: State, cs: seq<Call>, ds: seq<Call>)
    requires WellFormed(st.d) && (forall i :: 0 <= i < |cs| ==> |cs[i].input| % 8 == 0)
    requires (forall i :: 0 <= i < |ds| ==> |ds[i].input| % 8 == 0) && AllInput(cs) == AllInput(ds)
    requires Finished(Calls(st, cs)) && Finished(Calls(st, ds))
    ensures Calls(st, cs).d == Calls(st, ds).d && Calls(st, cs).out == Calls(st, ds).out &&
      Calls(st, cs).u == Calls(st, ds).u
  {
    hide Act, WellFormed, Run, Calls, AllInput, AllRoom;
    var n := |st.out| + AllRoom(cs) + AllRoom(ds);
    CallsStayOnRun(st, cs, n);
    CallsStayOnRun(st, ds, n);
    FinishedStays(Calls(st, cs), n);
    FinishedStays(Calls(st, ds), n);
    var x, y := Calls(st, cs), Calls(st, ds);
    assert x.u + [] == x.u && y.u + [] == y.u;
  }
}
