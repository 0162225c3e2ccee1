/** Deflate and inflate together: whatever a strategy has compressed, any sequence of calls of inflate() gives back. */
module EndToEnd {
  import opened Bits
  import opened FlushBlock
  import opened InflateSpec
  import opened InflateRun
  import opened BlockRoundTrip
  import opened DeflateState
  import opened BitReader
  import opened BitWriter
  import opened Window
  import opened InflateModes
  import opened Inflate
  import DeflateFast

  /** The complete stream is decoded in one run to the input that was compressed. */
  lemma DeflateInflate(s: Deflater, rest: Bits, room: nat) returns (d': Dec)
    requires DeflateFast.Finished(s) && |s.lz.input| <= room && |rest| % 8 == 0
    ensures WellFormed(Fresh()) && d'.mode.DONE?
    ensures Run(State(Fresh(), s.bs.w.Stream() + rest, [], room)) == State(d', rest, s.lz.input, room - |s.lz.input|)
  {
    hide Run, StreamOf, Contents, AllSendable, WellFormed;
    d' := StreamRoundTrip(s.blocks, rest, room);
  }

  // ---- any calls ----

  /** The decoder before its first call. */
  function Start(): (st: State) { State(Fresh(), [], [], 0) }

  lemma {:induction false} RunAppends(st: State)
    requires WellFormed(st.d)
    ensures st.out <= Run(st).out
    decreases |st.u| + st.room, Rank(st.d.mode)
  {
    hide Act, WellFormed, Rank;
    if Halted(st) {
      RunHalted(st);
    } else {
      Progress(st.d, st.u, st.out, st.room);
      RunStep(st);
      RunAppends(Next(st));
    }
  }

  lemma {:induction false} CallsSnoc(st: State, cs: seq<Call>, c: Call)
    requires WellFormed(st.d)
    ensures Calls(st, cs + [c]) == Run(Given(Calls(st, cs), c)) && AllInput(cs + [c]) == AllInput(cs) + c.input
    ensures AllRoom(cs + [c]) == AllRoom(cs) + c.room
    decreases |cs|
  {
    hide Run, WellFormed;
    if |cs| == 0 {
      assert (cs + [c])[1..] == [];
      assert Calls(Run(Given(st, c)), []) == Run(Given(st, c));
      assert c.input + [] == c.input && [] + c.input == c.input;
    } else {
      assert (cs + [c])[1..] == cs[1..] + [c] && (cs + [c])[0] == cs[0];
      CallsSnoc(Run(Given(st, cs[0])), cs[1..], c);
      assert cs[0].input + (AllInput(cs[1..]) + c.input) == cs[0].input + AllInput(cs[1..]) + c.input;
    }
  }

  /** The calls bring the bits v, cut into whole bytes. */
  ghost predicate Brings(cs: seq<Call>, v: Bits)
    { AllInput(cs) == v && forall i :: 0 <= i < |cs| ==> |cs[i].input| % 8 == 0 }

  lemma {:induction false} CallsRoom(st: State, cs: seq<Call>)
    requires WellFormed(st.d)
    ensures |Calls(st, cs).out| <= |st.out| + AllRoom(cs)
    ensures |cs| > 0 ==> |Calls(st, cs).out| + Calls(st, cs).room <= |st.out| + AllRoom(cs) && Halted(Calls(st, cs))
    decreases |cs|
  {
    hide Run, WellFormed, Act, Halted;
    if |cs| > 0 {
      var st1 := Run(Given(st, cs[0]));
      RunRoom(Given(st, cs[0]));
      CallsRoom(st1, cs[1..]);
      if |cs| == 1 { assert Calls(st1, cs[1..]) == st1; }
    }
  }

  /** Stopped for lack of input, more room does not help. */
  lemma StuckRoom(st: State, room: nat)
    requires Halted(st) && (st.room > 0 || InflateRun.Finished(st)) && room > 0
    ensures Halted(st.(room := room))
  {
    hide ActType, ActStored, ActTable, ActLenLens, ActCodeLens, ActLen, ActLenExt, ActDist, ActDistExt;
  }

  /** All of the stream has been brought, and all calls together have left off on the one run. */
  lemma CallsEnd(s: Deflater, cs: seq<Call>, n: nat) returns (d': Dec)
    requires DeflateFast.Finished(s) && Brings(cs, s.bs.w.Stream()) && AllRoom(cs) + |s.lz.input| <= n
    ensures WellFormed(Fresh()) && d'.mode.DONE? && |Calls(Start(), cs).out| <= n
    ensures Run(Whole(Calls(Start(), cs), [], n)) == State(d', [], s.lz.input, n - |s.lz.input|)
  {
    hide Run, WellFormed, Calls, AllInput, AllRoom, StreamOf, AllSendable, Contents, Fresh;
    d' := DeflateInflate(s, [], n);
    CallsStayOnRun(Start(), cs, n);
    var v := s.bs.w.Stream();
    assert [] + v == v + [] == v;
  }

  /** However the stream and the room for output are cut into calls: what has been written is a prefix of the input that
      was compressed, no call fails, and when all of the stream has been read and room is left over, or the decoder says
      that it is done, all of the input is there. */
  lemma AnyCalls(s: Deflater, cs: seq<Call>, more: Bits)
    requires DeflateFast.Finished(s) && |cs| > 0 && Brings(cs, AllInput(cs)) && AllInput(cs) + more == s.bs.w.Stream()
    requires |more| % 8 == 0
    ensures WellFormed(Start().d)
    ensures Calls(Start(), cs).out <= s.lz.input && !Calls(Start(), cs).d.mode.BAD?
    ensures more == [] && (Calls(Start(), cs).room > 0 || InflateRun.Finished(Calls(Start(), cs))) ==>
      Calls(Start(), cs).d.mode.DONE? && Calls(Start(), cs).out == s.lz.input
  {
    hide Run, WellFormed, Calls, AllInput, AllRoom, DeflateFast.Finished, Fresh, Halted, Act;
    FreshIs();
    var e := Calls(Start(), cs);
    var c := Call(more, |s.lz.input| + 1);
    var n := AllRoom(cs) + c.room + |s.lz.input|;
    CallsSnoc(Start(), cs, c);
    var f := Run(Given(e, c));
    var d' := CallsEnd(s, cs + [c], n);
    RunAppends(Given(e, c));
    RunAppends(Whole(f, [], n));
    CallsRoom(Start(), cs);
    if e.d.mode.BAD? || (more == [] && (e.room > 0 || InflateRun.Finished(e))) {
      Settled(e, c, n, f, more);
    }
  }

  lemma FreshIs()
    ensures WellFormed(Fresh())
  {
  }

  /** A state that cannot go on for another reason than room stays as it is. */
  lemma Settled(e: State, c: Call, n: nat, f: State, more: Bits)
    requires WellFormed(e.d) && Halted(e) && c.input == more && c.room > 0 && |e.out| + e.room + c.room <= n
    requires e.d.mode.BAD? || (more == [] && (e.room > 0 || InflateRun.Finished(e)))
    requires f == Run(Given(e, c)) && |f.out| <= n
    ensures Run(Whole(f, [], n)).d == e.d && Run(Whole(f, [], n)).out == e.out
  {
    hide Run, WellFormed, Act;
    if e.d.mode.BAD? {
      Ended(Given(e, c));
    } else {
      assert e.u + [] == e.u;
      StuckRoom(e, c.room);
    }
    RunHalted(Given(e, c));
    if e.d.mode.BAD? {
      Ended(Whole(f, [], n));
    } else {
      assert f.u + [] == f.u;
      StuckRoom(f, n - |f.out|);
    }
    RunHalted(Whole(f, [], n));
  }

  // ---- the decoder itself ----

  /** Pieces of a stream with the room for output of the call that reads them. */
  datatype Piece = Piece(bytes: seq<Byte>, room: nat)

  function AsCall(p: Piece): (c: Call) { Call(BytesBits(p.bytes), p.room) }

  function AsCalls(ps: seq<Piece>): (cs: seq<Call>)
    ensures |cs| == |ps| && forall i :: 0 <= i < |ps| ==> cs[i] == AsCall(ps[i])
  {
    seq(|ps|, i requires 0 <= i < |ps| => AsCall(ps[i]))
  }

  lemma AsCallsSnoc(ps: seq<Piece>, i: nat)
    requires i < |ps|
    ensures AsCalls(ps[..i + 1]) == AsCalls(ps[..i]) + [AsCall(ps[i])]
  {
  }

  /** Call inflate() once for every piece, each time with a buffer of its own. */
  method InflatePieces(ps: seq<Piece>) returns (out: seq<nat>, done: bool, left: nat)
    ensures WellFormed(Start().d)
    ensures out == Calls(Start(), AsCalls(ps)).out && left == Calls(Start(), AsCalls(ps)).room
    ensures done <==> Calls(Start(), AsCalls(ps)).d.mode.DONE?
  {
    hide Run, WellFormed, Calls, Fresh, BytesBits, AsCalls, Inflater.Running;
    FreshIs();
    var inf := new Inflater();
    out, left := [], 0;
    CallsNone();
    EnoughInput(inf);
    for i := 0 to |ps|
      invariant fresh(inf) && fresh(inf.br) && fresh(inf.win) && fresh(inf.win.window) && fresh(inf.lenTable) &&
        fresh(inf.distTable)
      invariant inf.Valid() && inf.br.bits <= 64 && out == inf.total
      invariant State(inf.d, inf.br.Unread(), inf.total, left) == Calls(Start(), AsCalls(ps[..i]))
    {
      var buf := new nat[ps[i].room](_ => 0);
      var put := inf.Inflate(ps[i].bytes, buf);
      out, left := out + buf[..put], ps[i].room - put;
      EnoughInput(inf);
      AsCallsSnoc(ps, i);
      CallsSnoc(Start(), AsCalls(ps[..i]), AsCall(ps[i]));
    }
    assert ps[..|ps|] == ps;
    done := inf.v.mode.DONE?;
    SameMode(inf);
  }

  lemma EnoughInput(inf: Inflater)
    requires inf.Valid()
    ensures inf.br.bits <= 64
  {
    hide Core, Codes, Clear, Window.Valid;
    EnoughBits(inf.br);
  }

  lemma SameMode(inf: Inflater)
    requires inf.Valid()
    ensures inf.v.mode == inf.d.mode
  {
    hide Core, Codes, Clear, Window.Valid;
    CoreParts(inf.v, inf.d, inf.br.hold[..inf.br.bits]);
  }

  lemma CallsNone()
    ensures WellFormed(Start().d) && Calls(Start(), AsCalls([][..0])) == Start()
  {
    FreshIs();
  }

  /** inflate() on the output of deflate(): whatever the pieces, what comes out is a prefix of the data, and all of it
      as soon as the whole stream has been read with room to spare or the decoder reports the end. */
  method RoundTrip(s: Deflater, ps: seq<Piece>, ghost more: Bits) returns (out: seq<nat>, done: bool, left: nat)
    requires DeflateFast.Finished(s) && |ps| > 0 && |more| % 8 == 0
    requires AllInput(AsCalls(ps)) + more == s.bs.w.Stream()
    ensures out <= s.lz.input && (more == [] && (left > 0 || done) ==> out == s.lz.input && done)
  {
    hide *;
    out, done, left := InflatePieces(ps);
    PiecesBring(ps);
    AnyCalls(s, AsCalls(ps), more);
    DoneIs(Calls(Start(), AsCalls(ps)));
  }

  lemma DoneIs(st: State)
    ensures st.d.mode.DONE? ==> InflateRun.Finished(st)
  {
  }

  lemma PiecesBring(ps: seq<Piece>)
    ensures Brings(AsCalls(ps), AllInput(AsCalls(ps))) && |AsCalls(ps)| == |ps|
  {
    hide AllInput;
  }
}
