/** inflate.c inflate(): the modes COPY, MATCH and LIT, which write to the output buffer, also from the window. */
module InflateOutput {
  import opened Bits
  import opened Tokens
  import opened TableSpec
  import opened FlushBlock
  import opened InflateSpec
  import opened InflateRun
  import opened Decoding
  import opened BlockRoundTrip
  import opened BitWriter
  import opened BitReader
  import opened Window
  import opened MatchCopy
  import opened InflateModes

  /** The machine has gone from a to b, to stay there or to go on. */
  ghost predicate Moved(a: State, b: State, leave: bool)
  {
    exists k: nat :: Reaches(a, b, k) && (leave ==> Halted(b)) && (!leave ==> k > 0)
  }

  lemma MovedBy(a: State, b: State, k: nat)
    requires Reaches(a, b, k) && k > 0
    ensures Moved(a, b, false)
  {
  }

  lemma MovedSelf(a: State)
    requires Halted(a)
    ensures Moved(a, a, true)
  {
    ReachesSelf(a);
  }

  // ---- copies of several bytes ----

  /** n steps of COPY. */
  lemma {:induction false} StoredByteSteps(d: Dec, bytes: seq<nat>, rest: Bits, out: seq<nat>, room: nat)
    requires d.mode.COPY? && 1 <= |bytes| <= d.length && |bytes| <= room && AreBytes(bytes)
    ensures Reaches(State(d, BytesBits(bytes) + rest, out, room),
                    State(d.(length := d.length - |bytes|), rest, out + bytes, room - |bytes|), |bytes|)
    decreases |bytes|
  {
    hide Reaches, ToBits;
    var b, bs := bytes[0], bytes[1..];
    var tail := BytesBits(bs) + rest;
    assert BytesBits(bytes) + rest == ToBits(b, 8) + tail && out + [b] + bs == out + bytes;
    CopyByte(d, b, tail, out, room);
    var d1 := d.(length := d.length - 1);
    if |bs| == 0 {
      assert tail == rest && out + [b] == out + bytes;
    } else {
      StoredByteSteps(d1, bs, rest, out + [b], room - 1);
      ReachesTrans(State(d, ToBits(b, 8) + tail, out, room), State(d1, tail, out + [b], room - 1),
                   State(d.(length := d.length - |bytes|), rest, out + bytes, room - |bytes|), 1, |bs|);
    }
  }

  lemma {:induction false} BytesConcat(a: seq<nat>, b: seq<nat>)
    ensures BytesBits(a + b) == BytesBits(a) + BytesBits(b)
    decreases |a|
  {
    hide ToBits;
    if |a| == 0 {
      assert a + b == b;
    } else {
      BytesConcat(a[1..], b);
      assert (a + b)[1..] == a[1..] + b && (a + b)[0] == a[0];
    }
  }

  function Min3(a: nat, b: nat, c: nat): (m: nat)
  {
    if a <= b && a <= c then a else if b <= c then b else c
  }

  // ---- COPY ----

  /** memcpy from the input to the output. */
  method TakeBytes(br: BitReader, out: array<nat>, put: nat, n: nat)
    requires n <= |br.input| && put + n <= out.Length
    modifies br`input, out
    ensures br.input == old(br.input)[n..] && out[..put + n] == old(out[..put]) + old(br.input)[..n]
  {
    ghost var inp := br.input;
    for i := 0 to n
      invariant br.input == inp && out[..put + i] == old(out[..put]) + inp[..i]
    {
      out[put + i] := br.input[i];
    }
    br.input := br.input[n..];
  }

  lemma CopyCore(v: Vars, d: Dec, n: nat)
    requires Core(v, d, []) && d.mode.COPY? && n <= d.length
    ensures v.length == d.length && Core(v.(length := v.length - n), d.(length := d.length - n), [])
    ensures Core(v.(mode := TYPE), d.(mode := TYPE), [])
  {
    hide Act, Accepts;
  }

  lemma CopyEmpty(v: Vars, d: Dec, b: Bits)
    requires Core(v, d, b) && d.mode.COPY?
    ensures b == [] && v.length == d.length
  {
    hide Act, Accepts;
  }

  /** COPY: bytes of a stored block, as many as input and room allow. */
  method CopyMode(br: BitReader, v: Vars, out: array<nat>, put: nat, ghost total: seq<nat>, ghost d: Dec)
    returns (leave: bool, v': Vars, put': nat, ghost d': Dec)
    requires br.Valid() && Core(v, d, br.hold[..br.bits]) && d.mode.COPY? && put <= out.Length
    modifies br, out
    ensures br.Valid() && Core(v', d', br.hold[..br.bits]) && put <= put' <= out.Length
    ensures Moved(State(d, old(br.Unread()), total + old(out[..put]), out.Length - put),
                  State(d', br.Unread(), total + out[..put'], out.Length - put'), leave)
    ensures v' == v.(length := v'.length, mode := v'.mode) && v'.mode in {COPY, TYPE}
  {
    hide Act, Core, Clear, BytesBits, Moved, Reaches;
    ghost var st := State(d, br.Unread(), total + out[..put], out.Length - put);
    CoreParts(v, d, br.hold[..br.bits]);
    CopyEmpty(v, d, br.hold[..br.bits]);
    assert br.Unread() == BytesBits(br.input);
    ModeCopy(d, st.u, st.out, st.room);
    leave, v', put', d' := false, v, put, d;
    if v.length == 0 {
      v', d' := v.(mode := TYPE), d.(mode := TYPE);
      CopyCore(v, d, 0);
      OneStep(d, [], st.u, st.out, st.room, d', []) by { assert [] + st.u == st.u; }
      assert [] + st.u == st.u && st.out + [] == st.out;
      MovedBy(st, State(d', st.u, st.out, st.room), 1);
      return;
    }
    var copy := Min3(v.length, |br.input|, out.Length - put);
    if copy == 0 {
      MovedSelf(st);
      leave := true;
      return;
    }
    put' := CopySomeBytes(br, out, put, copy, total, d);
    v', d' := v.(length := v.length - copy), d.(length := d.length - copy);
    CopyCore(v, d, copy);
    assert br.Unread() == BytesBits(br.input);
    MovedBy(st, State(d', br.Unread(), total + out[..put'], out.Length - put'), copy);
  }

  method CopySomeBytes(br: BitReader, out: array<nat>, put: nat, copy: nat, ghost total: seq<nat>, ghost d: Dec)
    returns (put': nat)
    requires d.mode.COPY? && 1 <= copy <= d.length && copy <= |br.input| && put + copy <= out.Length
    modifies br`input, out
    ensures put' == put + copy
    ensures Reaches(State(d, old(BytesBits(br.input)), total + old(out[..put]), out.Length - put),
                    State(d.(length := d.length - copy), BytesBits(br.input), total + out[..put'], out.Length - put'),
                      copy)
  {
    hide Act, BytesBits, Reaches;
    ghost var inp, o := br.input, total + out[..put];
    BytesSplit(inp, copy);
    StoredByteSteps(d, inp[..copy], BytesBits(inp[copy..]), o, out.Length - put);
    TakeBytes(br, out, put, copy);
    put' := put + copy;
    assert total + out[..put'] == o + inp[..copy];
  }

  lemma BytesSplit(s: seq<nat>, n: nat)
    requires n <= |s|
    ensures BytesBits(s) == BytesBits(s[..n]) + BytesBits(s[n..])
  {
    hide BytesBits;
    assert s == s[..n] + s[n..];
    BytesConcat(s[..n], s[n..]);
  }

  // ---- LIT ----

  lemma LitCore(v: Vars, d: Dec, b: Bits)
    requires Core(v, d, b) && d.mode.LIT?
    ensures v.length == d.length && Core(v.(mode := LEN), d.(mode := LEN, toks := d.toks + [Lit(d.length)]), b)
  {
    hide Act, Accepts;
  }

  /** LIT: one byte. */
  method LitMode(br: BitReader, v: Vars, out: array<nat>, put: nat, ghost total: seq<nat>, ghost d: Dec)
    returns (leave: bool, v': Vars, put': nat, ghost d': Dec)
    requires br.Valid() && Core(v, d, br.hold[..br.bits]) && d.mode.LIT? && put <= out.Length
    modifies out
    ensures Core(v', d', br.hold[..br.bits]) && put <= put' <= out.Length
    ensures Moved(State(d, br.Unread(), total + old(out[..put]), out.Length - put),
                  State(d', br.Unread(), total + out[..put'], out.Length - put'), leave)
    ensures v' == v.(mode := v'.mode) && d'.ll == d.ll && d'.dl == d.dl && v'.mode in {LIT, LEN}
  {
    hide Act, Core, Clear, BytesBits, Moved, Reaches;
    ghost var st := State(d, br.Unread(), total + out[..put], out.Length - put);
    CoreParts(v, d, br.hold[..br.bits]);
    leave, v', put', d' := false, v, put, d;
    if out.Length - put == 0 {
      NoRoom(st);
      MovedSelf(st);
      leave := true;
      return;
    }
    LitCore(v, d, br.hold[..br.bits]);
    ActLitIs(d, st.u, st.out, st.room);
    v', d' := v.(mode := LEN), d.(mode := LEN, toks := d.toks + [Lit(d.length)]);
    assert [] + st.u == st.u;
    OneStep(d, [], st.u, st.out, st.room, d', [v.length]);
    out[put] := v.length;
    put' := put + 1;
    assert total + out[..put'] == st.out + [v.length];
    MovedBy(st, State(d', st.u, total + out[..put'], out.Length - put'), 1);
  }

  lemma NoRoom(st: State)
    requires (st.d.mode.LIT? || st.d.mode.MATCH?) && st.room == 0
    ensures Halted(st)
  {
  }

  // ---- MATCH ----

  lemma MatchCore(v: Vars, d: Dec, b: Bits, n: nat)
    requires Core(v, d, b) && d.mode.MATCH? && n <= d.length
    ensures v.length == d.length >= 1 && v.offset == d.offset && 1 <= d.offset <= 32768
    ensures Core(v.(mode := BAD), d.(mode := BAD), b)
    ensures var m := if d.length == n then LEN else MATCH;
      Core(v.(length := v.length - n, mode := m), d.(length := d.length - n, mode := m), b)
  {
    hide Act, Accepts;
  }

  lemma TooFar(st: State)
    requires st.d.mode.MATCH? && st.room >= 1 && st.d.offset > |st.out|
    ensures Act(st.d, st.u, st.out, st.room) == Go(st.d.(mode := BAD), 0, [])
  {
  }

  /** The bytes of the match that are at hand in one place. */
  method CopySome(v: Vars, out: array<nat>, put: nat, win: Window, addr: nat, ghost total: seq<nat>) returns (n: nat)
    requires put < out.Length && out != win.window && win.Valid(total) && 1 <= v.offset <= WSIZE && v.length >= 1
    requires v.offset <= |total| + put
    modifies out
    ensures 1 <= n <= v.length && put + n <= out.Length
    ensures total + out[..put + n] == CopyMatch(total + old(out[..put]), v.offset, n)
  {
    hide RingHolds, CopyMatch, WindowRun;
    if v.offset > put {
      var back, left := v.offset - put, out.Length - put;
      RingParts(win.window[..], win.wnext, win.whave, total);
      WindowReach(win.whave, total, put, v.offset);
      RunPositive(win.wnext, back);
      n := Min3(WindowRun(win.wnext, back), v.length, left);
      WindowPiece(win, out, put, v.offset, n, false, false, total);
    } else {
      n := OutputPiece(out, put, v.offset, v.length, addr, total);
    }
  }

  lemma RunPositive(wnext: nat, back: nat)
    requires back >= 1
    ensures WindowRun(wnext, back) >= 1
  {
  }

  /** MATCH: bytes of a match, from the window or from the output, as many as are at hand in one piece. */
  method MatchMode(br: BitReader, v: Vars, out: array<nat>, put: nat, win: Window, ghost total: seq<nat>, ghost d: Dec)
    returns (leave: bool, v': Vars, put': nat, ghost d': Dec)
    requires br.Valid() && Core(v, d, br.hold[..br.bits]) && d.mode.MATCH? && put <= out.Length && out != win.window &&
      win.Valid(total)
    modifies out
    ensures Core(v', d', br.hold[..br.bits]) && put <= put' <= out.Length
    ensures Moved(State(d, br.Unread(), total + old(out[..put]), out.Length - put),
                  State(d', br.Unread(), total + out[..put'], out.Length - put'), leave)
    ensures v' == v.(mode := v'.mode, length := v'.length) && d'.ll == d.ll && d'.dl == d.dl &&
      v'.mode in {MATCH, LEN, BAD}
  {
    hide Act, Core, Clear, BytesBits, Moved, Reaches, RingHolds, CopyMatch;
    ghost var st := State(d, br.Unread(), total + out[..put], out.Length - put);
    CoreParts(v, d, br.hold[..br.bits]);
    leave, v', put', d' := false, v, put, d;
    if out.Length - put == 0 {
      NoRoom(st);
      MovedSelf(st);
      leave := true;
      return;
    }
    MatchCore(v, d, br.hold[..br.bits], 0);
    RingParts(win.window[..], win.wnext, win.whave, total);
    if v.offset > put { WindowReach(win.whave, total, put, v.offset); }
    if v.offset > put && v.offset - put > win.whave {
      TooFar(st);
      v', d' := v.(mode := BAD), d.(mode := BAD);
      assert [] + st.u == st.u && st.out + [] == st.out;
      OneStep(d, [], st.u, st.out, st.room, d', []);
      MovedBy(st, State(d', st.u, st.out, st.room), 1);
      return;
    }
    var addr: nat := *;
    var n := CopySome(v, out, put, win, addr, total);
    CopySteps(d, st.u, st.out, st.room, n);
    MatchCore(v, d, br.hold[..br.bits], n);
    put' := put + n;
    v' := v.(length := v.length - n);
    if v'.length == 0 {
      v' := v'.(mode := LEN);
    }
    d' := d.(length := d.length - n, mode := if d.length == n then LEN else MATCH);
    MovedBy(st, State(d', st.u, total + out[..put'], out.Length - put'), n);
  }
}
