/** inflate.c inflate(): the modes LENLENS and CODELENS, which read the code lengths of a dynamic block and build its
    tables. */
module InflateLens {
  import opened Bits
  import opened Counting
  import opened Canonical
  import opened TableSpec
  import opened RunLength
  import opened TreeHeader
  import opened FlushBlock
  import opened InflateTable
  import opened InflateSpec
  import opened InflateRun
  import opened BlockRoundTrip
  import opened TableLookup
  import opened BitWriter
  import opened BitReader
  import opened InflateModes

  // ---- LENLENS ----

  lemma LenLensNeeds(d: Dec)
    requires d.mode.LENLENS? && d.have < d.ncode <= 19 && |d.cl| == 19
    ensures forall r: nat :: NeedsBits(d, 3, r)
  {
    hide Field;
  }

  lemma LenLensGo(d: Dec, u: Bits)
    requires d.mode.LENLENS? && d.have < d.ncode <= 19 && |d.cl| == 19 && |u| >= 3
    ensures BL_ORDER[d.have] < 19
    ensures Act(d, u, [], 0) == Go(d.(cl := d.cl[BL_ORDER[d.have] := Field(u, 0, 3)], have := d.have + 1), 3, [])
  {
    hide Field;
    ModeLenLens(d, u, [], 0);
    OrderBounds();
  }

  lemma RankedStep(cl: seq<nat>, have: nat, lens: seq<nat>, x: nat)
    requires Ranked(cl, have, lens) && have < 19
    ensures BL_ORDER[have] < 19 && Ranked(cl[BL_ORDER[have] := x], have + 1, lens[BL_ORDER[have] := x])
  {
    var cl', lens' := cl[BL_ORDER[have] := x], lens[BL_ORDER[have] := x];
    forall q | 0 <= q < 19
      ensures cl'[BL_ORDER[q]] == if q < have + 1 then lens'[BL_ORDER[q]] else 0
    {
      if BL_ORDER[q] == BL_ORDER[have] { OrderOnce(q, have); }
    }
  }

  lemma LenLensCore(v: Vars, d: Dec, b: Bits, x: nat, b': Bits)
    requires Core(v, d, b) && d.mode.LENLENS? && d.have < d.ncode <= 19 && |d.cl| == 19 && x < 8 && |b'| < 8
    ensures BL_ORDER[d.have] < 19 && |v.lens| == 320
    ensures Core(v.(lens := v.lens[BL_ORDER[d.have] := x], have := v.have + 1),
                 d.(cl := d.cl[BL_ORDER[d.have] := x], have := d.have + 1), b')
  {
    hide Act, Accepts, Ranked;
    RankedStep(d.cl, v.have, v.lens, x) by { hide Lean, WellFormed; }
  }

  lemma LenLensParts(v: Vars, d: Dec, b: Bits)
    requires Core(v, d, b) && d.mode.LENLENS?
    ensures v.ncode == d.ncode <= 19 && v.have == d.have <= d.ncode && |d.cl| == 19 && |v.lens| == 320 &&
      Ranked(d.cl, v.have, v.lens)
    ensures forall i :: 0 <= i < 19 ==> d.cl[i] < 8
    ensures d.have == d.ncode ==> |b| < 8
  {
    hide Ranked, Accepts;
  }

  /** The lengths that were not sent are zero. */
  method FillZeros(lens: seq<nat>, have0: nat, ghost cl: seq<nat>) returns (r: seq<nat>)
    requires Ranked(cl, have0, lens)
    ensures |r| == 320 && r[..19] == cl
  {
    hide Ranked;
    r := lens;
    var have := have0;
    RankedSize(cl, have, r);
    while have < 19
      invariant have <= 19 && |r| == 320 && Ranked(cl, have, r)
    {
      RankedZero(cl, have, r);
      r := r[BL_ORDER[have] := 0];
      have := have + 1;
    }
    RankedAll(cl, r);
  }

  lemma RankedSize(cl: seq<nat>, have: nat, lens: seq<nat>)
    requires Ranked(cl, have, lens)
    ensures have <= 19 && |lens| == 320
  {
  }

  lemma RankedZero(cl: seq<nat>, have: nat, lens: seq<nat>)
    requires Ranked(cl, have, lens) && have < 19
    ensures BL_ORDER[have] < 19 && |lens| == 320 && Ranked(cl, have + 1, lens[BL_ORDER[have] := 0])
  {
    RankedStep(cl, have, lens, 0);
    assert cl[BL_ORDER[have] := 0] == cl;
  }

  lemma RankedAll(cl: seq<nat>, lens: seq<nat>)
    requires Ranked(cl, 19, lens)
    ensures lens[..19] == cl
  {
    forall s | 0 <= s < 19
      ensures lens[s] == cl[s]
    {
      var r := OrderAll(s);
      assert cl[BL_ORDER[r]] == lens[BL_ORDER[r]];
    }
  }

  lemma LenLensEnd(d: Dec, u: Bits)
    requires d.mode.LENLENS? && d.have == d.ncode
    ensures Act(d, u, [], 0) == Go(if Accepts(CODES, d.cl) then d.(mode := CODELENS, acc := []) else d.(mode := BAD),
      0, [])
  {
    hide Accepts, Field;
    ModeLenLens(d, u, [], 0);
  }

  lemma LenLensEndCore(v: Vars, d: Dec, b: Bits, v': Vars, b': Bits)
    requires Core(v, d, b) && d.mode.LENLENS? && |b'| < 8 && |v'.lens| == 320 && v'.last == v.last
    requires v'.nlen == v.nlen && v'.ndist == v.ndist && (v'.mode.CODELENS? ==> v'.have == 0)
    requires v'.mode == if Accepts(CODES, d.cl) then CODELENS else BAD
    ensures Core(v', if Accepts(CODES, d.cl) then d.(mode := CODELENS, acc := []) else d.(mode := BAD), b')
  {
    hide Act, Accepts, Ranked;
    assert v'.lens[..0] == [];
  }

  /** LENLENS: one length of the code length code, or all of them are there and its table is built. */
  method LenLensMode(br: BitReader, v: Vars, lenTable: array<Entry>, ghost d: Dec)
    returns (leave: bool, v': Vars, ghost d': Dec)
    requires br.Valid() && Core(v, d, br.hold[..br.bits]) && v.mode.LENLENS? && lenTable.Length == ENOUGH_LENS
    modifies br, lenTable
    ensures br.Valid() && Core(v', d', br.hold[..br.bits]) && Did(leave, v, d, old(br.Unread()), v', d', br.Unread())
    ensures v'.mode in {LENLENS, CODELENS, BAD}
    ensures v'.mode.CODELENS? ==> Decodes(v'.lencode[..], v'.lenbits, CODES, d'.cl) && NoLonger(d'.cl, v'.lenbits)
    ensures v'.mode.CODELENS? ==> v'.lencode == lenTable
  {
    hide Act, Core, Clear, BytesBits, Field, WellFormed, Ranked, Decodes, Accepts, Pow2;
    ghost var u, b0 := br.Unread(), br.hold[..br.bits];
    CoreParts(v, d, b0);
    LenLensParts(v, d, b0);
    v', d' := v, d;
    if v.have < v.ncode {
      LenLensNeeds(d);
      var ok := NeedBits(br, 3, v, d);
      if !ok { return true, v, d; }
      var x := br.TakeBits(3);
      FieldBound(u, 0, 3);
      SmallPowers();
      LenLensGo(d, u);
      LenLensCore(v, d, b0, x, br.hold[..br.bits]);
      v' := v.(lens := v.lens[BL_ORDER[v.have] := x], have := v.have + 1);
      d' := d.(cl := d.cl[BL_ORDER[d.have] := x], have := d.have + 1);
      return false, v', d';
    }
    LenLensEnd(d, u);
    leave, v', d' := BuildCodes(br, v, lenTable, d);
    assert u[0..] == u;
  }

  method BuildCodes(br: BitReader, v: Vars, lenTable: array<Entry>, ghost d: Dec)
    returns (leave: bool, v': Vars, ghost d': Dec)
    requires br.Valid() && Core(v, d, br.hold[..br.bits]) && d.mode.LENLENS? && lenTable.Length == ENOUGH_LENS
    requires |d.cl| == 19 && Ranked(d.cl, v.have, v.lens) && (forall i :: 0 <= i < 19 ==> d.cl[i] < 8) && br.bits < 8
    modifies lenTable
    ensures !leave && Core(v', d', br.hold[..br.bits])
    ensures d' == if Accepts(CODES, d.cl) then d.(mode := CODELENS, acc := []) else d.(mode := BAD)
    ensures v'.mode in {CODELENS, BAD}
    ensures v'.mode.CODELENS? ==> Decodes(v'.lencode[..], v'.lenbits, CODES, d'.cl) && NoLonger(d'.cl, v'.lenbits)
    ensures v'.mode.CODELENS? ==> v'.lencode == lenTable
  {
    hide Core, Ranked, Decodes, Accepts, Pow2;
    leave := false;
    ghost var b := br.hold[..br.bits];
    var lens := FillZeros(v.lens, v.have, d.cl);
    v' := v.(lens := lens, lencode := lenTable, distcode := lenTable, lenbits := 7);
    CodesRoom();
    var ret, used, root := InflateTable.InflateTable(CODES, lens[..19], lenTable, 7);
    d' := if Accepts(CODES, d.cl) then d.(mode := CODELENS, acc := []) else d.(mode := BAD);
    if ret != 0 {
      v' := v'.(mode := BAD);
    } else {
      v' := v'.(lenbits := root, have := 0, mode := CODELENS);
    }
    LenLensEndCore(v, d, b, v', b);
  }

  lemma CodesRoom()
    ensures Capacity(CODES, 7) <= ENOUGH_LENS
  {
    Pow2Table();
  }

  // ---- CODELENS ----

  /** What an entry of the code length table says. */
  lemma ClEntry(cl: seq<nat>, u: Bits, e: Entry)
    requires |cl| <= 19 && Recognized(CODES, cl, u, e, 0)
    ensures CodeBitsOf(e) == e.bits && 1 <= e.bits <= 15 && e.val < 19 && e.bits <= |u|
    ensures Lookup(CODES, cl, u) == (if e == INVALID then Lookup(CODES, cl, u) else Sym(e.val, e.bits))
    ensures Lookup(CODES, cl, u).Invalid? <==> e == INVALID
    ensures e == INVALID ==> e.val == 0 && e.bits == 1
  {
    hide Lookup;
  }

  /** The outcome of CODELENS for symbol val in n bits, in terms of the values that are read. */
  lemma CodeLensGo(d: Dec, u: Bits, e: Entry)
    requires d.mode.CODELENS? && |d.cl| <= 19 && |d.acc| < d.nlen + d.ndist && Recognized(CODES, d.cl, u, e, 0)
    ensures e.bits <= |u| && e.val < 19
    ensures var o, x := Act(d, u, [], 0), ExtraBits(e.val);
      if e.val < 16 then o == Go(d.(acc := d.acc + [e.val]), e.bits, [])
      else if |u| < e.bits + x then o.Stuck?
      else o == match Apply(ClSym(e.val, Field(u, e.bits, x)), d.acc, d.nlen + d.ndist)
        case BadRepeat => Go(d.(mode := BAD), if e.val == 16 && |d.acc| == 0 then e.bits else e.bits + x, [])
        case Lens(acc) => Go(d.(acc := acc), e.bits + x, [])
  {
    ClEntry(d.cl, u, e);
    ModeCodeLens(d, u, [], 0);
    hide Lookup, Recognized, Field, CodeBitsOf;
    if e.val < 16 && e != INVALID { PlainApply(e.val, d.acc, d.nlen + d.ndist); }
  }

  lemma PlainApply(s: nat, acc: seq<nat>, limit: nat)
    requires s < 16
    ensures ExtraBits(s) == 0 && forall x: nat :: Apply(ClSym(s, x), acc, limit) == Lens(acc + [s])
  {
  }

  lemma CodeLensParts(v: Vars, d: Dec, b: Bits)
    requires Core(v, d, b) && d.mode.CODELENS?
    ensures |d.cl| == 19 && Accepts(CODES, d.cl) && v.nlen == d.nlen && v.ndist == d.ndist && 257 <= d.nlen <= 286 &&
      1 <= d.ndist <= 30
    ensures v.have == |d.acc| <= d.nlen + d.ndist && |v.lens| == 320 && v.lens[..v.have] == d.acc
    ensures forall i :: 0 <= i < |d.acc| ==> d.acc[i] < 16
  {
    hide Accepts;
  }

  /** A new list of lengths, or a bad one. */
  lemma CodeLensCore(v: Vars, d: Dec, b: Bits, v': Vars, d': Dec, b': Bits)
    requires Core(v, d, b) && d.mode.CODELENS? && WellFormed(d') && |b'| <= 40 && |v'.lens| == 320
    requires (d' == d.(acc := d'.acc) && v' == v.(lens := v'.lens, have := v'.have) && v'.have == |d'.acc| <= 320 &&
              v'.lens[..v'.have] == d'.acc && |b'| < 8) || (d' == d.(mode := BAD) && v' == v.(mode := BAD))
    ensures Core(v', d', b')
  {
    hide Act, Accepts;
  }

  lemma CodeLensLean(v: Vars, d: Dec, b: Bits)
    requires Core(v, d, b) && d.mode.CODELENS? && Act(d, b, [], 0).Go?
    ensures |b| < 8
  {
    hide Act, Tied;
  }

  lemma WaitLens(v: Vars, d: Dec, b: Bits, u: Bits)
    requires Core(v, d, b) && d.mode.CODELENS? && |u| <= 40 && Act(d, u, [], 0).Stuck?
    ensures Core(v, d, u)
  {
    hide Act, Tied;
  }

  lemma MoreStuck(d: Dec, u: Bits)
    requires d.mode.CODELENS? && |d.cl| <= 19 && |d.acc| < d.nlen + d.ndist && Lookup(CODES, d.cl, u) == More
    ensures Act(d, u, [], 0).Stuck?
  {
    hide Lookup;
    ModeCodeLens(d, u, [], 0);
  }

  /** Append copy times len. */
  method Repeated(lens: seq<nat>, have0: nat, len: nat, copy0: nat) returns (r: seq<nat>, have: nat)
    requires |lens| == 320 && have0 + copy0 <= 320
    ensures |r| == 320 && have == have0 + copy0 && r[..have] == lens[..have0] + Repeat(len, copy0)
  {
    r, have := lens, have0;
    var copy: nat := copy0;
    while copy != 0
      invariant copy <= copy0 && |r| == 320 && have == have0 + copy0 - copy &&
        r[..have] == lens[..have0] + Repeat(len, copy0 - copy)
    {
      copy := copy - 1;
      ghost var r0 := r;
      r := r[have := len];
      have := have + 1;
      assert r[..have] == r0[..have - 1] + [len];
    }
  }

  /** The repeat codes: the length to repeat and how often. */
  lemma RepeatApply(val: nat, x: nat, acc: seq<nat>, limit: nat)
    requires 16 <= val < 19
    ensures var len := if val == 16 && |acc| > 0 then acc[|acc| - 1] else 0;
      var copy := x + (if val == 18 then 11 else 3);
      Apply(ClSym(val, x), acc, limit) ==
      if (val == 16 && |acc| == 0) || |acc| + copy > limit then BadRepeat else Lens(acc + Repeat(len, copy))
  {
  }

  /** One plain length. */
  method PlainLength(br: BitReader, v: Vars, here: Entry, ghost d: Dec, ghost b0: Bits)
    returns (v': Vars, ghost d': Dec)
    requires br.Valid() && Core(v, d, b0) && d.mode.CODELENS? && |d.acc| < d.nlen + d.ndist && |d.cl| <= 19
    requires here.val < 16 && Recognized(CODES, d.cl, br.Unread(), here, 0) && here.bits <= br.bits <= 40 &&
      br.bits < here.bits + 8
    modifies br
    ensures br.Valid() && Core(v', d', br.hold[..br.bits]) && Did(false, v, d, old(br.Unread()), v', d', br.Unread())
    ensures v' == v.(lens := v'.lens, have := v'.have) && d'.cl == d.cl && d'.mode.CODELENS?
  {
    hide Act, Core, Clear, BytesBits, WellFormed, Recognized, Repeat, Apply;
    ghost var u := br.Unread();
    CodeLensParts(v, d, b0);
    CoreParts(v, d, b0);
    CodeLensGo(d, u, here);
    StaysWellFormed(d, u, [], 0);
    br.DropBits(here.bits);
    v' := v.(lens := v.lens[v.have := here.val], have := v.have + 1);
    d' := d.(acc := d.acc + [here.val]);
    assert v'.lens[..v'.have] == v.lens[..v.have] + [here.val];
    CodeLensCore(v, d, b0, v', d', br.hold[..br.bits]);
  }

  function RepeatBits(val: nat): (n: nat) { if val == 16 then 2 else if val == 17 then 3 else 7 }

  lemma FieldAfter(u: Bits, a: nat, n: nat)
    requires a + n <= |u|
    ensures Field(u[a..], 0, n) == Field(u, a, n) && u[a..][n..] == u[a + n..]
  {
    FieldShift(u, a, n);
  }

  /** A repeat code and its extra bits, once they are all there. */
  method RepeatLength(br: BitReader, v: Vars, here: Entry, ghost d: Dec, ghost b0: Bits)
    returns (v': Vars, ghost d': Dec)
    requires br.Valid() && Core(v, d, b0) && d.mode.CODELENS? && |d.acc| < d.nlen + d.ndist && |d.cl| <= 19
    requires 16 <= here.val < 19 && Recognized(CODES, d.cl, br.Unread(), here, 0)
    requires here.bits + RepeatBits(here.val) <= br.bits <= 40 && br.bits < here.bits + RepeatBits(here.val) + 8
    modifies br
    ensures br.Valid() && Core(v', d', br.hold[..br.bits]) && Did(false, v, d, old(br.Unread()), v', d', br.Unread())
    ensures v' == v.(lens := v'.lens, have := v'.have, mode := v'.mode) && d'.cl == d.cl && v'.mode in {CODELENS, BAD}
  {
    hide Act, Core, Clear, BytesBits, WellFormed, Recognized, Repeat, Apply, Field;
    ghost var u := br.Unread();
    var n := RepeatBits(here.val);
    CodeLensParts(v, d, b0);
    CoreParts(v, d, b0);
    CodeLensGo(d, u, here);
    StaysWellFormed(d, u, [], 0);
    FieldAfter(u, here.bits, n);
    RepeatApply(here.val, Field(u, here.bits, n), d.acc, d.nlen + d.ndist);
    d' := Act(d, u, [], 0).d;
    br.DropBits(here.bits);
    if here.val == 16 && v.have == 0 {
      v' := v.(mode := BAD);
      CodeLensCore(v, d, b0, v', d', br.hold[..br.bits]);
      return;
    }
    var len := if here.val == 16 then v.lens[v.have - 1] else 0;
    assert here.val == 16 ==> len == v.lens[..v.have][v.have - 1];
    var x := br.TakeBits(n);
    var copy := x + (if here.val == 18 then 11 else 3);
    if v.have + copy > v.nlen + v.ndist {
      v' := v.(mode := BAD);
    } else {
      var lens, have := Repeated(v.lens, v.have, len, copy);
      v' := v.(lens := lens, have := have);
    }
    CodeLensCore(v, d, b0, v', d', br.hold[..br.bits]);
  }

  /** If the accumulator alone decided the whole symbol, it held less than a byte. */
  lemma DecidedAlone(v: Vars, d: Dec, b: Bits, e: Entry)
    requires Core(v, d, b) && d.mode.CODELENS? && |d.acc| < d.nlen + d.ndist && |d.cl| <= 19 &&
      Recognized(CODES, d.cl, b, e, 0)
    requires e.val >= 16 ==> e.bits + RepeatBits(e.val) <= |b|
    ensures |b| < 8
  {
    hide Act, Core, Recognized, Apply, Field;
    CodeLensGo(d, b, e);
    CodeLensLean(v, d, b);
  }

  /** One symbol of the code length code. */
  method ReadLength(br: BitReader, v: Vars, ghost d: Dec) returns (leave: bool, v': Vars, ghost d': Dec)
    requires br.Valid() && Core(v, d, br.hold[..br.bits]) && d.mode.CODELENS? && v.have < v.nlen + v.ndist
    requires Decodes(v.lencode[..], v.lenbits, CODES, d.cl) && NoLonger(d.cl, v.lenbits)
    modifies br
    ensures br.Valid() && Core(v', d', br.hold[..br.bits]) && Did(leave, v, d, old(br.Unread()), v', d', br.Unread())
    ensures v' == v.(lens := v'.lens, have := v'.have, mode := v'.mode) && d'.cl == d.cl && v'.mode in {CODELENS, BAD}
  {
    hide Act, Core, Clear, BytesBits, WellFormed, Recognized, Decodes, Accepts, Lookup, NoLonger, CodeBitsOf, Apply,
      Field;
    ghost var u, b0 := br.Unread(), br.hold[..br.bits];
    CodeLensParts(v, d, b0);
    CoreParts(v, d, b0);
    v', d' := v, d;
    var ok, here := br.FindShort(v.lencode, v.lenbits, CODES, d.cl);
    if !ok {
      BytesNone();
      assert br.Unread() == br.hold[..br.bits];
      MoreStuck(d, u);
      WaitLens(v, d, b0, br.hold[..br.bits]);
      return true, v, d;
    }
    ClEntry(d.cl, u, here);
    leave := false;
    if here.val < 16 {
      if br.bits >= here.bits + 8 { DecidedAlone(v, d, b0, here); }
      v', d' := PlainLength(br, v, here, d, b0);
    } else {
      ghost var b1 := br.bits;
      ok := br.NeedBits(here.bits + RepeatBits(here.val));
      if !ok {
        BytesNone();
        assert br.Unread() == br.hold[..br.bits];
        CodeLensGo(d, u, here);
        WaitLens(v, d, b0, br.hold[..br.bits]);
        return true, v, d;
      }
      if br.bits >= here.bits + RepeatBits(here.val) + 8 { DecidedAlone(v, d, b0, here); }
      v', d' := RepeatLength(br, v, here, d, b0);
    }
  }

  lemma TablesGo(d: Dec, u: Bits)
    requires d.mode.CODELENS? && |d.acc| == d.nlen + d.ndist && 257 <= d.nlen
    ensures var ll, dl := d.acc[..d.nlen], d.acc[d.nlen..];
      Act(d, u, [], 0) ==
      if d.acc[256] == 0 || !Accepts(LENS, ll) || !Accepts(DISTS, dl) then Go(d.(mode := BAD), 0, [])
      else Go(d.(mode := LEN, ll := ll, dl := dl), 0, [])
  {
    hide Accepts, Lookup;
    ModeCodeLens(d, u, [], 0);
  }

  lemma TablesCore(v: Vars, d: Dec, b: Bits, v': Vars, d': Dec)
    requires Core(v, d, b) && d.mode.CODELENS? && |b| < 8 && WellFormed(d') && v'.lens == v.lens && v'.last == v.last
    requires v'.mode == d'.mode && (d'.mode.BAD? || d'.mode.LEN?) && d'.last == d.last
    ensures Core(v', d', b)
  {
    hide Act, Accepts;
  }

  lemma SmallAccepted(lens: seq<nat>)
    requires forall i :: 0 <= i < |lens| ==> lens[i] < 16
    ensures Bounded(lens)
  {
  }

  /** All lengths are there: build the tables of the block. */
  method BuildBlock(br: BitReader, v: Vars, lenTable: array<Entry>, distTable: array<Entry>, ghost d: Dec)
    returns (v': Vars, ghost d': Dec)
    requires br.Valid() && Core(v, d, br.hold[..br.bits]) && d.mode.CODELENS? && v.have == v.nlen + v.ndist
    requires lenTable.Length == ENOUGH_LENS && distTable.Length == ENOUGH_DISTS && lenTable != distTable
    modifies lenTable, distTable
    ensures Core(v', d', br.hold[..br.bits]) && Did(false, v, d, br.Unread(), v', d', br.Unread())
    ensures v'.mode in {LEN, BAD}
    ensures v'.mode.LEN? ==> v'.lencode == lenTable && v'.distcode == distTable
    ensures v'.mode.LEN? ==>
      Decodes(lenTable[..], v'.lenbits, LENS, d'.ll) && Decodes(distTable[..], v'.distbits, DISTS, d'.dl)
    ensures v'.mode.LEN? ==> v'.lenbits <= 10 && v'.distbits <= 9
  {
    hide Act, Core, WellFormed, Decodes, Accepts, Bounded;
    ghost var u, b := br.Unread(), br.hold[..br.bits];
    CodeLensParts(v, d, b);
    CoreParts(v, d, b);
    TablesGo(d, u);
    CodeLensLean(v, d, b) by { BuildsAlone(d, b); }
    StaysWellFormed(d, u, [], 0);
    assert u[0..] == u;
    d' := Act(d, u, [], 0).d;
    assert v.lens[256] == d.acc[256];
    if v.lens[256] == 0 {
      v' := v.(mode := BAD);
      TablesCore(v, d, b, v', d');
      return;
    }
    ghost var ll, dl := d.acc[..d.nlen], d.acc[d.nlen..];
    SmallAccepted(ll);
    SmallAccepted(dl);
    assert v.lens[..v.nlen] == ll && v.lens[v.nlen..v.nlen + v.ndist] == dl;
    var ret, used, root := InflateTable.InflateTable(LENS, v.lens[..v.nlen], lenTable, 10);
    v' := v.(lencode := lenTable, lenbits := root);
    if ret != 0 {
      v' := v'.(mode := BAD);
      TablesCore(v, d, b, v', d');
      return;
    }
    ret, used, root := InflateTable.InflateTable(DISTS, v.lens[v.nlen..v.nlen + v.ndist], distTable, 9);
    v' := v'.(distcode := distTable, distbits := root);
    if ret != 0 {
      v' := v'.(mode := BAD);
    } else {
      v' := v'.(mode := LEN);
    }
    TablesCore(v, d, b, v', d');
  }

  lemma BuildsAlone(d: Dec, b: Bits)
    requires d.mode.CODELENS? && |d.acc| == d.nlen + d.ndist && 257 <= d.nlen
    ensures Act(d, b, [], 0).Go?
  {
    hide Act;
    TablesGo(d, b);
  }

  /** CODELENS: one symbol, or the tables of the block. */
  method CodeLensMode(br: BitReader, v: Vars, lenTable: array<Entry>, distTable: array<Entry>, ghost d: Dec)
    returns (leave: bool, v': Vars, ghost d': Dec)
    requires br.Valid() && Core(v, d, br.hold[..br.bits]) && v.mode.CODELENS?
    requires lenTable.Length == ENOUGH_LENS && distTable.Length == ENOUGH_DISTS && lenTable != distTable
    requires v.lencode == lenTable && Decodes(lenTable[..], v.lenbits, CODES, d.cl) && NoLonger(d.cl, v.lenbits)
    modifies br, lenTable, distTable
    ensures br.Valid() && Core(v', d', br.hold[..br.bits]) && Did(leave, v, d, old(br.Unread()), v', d', br.Unread())
    ensures v'.mode in {CODELENS, LEN, BAD}
    ensures v'.mode.CODELENS? ==>
      v'.lencode == lenTable && Decodes(lenTable[..], v'.lenbits, CODES, d'.cl) && NoLonger(d'.cl, v'.lenbits)
    ensures v'.mode.LEN? ==> v'.lencode == lenTable && v'.distcode == distTable
    ensures v'.mode.LEN? ==>
      Decodes(lenTable[..], v'.lenbits, LENS, d'.ll) && Decodes(distTable[..], v'.distbits, DISTS, d'.dl)
    ensures v'.mode.LEN? ==> v'.lenbits <= 10 && v'.distbits <= 9
  {
    hide Act, Core, Clear, BytesBits, WellFormed, Decodes, Accepts, NoLonger, Did;
    CoreParts(v, d, br.hold[..br.bits]);
    CodeLensParts(v, d, br.hold[..br.bits]);
    leave := false;
    if v.have < v.nlen + v.ndist {
      leave, v', d' := ReadLength(br, v, d);
    } else {
      v', d' := BuildBlock(br, v, lenTable, distTable, d);
    }
  }
}
