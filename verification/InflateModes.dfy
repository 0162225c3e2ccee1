/** inflate.c inflate(): the modes that only read bits, from TYPE to DISTEXT. Each does one step of the decoder over
    bits, or finds that the input does not suffice and leaves everything as it was. */
module InflateModes {
  import opened Bits
  import opened TableSpec
  import opened TreeHeader
  import opened FixedCodes
  import opened FlushBlock
  import opened InflateSpec
  import opened InflateRun
  import opened BlockRoundTrip
  import opened TableLookup
  import opened BitWriter
  import opened BitReader

  /** The fields of inflate_state that the modes update. */
  datatype Vars = Vars(mode: Mode, last: bool, length: nat, offset: nat, extra: nat, nlen: nat, ndist: nat, ncode: nat,
                       have: nat, lens: seq<nat>, lencode: array<Entry>, lenbits: nat, distcode: array<Entry>,
                       distbits: nat)

  // ---- the decoder state behind the fields ----

  /** Modes that only read bits. */
  predicate Reads(m: Mode) { m in {TYPE, STORED, TABLE, LENLENS, CODELENS, LEN, LENEXT, DIST, DISTEXT} }

  /** The accumulator holds fewer bits than the mode needs to go on. */
  ghost predicate Starved(d: Dec, b: Bits) { Reads(d.mode) && Act(d, b, [], 0).Stuck? }

  /** Among the bit strings whose length leaves remainder r, the mode goes on with n bits and with no less. */
  ghost predicate NeedsBits(d: Dec, n: nat, r: nat)
  {
    forall u: Bits :: |u| % 8 == r ==> (Act(d, u, [], 0).Stuck? <==> |u| < n)
  }

  /** What the accumulator may hold between two steps: less than a byte, unless the mode cannot go on with it. */
  ghost predicate Lean(d: Dec, b: Bits)
  {
    |b| <= 40 && (d.mode.BAD? || |b| < 8 || Starved(d, b)) && (d.mode.COPY? ==> |b| == 0)
  }

  /** The ranges of a length and a distance in the making. */
  predicate InRanges(d: Dec)
  {
    (d.mode in {LENEXT, DIST, DISTEXT, MATCH} ==> d.length >= 1) && (d.mode in {LENEXT, DISTEXT} ==> d.extra <= 15) &&
    (d.mode.DISTEXT? ==> 1 <= d.offset && d.offset + Pow2(d.extra) <= 32769) &&
      (d.mode.MATCH? ==> 1 <= d.offset <= 32768)
  }

  /** The lengths of the code length code with ranks below have are in their places, the others are zero in cl. */
  ghost predicate Ranked(cl: seq<nat>, have: nat, lens: seq<nat>)
  {
    have <= 19 && |cl| == 19 && |lens| == 320 &&
    forall q :: 0 <= q < 19 ==> BL_ORDER[q] < 19 && cl[BL_ORDER[q]] == if q < have then lens[BL_ORDER[q]] else 0
  }

  /** The fields that a mode uses have the values of d. */
  ghost predicate Tied(v: Vars, d: Dec)
  {
    WellFormed(d) && InRanges(d) && d.mode == v.mode && d.last == v.last && |v.lens| == 320 &&
    (d.mode in {COPY, LENEXT, DIST, DISTEXT, MATCH, LIT} ==> d.length == v.length) &&
    (d.mode in {DISTEXT, MATCH} ==> d.offset == v.offset) && (d.mode in {LENEXT, DISTEXT} ==> d.extra == v.extra) &&
    (d.mode in {LENLENS, CODELENS} ==> d.nlen == v.nlen && d.ndist == v.ndist) &&
    (d.mode.LENLENS? ==> d.ncode == v.ncode <= 19 && d.have == v.have && Ranked(d.cl, v.have, v.lens)) &&
    (d.mode.CODELENS? ==> v.have == |d.acc| <= 320 && v.lens[..v.have] == d.acc)
  }

  ghost predicate Core(v: Vars, d: Dec, b: Bits) { Lean(d, b) && Tied(v, d) }

  /** One step has been done, or nothing because the input does not suffice. */
  ghost predicate Did(leave: bool, v: Vars, d: Dec, u: Bits, v': Vars, d': Dec, u': Bits)
  {
    var o := Act(d, u, [], 0);
    if leave then o.Stuck? && v' == v && d' == d && u' == u
    else o.Go? && o.e == [] && d' == o.d && u' == u[o.n..]
  }

  // ---- common parts ----

  lemma AnyRoom(d: Dec, u: Bits, out: seq<nat>, room: nat)
    requires Reads(d.mode)
    ensures Act(d, u, out, room) == Act(d, u, [], 0)
  {
    hide ActType, ActStored, ActTable, ActLenLens, ActCodeLens, ActLen, ActLenExt, ActDist, ActDistExt;
  }

  lemma CoreParts(v: Vars, d: Dec, b: Bits)
    requires Core(v, d, b)
    ensures d.mode == v.mode && d.last == v.last && WellFormed(d) && |b| <= 40
  {
  }

  lemma FieldShift(u: Bits, a: nat, n: nat)
    requires a + n <= |u|
    ensures Field(u[a..], 0, n) == Field(u, a, n)
  {
    assert u[a..][0..0 + n] == u[a..a + n];
  }

  /** NEEDBITS in a mode that needs n bits: if they are not there, the mode is stuck. */
  method NeedBits(br: BitReader, n: nat, ghost v: Vars, ghost d: Dec) returns (ok: bool)
    requires br.Valid() && n <= 40 && Core(v, d, br.hold[..br.bits]) && NeedsBits(d, n, br.bits % 8) && Reads(d.mode)
    modifies br
    ensures br.Valid() && br.Unread() == old(br.Unread())
    ensures ok <==> n <= |br.Unread()|
    ensures ok ==> n <= br.bits < n + 8
    ensures !ok ==> Core(v, d, br.hold[..br.bits]) && Act(d, br.Unread(), [], 0).Stuck?
  {
    hide Act, Tied, Clear, BytesBits;
    ok := br.NeedBits(n);
    if !ok {
      BytesNone();
      assert br.Unread() == br.hold[..br.bits];
    }
  }

  // ---- TYPE ----

  lemma TypeNeeds(d: Dec)
    requires d.mode.TYPE? && !d.last
    ensures forall r: nat :: NeedsBits(d, 3, r)
  {
    hide FixedL, FixedD, Field;
  }

  lemma OneBit(u: Bits)
    requires |u| >= 1
    ensures Field(u, 0, 1) == if u[0] then 1 else 0
  {
    assert u[0..0 + 1] == [u[0]];
    assert [u[0]][1..] == [];
  }

  /** The type bits, as they are taken one after the other. */
  lemma TypeGo(d: Dec, u: Bits, flag: nat, ty: nat, rest: Bits)
    requires d.mode.TYPE? && !d.last && |u| >= 3
    requires flag == Field(u, 0, 1) && ty == Field(u[1..], 0, 2) && rest == u[1..][2..]
    ensures var o := Act(d, u, [], 0);
      o == ActType(d, u) && o.Go? && o.n == 3 && o.e == [] && rest == u[3..] &&
      o.d.last == (flag == 1) && o.d.mode == (if ty == 0 then STORED else if ty == 1 then LEN
        else if ty == 2 then TABLE else BAD) &&
      (ty == 1 ==> o.d.ll == FixedL() && o.d.dl == FixedD(32))
  {
    hide FixedL, FixedD;
    ModeType(d, u, [], 0);
    FieldShift(u, 1, 2);
    OneBit(u);
    hide Field;
  }

  /** The fields after TYPE. */
  lemma TypeCore(v: Vars, d: Dec, u: Bits, b: Bits)
    requires WellFormed(d) && d.mode.TYPE? && ActType(d, u).Go? && |b| < 8 && |v.lens| == 320
    requires v.mode == ActType(d, u).d.mode && v.last == ActType(d, u).d.last
    ensures Core(v, ActType(d, u).d, b)
  {
    hide Act, FixedL, FixedD, Accepts, Field;
    TypeWellFormed(d, u);
    hide WellFormed;
  }

  lemma TiedLens(v: Vars, d: Dec, b: Bits)
    requires Core(v, d, b)
    ensures |v.lens| == 320
  {
  }

  /** TYPE: the next block, or the end after the last one. */
  method TypeMode(br: BitReader, v: Vars, fixLen: array<Entry>, fixDist: array<Entry>, ghost d: Dec)
    returns (leave: bool, v': Vars, ghost d': Dec)
    requires br.Valid() && Core(v, d, br.hold[..br.bits]) && v.mode.TYPE?
    modifies br
    ensures br.Valid() && Core(v', d', br.hold[..br.bits]) && Did(leave, v, d, old(br.Unread()), v', d', br.Unread())
    ensures v'.mode.LEN? ==> v'.lencode == fixLen && v'.lenbits == 9 && v'.distcode == fixDist && v'.distbits == 5
    ensures v'.mode.LEN? ==> d'.ll == FixedL() && d'.dl == FixedD(32)
    ensures v'.mode in {TYPE, STORED, TABLE, LEN, DONE, BAD}
  {
    hide Act, Core, Clear, BytesBits, Field, FixedL, FixedD, WellFormed, ActType;
    ghost var u := br.Unread();
    CoreParts(v, d, br.hold[..br.bits]);
    TiedLens(v, d, br.hold[..br.bits]);
    v', d' := v, d;
    if v.last {
      ModeType(d, u, [], 0);
      TypeEnd(d, u);
      LastIsLean(v, d, br.hold[..br.bits]);
      br.ByteBits();
      v', d' := v.(mode := DONE), d.(mode := DONE);
      TypeCore(v', d, u, br.hold[..br.bits]);
      return false, v', d';
    }
    TypeNeeds(d);
    var ok := NeedBits(br, 3, v, d);
    if !ok { return true, v, d; }
    var flag := br.TakeBits(1);
    var ty := br.TakeBits(2);
    TypeGo(d, u, flag, ty, br.Unread());
    d' := Act(d, u, [], 0).d;
    v' := v.(last := flag == 1);
    if ty == 0 {
      v' := v'.(mode := STORED);
    } else if ty == 1 {
      v' := v'.(lencode := fixLen, lenbits := 9, distcode := fixDist, distbits := 5, mode := LEN);
    } else if ty == 2 {
      v' := v'.(mode := TABLE);
    } else {
      v' := v'.(mode := BAD);
    }
    TypeCore(v', d, u, br.hold[..br.bits]);
    return false, v', d';
  }

  lemma LastIsLean(v: Vars, d: Dec, b: Bits)
    requires Core(v, d, b) && d.mode.TYPE? && d.last
    ensures |b| < 8
  {
    hide Tied;
  }

  lemma TypeEnd(d: Dec, u: Bits)
    requires d.last
    ensures ActType(d, u) == Go(d.(mode := DONE), |u| % 8, [])
  {
  }

  // ---- STORED ----

  lemma StoredNeeds(d: Dec)
    requires d.mode.STORED?
    ensures NeedsBits(d, 32, 0)
  {
    hide Field;
  }

  lemma StoredAlign(d: Dec, u: Bits)
    requires d.mode.STORED? && |u| % 8 != 0
    ensures Act(d, u, [], 0) == Go(d, |u| % 8, [])
  {
    hide Field;
  }

  /** The length and its complement, read from exactly 32 bits. */
  lemma StoredGo(d: Dec, u: Bits, h: Word, a: nat, b: nat)
    requires d.mode.STORED? && |u| >= 32 && |u| % 8 == 0 && u[..32] == h[..32] && Clear(h, 32)
    requires a == BitsOf(h, 16) && b == BitsAbove(h, 16, 48)
    ensures b < 65536
    ensures Act(d, u, [], 0) == if a != 65535 - b then Go(d.(mode := BAD), 0, [])
      else Go(d.(mode := COPY, length := a), 32, [])
  {
    hide FromBits, Field, BitsOf, BitsAbove;
    StoredFields(u, h);
    ModeStored(d, u, [], 0);
  }

  lemma StoredFields(u: Bits, h: Word)
    requires |u| >= 32 && u[..32] == h[..32] && Clear(h, 32)
    ensures Field(u, 0, 16) == BitsOf(h, 16) && Field(u, 16, 16) == BitsAbove(h, 16, 48) < 65536
  {
    hide FromBits, Pow2;
    assert u[0..0 + 16] == u[..32][0..16] == h[..16] && u[16..16 + 16] == u[..32][16..32] == h[16..32];
    HighZeros(h);
  }

  lemma HighZeros(h: Word)
    requires Clear(h, 32)
    ensures BitsAbove(h, 16, 48) == FromBits(h[16..32]) < 65536
  {
    assert h[16..16 + 48] == h[16..32] + Zeros(32);
    hide FromBits, Pow2;
    FromBitsConcat(h[16..32], Zeros(32));
    FromMsbZeros(32);
    BelowPow2(h[16..32]);
    assert Pow2(16) == 65536 by { Pow2Table(); }
    TimesZero(Pow2(16));
  }

  lemma TimesZero(x: int)
    ensures x * 0 == 0
  {
  }

  lemma StoredCore(v: Vars, d: Dec, b: Bits, d': Dec, v': Vars, b': Bits)
    requires Core(v, d, b) && d.mode.STORED?
    requires (d' == d.(mode := COPY, length := v'.length) && v' == v.(mode := COPY, length := v'.length) && b' == []) ||
             (d' == d.(mode := BAD) && v' == v.(mode := BAD) && |b'| <= 40) || (d' == d && v' == v && |b'| < 8)
    ensures Core(v', d', b')
  {
    hide Act, Accepts;
  }

  lemma StoredLean(v: Vars, d: Dec, b: Bits)
    requires Core(v, d, b) && d.mode.STORED? && |b| % 8 != 0
    ensures |b| < 8
  {
    hide Tied, Field;
  }

  /** STORED: the length of a stored block, from the next byte boundary on. */
  method StoredMode(br: BitReader, v: Vars, ghost d: Dec) returns (leave: bool, v': Vars, ghost d': Dec)
    requires br.Valid() && Core(v, d, br.hold[..br.bits]) && v.mode.STORED?
    modifies br
    ensures br.Valid() && Core(v', d', br.hold[..br.bits]) && Did(leave, v, d, old(br.Unread()), v', d', br.Unread())
    ensures v'.mode in {STORED, COPY, BAD}
  {
    hide Act, Core, Clear, BytesBits, WellFormed, BitsOf, BitsAbove, FromBits, ToBits;
    ghost var u, b0 := br.Unread(), br.hold[..br.bits];
    CoreParts(v, d, b0);
    v', d' := v, d;
    if br.bits % 8 != 0 {
      StoredLean(v, d, b0);
      assert |u| % 8 != 0;
      StoredAlign(d, u);
      br.ByteBits();
      StoredCore(v, d, b0, d', v', br.hold[..br.bits]);
      return false, v', d';
    }
    StoredNeeds(d);
    WholeUnread(br);
    var ok := NeedBits(br, 32, v, d);
    if !ok { return true, v, d; }
    assert br.Unread() == u;
    StoredExact(br);
    assert u[..32] == br.hold[..32];
    var a, b := br.Peek(16), BitsAbove(br.hold, 16, 48);
    StoredGo(d, u, br.hold, a, b);
    d' := Act(d, u, [], 0).d;
    if a != 65535 - b {
      v' := v.(mode := BAD);
      StoredCore(v, d, b0, d', v', br.hold[..br.bits]);
      return false, v', d';
    }
    v' := v.(length := a, mode := COPY);
    br.InitBits();
    StoredCore(v, d, b0, d', v', br.hold[..br.bits]);
    return false, v', d';
  }

  lemma WholeUnread(br: BitReader)
    requires br.Valid() && br.bits % 8 == 0
    ensures |br.Unread()| % 8 == 0
  {
  }

  lemma StoredExact(br: BitReader)
    requires br.Valid() && 32 <= br.bits < 40 && |br.Unread()| % 8 == 0
    ensures br.bits == 32
  {
  }

  // ---- TABLE ----

  lemma TableNeeds(d: Dec)
    requires d.mode.TABLE?
    ensures forall r: nat :: NeedsBits(d, 14, r)
  {
    hide Field;
  }

  lemma TableGo(d: Dec, u: Bits, a: nat, b: nat, c: nat, rest: Bits)
    requires d.mode.TABLE? && |u| >= 14
    requires a == Field(u, 0, 5) && b == Field(u[5..], 0, 5) && c == Field(u[5..][5..], 0, 4) &&
      rest == u[5..][5..][4..]
    ensures Act(d, u, [], 0) == ActTable(d, u) && ActTable(d, u).Go? && ActTable(d, u).n == 14 && ActTable(d, u).e == []
    ensures rest == u[14..] && a == Field(u, 0, 5) && b == Field(u, 5, 5) && c == Field(u, 10, 4)
  {
    ModeTable(d, u, [], 0);
    assert u[5..][5..] == u[10..];
    FieldShift(u, 5, 5);
    FieldShift(u, 10, 4);
    hide Field;
  }

  lemma TableCore(v: Vars, d: Dec, b: Bits, u: Bits, v': Vars, b': Bits)
    requires Core(v, d, b) && d.mode.TABLE? && |u| >= 14 && |b'| < 8
    requires v' == v.(nlen := Field(u, 0, 5) + 257, ndist := Field(u, 5, 5) + 1, ncode := Field(u, 10, 4) + 4,
      have := v'.have, mode := v'.mode)
    requires if v'.nlen > 286 || v'.ndist > 30 then v'.mode.BAD? else v'.mode.LENLENS? && v'.have == 0
    ensures Core(v', ActTable(d, u).d, b')
  {
    hide Act, Accepts, Field;
    TableWellFormed(d, u);
    OrderBounds();
  }

  /** TABLE: the number of codes of each kind. */
  method TableMode(br: BitReader, v: Vars, ghost d: Dec) returns (leave: bool, v': Vars, ghost d': Dec)
    requires br.Valid() && Core(v, d, br.hold[..br.bits]) && v.mode.TABLE?
    modifies br
    ensures br.Valid() && Core(v', d', br.hold[..br.bits]) && Did(leave, v, d, old(br.Unread()), v', d', br.Unread())
    ensures v'.mode in {TABLE, LENLENS, BAD}
  {
    hide Act, Core, Clear, BytesBits, Field, WellFormed, ActTable;
    ghost var u, b0 := br.Unread(), br.hold[..br.bits];
    CoreParts(v, d, b0);
    v', d' := v, d;
    TableNeeds(d);
    var ok := NeedBits(br, 14, v, d);
    if !ok { return true, v, d; }
    var a := br.TakeBits(5);
    var b := br.TakeBits(5);
    var c := br.TakeBits(4);
    TableGo(d, u, a, b, c, br.Unread());
    d' := Act(d, u, [], 0).d;
    v' := v.(nlen := a + 257, ndist := b + 1, ncode := c + 4);
    if v'.nlen > 286 || v'.ndist > 30 {
      v' := v'.(mode := BAD);
    } else {
      v' := v'.(have := 0, mode := LENLENS);
    }
    TableCore(v, d, b0, u, v', br.hold[..br.bits]);
    return false, v', d';
  }

  // ---- extra bits ----

  lemma ExtNeeds(d: Dec)
    requires d.mode.LENEXT? || d.mode.DISTEXT?
    ensures forall r: nat :: NeedsBits(d, d.extra, r)
  {
    hide Act;
    forall u: Bits
      ensures Act(d, u, [], 0).Stuck? <==> |u| < d.extra
    {
      ExtStuck(d, u);
    }
  }

  lemma ExtStuck(d: Dec, u: Bits)
    requires d.mode.LENEXT? || d.mode.DISTEXT?
    ensures Act(d, u, [], 0).Stuck? <==> |u| < d.extra
  {
    hide Field;
  }

  lemma ExtGo(d: Dec, u: Bits)
    requires (d.mode.LENEXT? || d.mode.DISTEXT?) && |u| >= d.extra
    ensures var o, x := Act(d, u, [], 0), Field(u, 0, d.extra);
      o.Go? && o.n == d.extra && o.e == [] &&
      (d.mode.LENEXT? ==> o.d == d.(mode := DIST, length := d.length + x)) &&
      (d.mode.DISTEXT? ==> o.d == d.(mode := MATCH, offset := d.offset + x, toks := o.d.toks))
  {
    hide Field;
  }

  lemma ExtCore(v: Vars, d: Dec, b: Bits, u: Bits, v': Vars, b': Bits)
    requires Core(v, d, b) && (d.mode.LENEXT? || d.mode.DISTEXT?) && |u| >= d.extra && |b'| < 8
    requires if d.mode.LENEXT? then v' == v.(mode := DIST, length := v.length + Field(u, 0, d.extra))
             else v' == v.(mode := MATCH, offset := v.offset + Field(u, 0, d.extra))
    ensures Core(v', Act(d, u, [], 0).d, b')
  {
    hide Accepts, Field, Pow2;
    FieldBound(u, 0, d.extra);
    ExtGo(d, u);
    hide Act;
  }

  lemma ExtRange(v: Vars, d: Dec, b: Bits)
    requires Core(v, d, b) && (d.mode.LENEXT? || d.mode.DISTEXT?)
    ensures d.extra == v.extra <= 15
  {
  }

  /** LENEXT and DISTEXT: the extra bits, if any. */
  method ExtMode(br: BitReader, v: Vars, ghost d: Dec) returns (leave: bool, v': Vars, ghost d': Dec)
    requires br.Valid() && Core(v, d, br.hold[..br.bits]) && (v.mode.LENEXT? || v.mode.DISTEXT?)
    modifies br
    ensures br.Valid() && Core(v', d', br.hold[..br.bits]) && Did(leave, v, d, old(br.Unread()), v', d', br.Unread())
    ensures (v'.lencode, v'.lenbits, v'.distcode, v'.distbits) == (v.lencode, v.lenbits, v.distcode, v.distbits)
    ensures v'.mode in {LENEXT, DISTEXT, DIST, MATCH} && d'.ll == d.ll && d'.dl == d.dl
  {
    hide Act, Core, Clear, BytesBits, Field, WellFormed;
    ghost var u, b0 := br.Unread(), br.hold[..br.bits];
    CoreParts(v, d, b0);
    ExtRange(v, d, b0);
    v', d' := v, d;
    ExtNeeds(d);
    var x := 0;
    if v.extra != 0 {
      var ok := NeedBits(br, v.extra, v, d);
      if !ok { return true, v, d; }
      x := br.TakeBits(v.extra);
    } else {
      NoExtra(v, d, b0);
      NoField(u);
    }
    ExtGo(d, u);
    d' := Act(d, u, [], 0).d;
    if v.mode.LENEXT? {
      v' := v.(length := v.length + x, mode := DIST);
    } else {
      v' := v.(offset := v.offset + x, mode := MATCH);
    }
    ExtCore(v, d, b0, u, v', br.hold[..br.bits]);
    return false, v', d';
  }

  lemma NoExtra(v: Vars, d: Dec, b: Bits)
    requires Core(v, d, b) && (d.mode.LENEXT? || d.mode.DISTEXT?) && d.extra == 0
    ensures |b| < 8
  {
    hide Tied, Field;
  }

  lemma NoField(u: Bits)
    ensures Field(u, 0, 0) == 0 && u[0..] == u
  {
  }
}
