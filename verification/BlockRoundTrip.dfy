/** Every block that the encoder sends is decoded to what it stands for. */
module BlockRoundTrip {
  import opened Bits
  import opened Canonical
  import opened TableSpec
  import opened RunLength
  import opened ScanTree
  import opened TreeHeader
  import opened Tokens
  import opened FixedCodes
  import opened DynamicTrees
  import opened FlushBlock
  import opened InflateSpec
  import opened InflateRun
  import opened Decoding

  // ---- block types ----

  /** Between two blocks. */
  ghost predicate BeforeBlock(d: Dec) { WellFormed(d) && d.mode.TYPE? && !d.last }

  function AfterType(d: Dec, ty: nat, last: bool): (d': Dec)
  {
    var e := d.(last := last, toks := []);
    if ty == 0 then e.(mode := STORED)
    else if ty == 1 then e.(mode := LEN, ll := FixedL(), dl := FixedD(32))
    else e.(mode := TABLE)
  }

  lemma TypeFields(ty: nat, last: bool, rest: Bits)
    requires ty <= 2
    ensures (TypeBits(ty, last) + rest)[0] == last && Field(TypeBits(ty, last) + rest, 1, 2) == ty
  {
    var v := 2 * ty + (if last then 1 else 0);
    var b := TypeBits(ty, last);
    assert b == [last] + ToBits(ty, 2) by {
      assert v % 2 == (if last then 1 else 0) && v / 2 == ty;
    }
    hide ToBits, FromBits;
    assert (b + rest)[1..3] == ToBits(ty, 2);
    Pow2Table();
    FromBitsToBits(ty, 2);
  }

  lemma TypeStep(d: Dec, ty: nat, last: bool, rest: Bits, out: seq<nat>, room: nat)
    requires BeforeBlock(d) && ty <= 2
    ensures Reaches(State(d, TypeBits(ty, last) + rest, out, room), State(AfterType(d, ty, last), rest, out, room), 1)
  {
    hide Field, TypeBits, FixedL, FixedD, Reaches;
    TypeFields(ty, last, rest);
    var d' := AfterType(d, ty, last);
    assert Act(d, TypeBits(ty, last) + rest, out, room) ==
      Go(d', 3, []) by { ModeType(d, TypeBits(ty, last) + rest, out, room); }
    OneStep(d, TypeBits(ty, last), rest, out, room, d', []);
    assert out + [] == out;
  }

  lemma ModeType(d: Dec, u: Bits, out: seq<nat>, room: nat)
    requires d.mode.TYPE?
    ensures Act(d, u, out, room) == ActType(d, u)
  {
    hide ActType;
  }

  // ---- fixed blocks ----

  lemma FixedBodySame(toks: seq<Token>)
    requires forall i :: 0 <= i < |toks| ==> ValidToken(toks[i])
    ensures BodyBits(FixedL(), FixedD(30), toks) == BodyBits(FixedL(), FixedD(32), toks)
  {
    hide FixedL, FixedD, CodeBits;
    FixedTokensSame(toks);
  }

  lemma {:induction false} FixedTokensSame(toks: seq<Token>)
    requires forall i :: 0 <= i < |toks| ==> ValidToken(toks[i])
    ensures TokensBits(FixedL(), FixedD(30), toks) == TokensBits(FixedL(), FixedD(32), toks)
  {
    hide FixedL, FixedD, CodeBits;
    if |toks| > 0 {
      FixedTokensSame(toks[1..]);
      SymRange(toks[0]);
      FixedDSame(30, DSym(toks[0]));
    }
  }

  lemma FixedDecodable(toks: seq<Token>)
    requires forall i :: 0 <= i < |toks| ==> ValidToken(toks[i])
    ensures Coded(FixedL(), END_BLOCK) && forall i :: 0 <= i < |toks| ==> Codable(FixedL(), FixedD(32), toks[i])
  {
    hide LSym, DSym;
    forall i | 0 <= i < |toks|
      ensures Codable(FixedL(), FixedD(32), toks[i])
    {
      SymRange(toks[i]);
    }
  }

  lemma AfterTypeWellFormed(d: Dec, ty: nat, last: bool)
    requires BeforeBlock(d) && ty <= 2
    ensures WellFormed(AfterType(d, ty, last))
  {
    hide Accepts, FixedL, FixedD;
    FixedAccepted();
  }

  /** What decoding a block must come to. */
  ghost predicate Decoded(d: Dec, d': Dec, toks: seq<Token>, last: bool)
  {
    WellFormed(d') && d'.mode.TYPE? && d'.last == last && d'.toks == toks
  }

  lemma FixedSteps(d: Dec, toks: seq<Token>, last: bool, rest: Bits, out: seq<nat>, room: nat) returns (d': Dec, k: nat)
    requires BeforeBlock(d) && (forall i :: 0 <= i < |toks| ==> ValidToken(toks[i])) && Within(out, toks)
    requires |Expand(out, toks)| <= |out| + room
    ensures Decoded(d, d', toks, last) && |out| <= |Expand(out, toks)|
    ensures Reaches(State(d, TypeBits(1, last) + CodedBits(Fixed(toks)) + rest, out, room),
                    State(d', rest, Expand(out, toks), |out| + room - |Expand(out, toks)|), k)
  {
    hide TypeBits, BodyBits, FixedL, FixedD, Reaches, Within, Expand, Codable, Accepts;
    FixedBodySame(toks);
    FixedDecodable(toks);
    AfterTypeWellFormed(d, 1, last);
    var body := BodyBits(FixedL(), FixedD(32), toks);
    var d1 := AfterType(d, 1, last);
    TypeStep(d, 1, last, body + rest, out, room);
    var d2, k2 := BodySteps(d1, toks, rest, out, room);
    d', k := d2, 1 + k2;
    assert TypeBits(1, last) + body + rest == TypeBits(1, last) + (body + rest);
    ReachesTrans(State(d, TypeBits(1, last) + (body + rest), out, room), State(d1, body + rest, out, room),
                 State(d2, rest, Expand(out, toks), |out| + room - |Expand(out, toks)|), 1, k2);
    assert [] + toks == toks;
  }

  // ---- dynamic blocks: the lengths of the code length code ----

  lemma TableFields(a: nat, b: nat, c: nat, rest: Bits)
    requires a < 32 && b < 32 && c < 16
    ensures var u := ToBits(a, 5) + ToBits(b, 5) + ToBits(c, 4) + rest;
      Field(u, 0, 5) == a && Field(u, 5, 5) == b && Field(u, 10, 4) == c
  {
    Pow2Table();
    hide ToBits, FromBits, Pow2;
    FromBitsToBits(a, 5);
    FromBitsToBits(b, 5);
    FromBitsToBits(c, 4);
    var u := ToBits(a, 5) + ToBits(b, 5) + ToBits(c, 4) + rest;
    assert u[0..0 + 5] == ToBits(a, 5) && u[5..5 + 5] == ToBits(b, 5) && u[10..10 + 4] == ToBits(c, 4);
  }

  /** The three counts. */
  function Counts3(nlen: nat, ndist: nat, ncode: nat): (b: Bits)
    ensures |b| == 14
  {
    ToBits(if nlen < 257 then 0 else nlen - 257, 5) + ToBits(if ndist < 1 then 0 else ndist - 1, 5) +
    ToBits(if ncode < 4 then 0 else ncode - 4, 4)
  }

  function AfterTable(d: Dec, nlen: nat, ndist: nat, ncode: nat): (d': Dec)
  {
    d.(mode := LENLENS, nlen := nlen, ndist := ndist, ncode := ncode, have := 0, cl := seq(19, i => 0))
  }

  lemma TableStep(d: Dec, nlen: nat, ndist: nat, ncode: nat, rest: Bits, out: seq<nat>, room: nat)
    requires d.mode.TABLE? && 257 <= nlen <= 286 && 1 <= ndist <= 30 && 4 <= ncode <= 19
    ensures Reaches(State(d, Counts3(nlen, ndist, ncode) + rest, out, room),
                    State(AfterTable(d, nlen, ndist, ncode), rest, out, room), 1)
  {
    hide Field, ToBits, Reaches;
    TableFields(nlen - 257, ndist - 1, ncode - 4, rest);
    var p := Counts3(nlen, ndist, ncode);
    ModeTable(d, p + rest, out, room);
    OneStep(d, p, rest, out, room, AfterTable(d, nlen, ndist, ncode), []);
    assert out + [] == out;
  }

  lemma ModeTable(d: Dec, u: Bits, out: seq<nat>, room: nat)
    requires d.mode.TABLE?
    ensures Act(d, u, out, room) == ActTable(d, u)
  {
    hide ActTable;
  }

  /** cl holds the lengths bl for the ranks below r, and 0 for the others. */
  ghost predicate Received(cl: seq<nat>, bl: seq<nat>, r: nat)
  {
    |cl| == 19 && r <= 19 && forall q :: 0 <= q < 19 ==>
      (BL_ORDER[q] < 19 && cl[BL_ORDER[q]] == if q < r then LenOr0(bl, BL_ORDER[q]) else 0)
  }

  lemma ReceivedStep(cl: seq<nat>, bl: seq<nat>, r: nat)
    requires Received(cl, bl, r) && r < 19
    ensures BL_ORDER[r] < 19 && Received(cl[BL_ORDER[r] := LenOr0(bl, BL_ORDER[r])], bl, r + 1)
  {
    hide LenOr0;
    var cl' := cl[BL_ORDER[r] := LenOr0(bl, BL_ORDER[r])];
    forall q | 0 <= q < 19
      ensures cl'[BL_ORDER[q]] == if q < r + 1 then LenOr0(bl, BL_ORDER[q]) else 0
    {
      if BL_ORDER[q] == BL_ORDER[r] { OrderOnce(q, r); }
    }
  }

  lemma ReceivedAll(cl: seq<nat>, bl: seq<nat>, n: nat)
    requires Received(cl, bl, n) && |bl| <= 19 && forall r :: n <= r < 19 ==> LenOr0(bl, BL_ORDER[r]) == 0
    ensures cl == Padded(bl, 19)
  {
    forall s | 0 <= s < 19
      ensures cl[s] == Padded(bl, 19)[s]
    {
      var r := OrderAll(s);
      assert cl[BL_ORDER[r]] == LenOr0(bl, s);
    }
  }

  lemma LenLensStep(d: Dec, v: nat, rest: Bits, out: seq<nat>, room: nat)
    requires d.mode.LENLENS? && d.have < d.ncode <= 19 && |d.cl| == 19 && v < 8
    ensures BL_ORDER[d.have] < 19
    ensures Reaches(State(d, ToBits(v, 3) + rest, out, room),
                    State(d.(cl := d.cl[BL_ORDER[d.have] := v], have := d.have + 1), rest, out, room), 1)
  {
    hide Field, ToBits, Reaches, Low;
    OrderBounds();
    FieldOfValue(v, 3, rest);
    LowFits(v, 3) by { Pow2Table(); }
    var d' := d.(cl := d.cl[BL_ORDER[d.have] := v], have := d.have + 1);
    assert Act(d, ToBits(v, 3) + rest, out, room) ==
      Go(d', 3, []) by { ModeLenLens(d, ToBits(v, 3) + rest, out, room); }
    OneStep(d, ToBits(v, 3), rest, out, room, d', []);
    assert out + [] == out;
  }

  lemma ModeLenLens(d: Dec, u: Bits, out: seq<nat>, room: nat)
    requires d.mode.LENLENS?
    ensures Act(d, u, out, room) == ActLenLens(d, u)
  {
    hide ActLenLens;
  }

  lemma {:induction false} OrderSteps(d: Dec, bl: seq<nat>, rest: Bits, out: seq<nat>, room: nat) returns (cl: seq<nat>)
    requires d.mode.LENLENS? && d.have <= d.ncode <= 19 && Received(d.cl, bl, d.have)
    requires forall s :: 0 <= s < |bl| ==> bl[s] <= 7
    ensures Received(cl, bl, d.ncode)
    ensures Reaches(State(d, OrderBits(bl, d.have, d.ncode) + rest, out, room),
                    State(d.(cl := cl, have := d.ncode), rest, out, room), d.ncode - d.have)
    decreases d.ncode - d.have
  {
    hide Received, ToBits, Reaches, OrderBits, LenOr0;
    if d.have == d.ncode {
      cl := d.cl;
      OrderNone(bl, d.ncode);
      assert [] + rest == rest;
      ReachesSelf(State(d, rest, out, room));
    } else {
      var r, v := d.have, LenOr0(bl, BL_ORDER[d.have]);
      ReceivedSize(d.cl, bl, r);
      ReceivedStep(d.cl, bl, r);
      OrderStep(bl, r, d.ncode);
      ShortLength(bl, BL_ORDER[r]);
      var tail := OrderBits(bl, r + 1, d.ncode) + rest;
      var d1 := d.(cl := d.cl[BL_ORDER[r] := v], have := r + 1);
      LenLensStep(d, v, tail, out, room);
      cl := OrderSteps(d1, bl, rest, out, room);
      assert OrderBits(bl, r, d.ncode) + rest == ToBits(v, 3) + tail;
      ReachesTrans(State(d, ToBits(v, 3) + tail, out, room), State(d1, tail, out, room),
                   State(d.(cl := cl, have := d.ncode), rest, out, room), 1, d.ncode - r - 1);
    }
  }

  lemma ShortLength(bl: seq<nat>, s: nat)
    requires forall s :: 0 <= s < |bl| ==> bl[s] <= 7
    ensures LenOr0(bl, s) < 8
  {
  }

  lemma ReceivedSize(cl: seq<nat>, bl: seq<nat>, r: nat)
    requires Received(cl, bl, r)
    ensures |cl| == 19
  {
  }

  // ---- dynamic blocks: the code lengths ----

  lemma {:induction false} UnrleGrows(syms: seq<ClSym>, acc: seq<nat>, limit: nat)
    requires Unrle(syms, acc, limit).Lens?
    ensures |Unrle(syms, acc, limit).lens| >= |acc| + |syms|
    decreases |syms|
  {
    if |syms| > 0 { UnrleGrows(syms[1..], Apply(syms[0], acc, limit).lens, limit); }
  }

  ghost predicate InRange(syms: seq<ClSym>)
    { forall i :: 0 <= i < |syms| ==> syms[i].extra < Pow2(ExtraBits(syms[i].code)) }

  lemma ClLookup(d: Dec, bl: seq<nat>, sym: ClSym, rest: Bits)
    requires |bl| <= 19 && d.cl == Padded(bl, 19) && Complete(bl) && Coded(bl, sym.code) &&
      sym.extra < Pow2(ExtraBits(sym.code))
    ensures |bl| <= 19
    ensures var u := ClSymBits(bl, sym) + rest;
      Lookup(CODES, d.cl, u) == Sym(sym.code, |CodeBits(bl, sym.code)|) && |u| >= |ClSymBits(bl, sym)| &&
      Field(u, |CodeBits(bl, sym.code)|, ExtraBits(sym.code)) == sym.extra
  {
    hide Complete, Kraft, CodeBits, Lookup, ToBits, Field, FromBits, Pow2;
    var p, q := CodeBits(bl, sym.code), ToBits(sym.extra, ExtraBits(sym.code));
    PaddedComplete(bl, 19);
    CompleteKraft(d.cl);
    PaddedCode(bl, 19, sym.code);
    LookupCode(CODES, d.cl, sym.code, q + rest);
    assert ClSymBits(bl, sym) + rest == p + (q + rest);
    FieldOfConcat(p, q, rest);
    FromBitsToBits(sym.extra, ExtraBits(sym.code));
  }

  lemma CodeLensStep(d: Dec, bl: seq<nat>, sym: ClSym, rest: Bits, out: seq<nat>, room: nat)
    requires d.mode.CODELENS? && |bl| <= 19 && d.cl == Padded(bl, 19) && Complete(bl)
    requires Coded(bl, sym.code) && sym.extra < Pow2(ExtraBits(sym.code))
    requires |d.acc| < d.nlen + d.ndist && Apply(sym, d.acc, d.nlen + d.ndist).Lens?
    ensures Reaches(State(d, ClSymBits(bl, sym) + rest, out, room),
                    State(d.(acc := Apply(sym, d.acc, d.nlen + d.ndist).lens), rest, out, room), 1)
  {
    ClLookup(d, bl, sym, rest);
    hide Complete, CodeBits, Lookup, ToBits, Field, Pow2, Padded, Apply, Reaches, Coded;
    var u := ClSymBits(bl, sym) + rest;
    ModeCodeLens(d, u, out, room);
    var d' := d.(acc := Apply(sym, d.acc, d.nlen + d.ndist).lens);
    assert sym == ClSym(sym.code, sym.extra);
    assert Act(d, u, out, room) == Go(d', |ClSymBits(bl, sym)|, []);
    OneStep(d, ClSymBits(bl, sym), rest, out, room, d', []);
    assert out + [] == out;
  }

  lemma ModeCodeLens(d: Dec, u: Bits, out: seq<nat>, room: nat)
    requires d.mode.CODELENS?
    ensures Act(d, u, out, room) == ActCodeLens(d, u)
  {
    hide ActCodeLens;
  }

  lemma {:induction false} CodeLensSteps(d: Dec, bl: seq<nat>, syms: seq<ClSym>, lens: seq<nat>, rest: Bits,
      out: seq<nat>, room: nat)
    requires d.mode.CODELENS? && |bl| <= 19 && d.cl == Padded(bl, 19) && Complete(bl)
    requires AllCoded(bl, syms) && InRange(syms)
    requires |lens| == d.nlen + d.ndist && Unrle(syms, d.acc, |lens|) == Lens(lens)
    ensures Reaches(State(d, ClBits(bl, syms) + rest, out, room), State(d.(acc := lens), rest, out, room), |syms|)
    decreases |syms|
  {
    hide Complete, ClSymBits, Pow2, Padded, Apply, Reaches;
    if |syms| == 0 {
      assert [] + rest == rest;
      ReachesSelf(State(d, rest, out, room));
    } else {
      var sym, ss := syms[0], syms[1..];
      UnrleGrows(syms, d.acc, |lens|);
      var tail := ClBits(bl, ss) + rest;
      CodeLensStep(d, bl, sym, tail, out, room);
      var d1 := d.(acc := Apply(sym, d.acc, |lens|).lens);
      CodeLensSteps(d1, bl, ss, lens, rest, out, room);
      assert ClBits(bl, syms) + rest == ClSymBits(bl, sym) + tail;
      ReachesTrans(State(d, ClSymBits(bl, sym) + tail, out, room), State(d1, tail, out, room),
                   State(d.(acc := lens), rest, out, room), 1, |ss|);
    }
  }

  lemma EmitInRange(cur: nat, prev: nat, count: nat)
    requires cur < 16 && 0 < count <= MaxCount(cur, prev)
    ensures InRange(Emit(cur, prev, count))
  {
    RepeatFits();
    if count < MinCount(cur, prev) { LiteralsAre(cur, count); }
  }

  lemma {:induction false} RleInRange(lens: seq<nat>, n: nat, prev: nat, count: nat)
    requires n <= |lens| && (forall i :: 0 <= i < |lens| ==> lens[i] < 16)
    requires count > 0 ==> n < |lens| && count < MaxCount(lens[n], prev)
    ensures InRange(RleFrom(lens, n, prev, count))
    decreases |lens| - n
  {
    hide Emit, Pow2;
    if n < |lens| {
      var cur, next := lens[n], NextLen(lens, n + 1);
      if count + 1 < MaxCount(cur, prev) && cur == next {
        RleInRange(lens, n + 1, prev, count + 1);
      } else {
        EmitInRange(cur, prev, count + 1);
        RleInRange(lens, n + 1, cur, 0);
      }
    }
  }

  lemma RangeConcat(bl: seq<nat>, a: seq<ClSym>, b: seq<ClSym>)
    requires InRange(a) && InRange(b) && AllCoded(bl, a) && AllCoded(bl, b)
    ensures InRange(a + b) && AllCoded(bl, a + b)
  {
    hide Pow2;
  }

  // ---- dynamic blocks ----

  lemma LensDone(d: Dec, ll: seq<nat>, dl: seq<nat>, u: Bits, out: seq<nat>, room: nat)
    requires d.mode.CODELENS? && d.acc == ll + dl && d.nlen == |ll| && d.ndist == |dl| && Complete(ll) && Complete(dl)
    requires 257 <= |ll| && Coded(ll, END_BLOCK)
    ensures Reaches(State(d, u, out, room), State(d.(mode := LEN, ll := ll, dl := dl), u, out, room), 1)
  {
    hide Reaches;
    ModeCodeLens(d, u, out, room);
    assert d.acc[..d.nlen] == ll && d.acc[d.nlen..] == dl;
    CompleteAccepted(LENS, ll);
    CompleteAccepted(DISTS, dl);
    hide Accepts, Lookup, Apply, Complete;
    var d' := d.(mode := LEN, ll := ll, dl := dl);
    assert Act(d, u, out, room) == Go(d', 0, []);
    assert [] + u == u && out + [] == out;
    OneStep(d, [], u, out, room, d', []);
  }

  lemma CompleteAccepted(ty: CodeType, lens: seq<nat>)
    requires Complete(lens)
    ensures Accepts(ty, lens)
  {
  }

  lemma OrderDone(d: Dec, bl: seq<nat>, u: Bits, out: seq<nat>, room: nat)
    requires d.mode.LENLENS? && d.have == d.ncode && |bl| <= 19 && d.cl == Padded(bl, 19) && Complete(bl)
    ensures Reaches(State(d, u, out, room), State(d.(mode := CODELENS, acc := []), u, out, room), 1)
  {
    hide Reaches, Padded, Complete;
    PaddedComplete(bl, 19);
    CompleteAccepted(CODES, d.cl);
    hide Accepts;
    ModeLenLens(d, u, out, room);
    var d' := d.(mode := CODELENS, acc := []);
    assert [] + u == u && out + [] == out;
    OneStep(d, [], u, out, room, d', []);
  }

  /** The state after the header of a dynamic block. */
  function AfterHeader(d: Dec, ll: seq<nat>, dl: seq<nat>, bl: seq<nat>, blcodes: nat): (d': Dec)
    requires |bl| <= 19
  {
    d.(mode := LEN, nlen := |ll|, ndist := |dl|, ncode := blcodes, have := blcodes, cl := Padded(bl, 19),
      acc := ll + dl, ll := ll, dl := dl)
  }

  /** The first half of the header: counts, and lengths of the code length code. */
  lemma CountsSteps(d: Dec, ll: seq<nat>, dl: seq<nat>, bl: seq<nat>, blcodes: nat, rest: Bits, out: seq<nat>,
                    room: nat)
    requires d.mode.TABLE? && 257 <= |ll| <= 286 && 1 <= |dl| <= 30 && 4 <= blcodes <= 19 && |bl| <= 19 && Complete(bl)
    requires (forall s :: 0 <= s < |bl| ==> bl[s] <= 7) && forall r :: blcodes <= r < 19 ==>
      LenOr0(bl, BL_ORDER[r]) == 0
    ensures var d' := AfterTable(d, |ll|, |dl|, blcodes).(mode := CODELENS, have := blcodes, cl := Padded(bl, 19),
      acc := []);
      Reaches(State(d, Counts3(|ll|, |dl|, blcodes) + (OrderBits(bl, 0, blcodes) + rest), out, room),
              State(d', rest, out, room), blcodes + 2)
  {
    hide Reaches, Complete, Counts3, OrderBits, Padded, LenOr0;
    var u := OrderBits(bl, 0, blcodes) + rest;
    TableStep(d, |ll|, |dl|, blcodes, u, out, room);
    var d1 := AfterTable(d, |ll|, |dl|, blcodes);
    assert Received(d1.cl, bl, 0) by { OrderBounds(); }
    var cl := OrderSteps(d1, bl, rest, out, room);
    ReceivedAll(cl, bl, blcodes);
    var d2 := d1.(cl := cl, have := blcodes);
    OrderDone(d2, bl, rest, out, room);
    var d3 := d2.(mode := CODELENS, acc := []);
    var st := State(d, Counts3(|ll|, |dl|, blcodes) + u, out, room);
    ReachesTrans(st, State(d1, u, out, room), State(d2, rest, out, room), 1, blcodes);
    ReachesTrans(st, State(d2, rest, out, room), State(d3, rest, out, room), blcodes + 1, 1);
  }

  lemma HeaderSplit(ll: seq<nat>, dl: seq<nat>, bl: seq<nat>, blcodes: nat, rest: Bits)
    requires 257 <= |ll| && 1 <= |dl| && 4 <= blcodes <= 19
    ensures HeaderBits(ll, dl, bl, blcodes) + rest ==
            Counts3(|ll|, |dl|, blcodes) +
            (OrderBits(bl, 0, blcodes) + (ClBits(bl, Rle(ll) + Rle(dl)) + rest))
  {
    hide ToBits, OrderBits, ClBits, RleFrom;
    ClBitsConcat(bl, Rle(ll), Rle(dl));
  }

  lemma HeaderSteps(d: Dec, ll: seq<nat>, dl: seq<nat>, bl: seq<nat>, blcodes: nat, rest: Bits, out: seq<nat>,
                    room: nat)
    returns (k: nat)
    requires d.mode.TABLE? && GoodDynamic(ll, dl, bl, blcodes, [])
    ensures Reaches(State(d, HeaderBits(ll, dl, bl, blcodes) + rest, out, room),
                    State(AfterHeader(d, ll, dl, bl, blcodes), rest, out, room), k)
  {
    hide Reaches, Complete, Counts3, OrderBits, Padded, LenOr0, HeaderBits, ClBits, RleFrom, Unrle, InRange, AllCoded;
    var syms, lens := Rle(ll) + Rle(dl), ll + dl;
    HeaderSplit(ll, dl, bl, blcodes, rest);
    SmallLengths(ll);
    SmallLengths(dl);
    var u := ClBits(bl, syms) + rest;
    CountsSteps(d, ll, dl, bl, blcodes, u, out, room);
    var d1 := AfterTable(d, |ll|, |dl|, blcodes).(mode := CODELENS, have := blcodes, cl := Padded(bl, 19), acc := []);
    RoundTrip(ll, dl);
    RleInRange(ll, 0, GUARD, 0);
    RleInRange(dl, 0, GUARD, 0);
    RangeConcat(bl, Rle(ll), Rle(dl));
    CodeLensSteps(d1, bl, syms, lens, rest, out, room);
    var d2 := d1.(acc := lens);
    LensDone(d2, ll, dl, rest, out, room);
    var d3 := AfterHeader(d, ll, dl, bl, blcodes);
    var st := State(d, HeaderBits(ll, dl, bl, blcodes) + rest, out, room);
    ReachesTrans(st, State(d1, u, out, room), State(d2, rest, out, room), blcodes + 2, |syms|);
    ReachesTrans(st, State(d2, rest, out, room), State(d3, rest, out, room), blcodes + 2 + |syms|, 1);
    k := blcodes + 3 + |syms|;
  }

  lemma SmallLengths(lens: seq<nat>)
    requires Complete(lens)
    ensures forall i :: 0 <= i < |lens| ==> lens[i] < 16
  {
  }

  lemma AfterHeaderInBlock(d: Dec, ll: seq<nat>, dl: seq<nat>, bl: seq<nat>, blcodes: nat, toks: seq<Token>)
    requires WellFormed(d) && GoodDynamic(ll, dl, bl, blcodes, toks)
    ensures InBlock(AfterHeader(d, ll, dl, bl, blcodes))
  {
    hide Complete, Accepts, AllCoded, RleFrom, Coded, Codable;
    CompleteAccepted(LENS, ll);
    CompleteAccepted(DISTS, dl);
  }

  lemma GoodHeader(ll: seq<nat>, dl: seq<nat>, bl: seq<nat>, blcodes: nat, toks: seq<Token>)
    requires GoodDynamic(ll, dl, bl, blcodes, toks)
    ensures GoodDynamic(ll, dl, bl, blcodes, []) && Coded(ll, END_BLOCK) && 257 <= |ll| && 1 <= |dl| &&
      4 <= blcodes <= 19 && |bl| <= 19
    ensures forall i :: 0 <= i < |toks| ==> Codable(ll, dl, toks[i])
  {
    hide Complete, AllCoded, RleFrom, Codable;
  }

  lemma DynamicSteps(d: Dec, ll: seq<nat>, dl: seq<nat>, bl: seq<nat>, blcodes: nat, toks: seq<Token>, last: bool,
                     rest: Bits, out: seq<nat>, room: nat)
    returns (d': Dec, k: nat)
    requires BeforeBlock(d) && GoodDynamic(ll, dl, bl, blcodes, toks) && Within(out, toks) &&
      |Expand(out, toks)| <= |out| + room
    ensures Decoded(d, d', toks, last) && |out| <= |Expand(out, toks)|
    ensures Reaches(State(d, TypeBits(2, last) + CodedBits(Dynamic(ll, dl, bl, blcodes, toks)) + rest, out, room),
                    State(d', rest, Expand(out, toks), |out| + room - |Expand(out, toks)|), k)
  {
    hide TypeBits, BodyBits, HeaderBits, Reaches, Within, Expand, Codable, GoodDynamic, Padded, WellFormed;
    GoodHeader(ll, dl, bl, blcodes, toks);
    AfterTypeWellFormed(d, 2, last);
    var d1 := AfterType(d, 2, last);
    AfterHeaderInBlock(d1, ll, dl, bl, blcodes, toks);
    var head, body := HeaderBits(ll, dl, bl, blcodes), BodyBits(ll, dl, toks);
    assert TypeBits(2, last) + (head + body) + rest == TypeBits(2, last) + (head + (body + rest));
    TypeStep(d, 2, last, head + (body + rest), out, room);
    var k1 := HeaderSteps(d1, ll, dl, bl, blcodes, body + rest, out, room);
    var d2 := AfterHeader(d1, ll, dl, bl, blcodes);
    var d3, k2 := BodySteps(d2, toks, rest, out, room);
    var st := State(d, TypeBits(2, last) + (head + (body + rest)), out, room);
    ReachesTrans(st, State(d1, head + (body + rest), out, room), State(d2, body + rest, out, room), 1, k1);
    ReachesTrans(st, State(d2, body + rest, out, room),
                 State(d3, rest, Expand(out, toks), |out| + room - |Expand(out, toks)|), 1 + k1, k2);
    d', k := d3, 1 + k1 + k2;
    assert [] + toks == toks;
  }

  // ---- stored blocks ----

  predicate AreBytes(s: seq<nat>) { forall i :: 0 <= i < |s| ==> s[i] < 256 }

  lemma ModeStored(d: Dec, u: Bits, out: seq<nat>, room: nat)
    requires d.mode.STORED?
    ensures Act(d, u, out, room) == ActStored(d, u)
  {
    hide ActStored;
  }

  lemma ModeCopy(d: Dec, u: Bits, out: seq<nat>, room: nat)
    requires d.mode.COPY?
    ensures Act(d, u, out, room) == ActCopy(d, u, room)
  {
    hide ActCopy;
  }

  /** The bits up to the byte boundary are skipped. */
  lemma AlignSteps(d: Dec, pad: nat, rest: Bits, out: seq<nat>, room: nat) returns (k: nat)
    requires d.mode.STORED? && pad < 8 && |rest| % 8 == 0
    ensures Reaches(State(d, Zeros(pad) + rest, out, room), State(d, rest, out, room), k)
  {
    hide Reaches, Field;
    assert out + [] == out;
    if pad == 0 {
      k := 0;
      assert Zeros(0) + rest == rest;
      ReachesSelf(State(d, rest, out, room));
    } else {
      k := 1;
      ModeStored(d, Zeros(pad) + rest, out, room);
      OneStep(d, Zeros(pad), rest, out, room, d, []);
    }
  }

  lemma LengthFields(n: nat, rest: Bits)
    requires n <= 65535
    ensures var u := ToBits(n, 16) + ToBits(65535 - n, 16) + rest;
      Field(u, 0, 16) == n && Field(u, 16, 16) == 65535 - n
  {
    Pow2Table();
    hide ToBits, FromBits, Pow2;
    FromBitsToBits(n, 16);
    FromBitsToBits(65535 - n, 16);
    var u := ToBits(n, 16) + ToBits(65535 - n, 16) + rest;
    assert u[0..0 + 16] == ToBits(n, 16) && u[16..16 + 16] == ToBits(65535 - n, 16);
  }

  lemma LengthStep(d: Dec, n: nat, rest: Bits, out: seq<nat>, room: nat)
    requires d.mode.STORED? && n <= 65535 && |rest| % 8 == 0
    ensures Reaches(State(d, ToBits(n, 16) + ToBits(65535 - n, 16) + rest, out, room),
                    State(d.(mode := COPY, length := n), rest, out, room), 1)
  {
    hide Reaches, Field, ToBits;
    LengthFields(n, rest);
    var p := ToBits(n, 16) + ToBits(65535 - n, 16);
    ModeStored(d, p + rest, out, room);
    OneStep(d, p, rest, out, room, d.(mode := COPY, length := n), []);
    assert out + [] == out;
  }

  lemma CopyByte(d: Dec, b: nat, rest: Bits, out: seq<nat>, room: nat)
    requires d.mode.COPY? && d.length > 0 && b < 256 && room >= 1
    ensures Reaches(State(d, ToBits(b, 8) + rest, out, room),
      State(d.(length := d.length - 1), rest, out + [b], room - 1), 1)
  {
    hide Reaches, Field, ToBits, Low;
    FieldOfValue(b, 8, rest);
    LowFits(b, 8) by { Pow2Table(); }
    ModeCopy(d, ToBits(b, 8) + rest, out, room);
    OneStep(d, ToBits(b, 8), rest, out, room, d.(length := d.length - 1), [b]);
  }

  lemma {:induction false} CopyBytes(d: Dec, bytes: seq<nat>, rest: Bits, out: seq<nat>, room: nat)
    requires d.mode.COPY? && d.length == |bytes| <= room && AreBytes(bytes)
    ensures Reaches(State(d, BytesBits(bytes) + rest, out, room),
                    State(d.(mode := TYPE, length := 0), rest, out + bytes, room - |bytes|), |bytes| + 1)
    decreases |bytes|
  {
    hide Reaches, ToBits;
    if |bytes| == 0 {
      ModeCopy(d, rest, out, room);
      assert [] + rest == rest && BytesBits(bytes) + rest == rest && out + [] == out && out + bytes == out;
      OneStep(d, [], rest, out, room, d.(mode := TYPE), []);
    } else {
      var b, bs := bytes[0], bytes[1..];
      var tail := BytesBits(bs) + rest;
      assert BytesBits(bytes) + rest == ToBits(b, 8) + tail && out + [b] + bs == out + bytes;
      CopyByte(d, b, tail, out, room);
      var d1 := d.(length := d.length - 1);
      CopyBytes(d1, bs, rest, out + [b], room - 1);
      ReachesTrans(State(d, ToBits(b, 8) + tail, out, room), State(d1, tail, out + [b], room - 1),
                   State(d.(mode := TYPE, length := 0), rest, out + bytes, room - |bytes|), 1, |bytes|);
    }
  }

  lemma StoredSteps(d: Dec, bytes: seq<nat>, last: bool, pad: nat, rest: Bits, out: seq<nat>, room: nat)
    returns (d': Dec, k: nat)
    requires BeforeBlock(d) && AreBytes(bytes) && |bytes| <= 65535 && |bytes| <= room && pad < 8 && |rest| % 8 == 0
    ensures Decoded(d, d', [], last)
    ensures Reaches(State(d, TypeBits(0, last) + (Zeros(pad) + (ToBits(|bytes|, 16) + ToBits(65535 - |bytes|, 16) +
                                                                (BytesBits(bytes) + rest))), out, room),
                    State(d', rest, out + bytes, room - |bytes|), k)
  {
    hide Reaches, ToBits, TypeBits, BytesBits, AreBytes, Accepts;
    var u := BytesBits(bytes) + rest;
    var v := ToBits(|bytes|, 16) + ToBits(65535 - |bytes|, 16) + u;
    var d1 := AfterType(d, 0, last);
    TypeStep(d, 0, last, Zeros(pad) + v, out, room);
    var k1 := AlignSteps(d1, pad, v, out, room);
    LengthStep(d1, |bytes|, u, out, room);
    var d2 := d1.(mode := COPY, length := |bytes|);
    CopyBytes(d2, bytes, rest, out, room);
    d' := d2.(mode := TYPE, length := 0);
    var st, e := State(d, TypeBits(0, last) + (Zeros(pad) + v), out, room),
      State(d', rest, out + bytes, room - |bytes|);
    ReachesTrans(st, State(d1, Zeros(pad) + v, out, room), State(d1, v, out, room), 1, k1);
    ReachesTrans(st, State(d1, v, out, room), State(d2, u, out, room), 1 + k1, 1);
    ReachesTrans(st, State(d2, u, out, room), e, 2 + k1, |bytes| + 1);
    k := 3 + k1 + |bytes|;
  }

  // ---- any block ----

  /** What a block stands for, after the output out. */
  function Content(out: seq<nat>, b: Block): (r: seq<nat>)
  {
    if b.Stored? then out + b.bytes else Expand(out, b.toks)
  }

  function BlockTokens(b: Block): (t: seq<Token>) { if b.Stored? then [] else b.toks }

  /** A block that the encoder may send when the output so far is out. */
  ghost predicate Sendable(out: seq<nat>, b: Block)
  {
    match b
    case Stored(bytes) => AreBytes(bytes) && |bytes| <= 65535
    case Fixed(toks) => (forall i :: 0 <= i < |toks| ==> ValidToken(toks[i])) && Within(out, toks)
    case Dynamic(ll, dl, bl, blcodes, toks) => GoodDynamic(ll, dl, bl, blcodes, toks) && Within(out, toks)
  }

  /** The bits that a block adds to the output s. */
  function Added(s: Bits, b: Block, last: bool): (r: Bits)
  {
    match b
    case Stored(bytes) =>
      TypeBits(0, last) + (Zeros((8 - (|s| + 3) % 8) % 8) +
        (ToBits(|bytes|, 16) + ToBits(if |bytes| < 65536 then 65535 - |bytes| else 0, 16) + BytesBits(bytes)))
    case Fixed(toks) => TypeBits(1, last) + CodedBits(b)
    case Dynamic(_, _, _, _, toks) => TypeBits(2, last) + CodedBits(b)
  }

  lemma AddedParts(s: Bits, b: Block, last: bool)
    ensures b.Fixed? ==> Added(s, b, last) == TypeBits(1, last) + CodedBits(b)
    ensures b.Dynamic? ==> Added(s, b, last) == TypeBits(2, last) + CodedBits(b)
  {
  }

  lemma AddedIs(s: Bits, b: Block, last: bool)
    ensures WithBlock(s, b, last) == s + Added(s, b, last)
  {
    hide TypeBits, CodedBits, ToBits, BytesBits;
  }

  lemma StoredSize(s: Bits, bytes: seq<nat>, last: bool)
    ensures |WithBlock(s, Stored(bytes), last)| % 8 == 0
  {
    hide TypeBits, ToBits, BytesBits, Align;
    AlignedSize(s + TypeBits(0, last));
    var n := |Align(s + TypeBits(0, last))|;
    assert |WithBlock(s, Stored(bytes), last)| == n + 8 * (4 + |bytes|);
    WholeBytes(n, 4 + |bytes|);
  }

  lemma AlignedSize(s: Bits)
    ensures |Align(s)| % 8 == 0
  {
  }

  lemma WholeBytes(n: nat, k: nat)
    requires n % 8 == 0
    ensures (n + 8 * k) % 8 == 0
  {
  }

  lemma StoredBlockSteps(s: Bits, bytes: seq<nat>, last: bool, d: Dec, rest: Bits, out: seq<nat>, room: nat)
    returns (d': Dec, k: nat)
    requires BeforeBlock(d) && AreBytes(bytes) && |bytes| <= 65535 && |bytes| <= room
    requires (|WithBlock(s, Stored(bytes), last)| + |rest|) % 8 == 0
    ensures Decoded(d, d', [], last)
    ensures Reaches(State(d, Added(s, Stored(bytes), last) + rest, out, room),
      State(d', rest, out + bytes, room - |bytes|), k)
  {
    hide Reaches, TypeBits, ToBits, BytesBits, AreBytes, WithBlock, WellFormed;
    var pad := (8 - (|s| + 3) % 8) % 8;
    StoredSize(s, bytes, last);
    d', k := StoredSteps(d, bytes, last, pad, rest, out, room);
    var n := ToBits(|bytes|, 16) + ToBits(65535 - |bytes|, 16);
    assert TypeBits(0, last) + (Zeros(pad) + (n + BytesBits(bytes))) + rest ==
           TypeBits(0, last) + (Zeros(pad) + (n + (BytesBits(bytes) + rest)));
  }

  /** The block round trip: from the state between two blocks, the bits of the block lead to the state between two
      blocks with exactly the tokens of the block read, its content written, and nothing else consumed. */
  lemma BlockSteps(s: Bits, b: Block, last: bool, d: Dec, rest: Bits, out: seq<nat>, room: nat)
    returns (d': Dec, k: nat)
    requires BeforeBlock(d) && Sendable(out, b) && |Content(out, b)| <= |out| + room
    requires (|WithBlock(s, b, last)| + |rest|) % 8 == 0
    ensures Decoded(d, d', BlockTokens(b), last) && |out| <= |Content(out, b)|
    ensures Reaches(State(d, Added(s, b, last) + rest, out, room),
                    State(d', rest, Content(out, b), |out| + room - |Content(out, b)|), k)
  {
    hide Reaches, TypeBits, CodedBits, ToBits, BytesBits, Expand, Within, GoodDynamic, AreBytes, WithBlock, BeforeBlock,
      Decoded, Added;
    AddedParts(s, b, last);
    match b {
      case Stored(bytes) =>
        d', k := StoredBlockSteps(s, bytes, last, d, rest, out, room);
      case Fixed(toks) =>
        d', k := FixedSteps(d, toks, last, rest, out, room);
      case Dynamic(ll, dl, bl, blcodes, toks) =>
        d', k := DynamicSteps(d, ll, dl, bl, blcodes, toks, last, rest, out, room);
    }
  }

  // ---- a whole stream ----

  /** The stream after the blocks bs, of which the last one is marked. */
  function StreamOf(s: Bits, bs: seq<Block>): (r: Bits)
    decreases |bs|
  {
    if |bs| == 0 then Align(s) else StreamOf(WithBlock(s, bs[0], |bs| == 1), bs[1..])
  }

  function Contents(out: seq<nat>, bs: seq<Block>): (r: seq<nat>)
    decreases |bs|
  {
    if |bs| == 0 then out else Contents(Content(out, bs[0]), bs[1..])
  }

  ghost predicate AllSendable(out: seq<nat>, bs: seq<Block>)
    decreases |bs|
  {
    |bs| == 0 || (Sendable(out, bs[0]) && AllSendable(Content(out, bs[0]), bs[1..]))
  }

  /** The part of the stream behind s. */
  function Remaining(s: Bits, bs: seq<Block>): (r: Bits)
    decreases |bs|
  {
    if |bs| == 0 then Zeros((8 - |s| % 8) % 8)
    else Added(s, bs[0], |bs| == 1) + Remaining(WithBlock(s, bs[0], |bs| == 1), bs[1..])
  }

  lemma {:induction false} StreamSplit(s: Bits, bs: seq<Block>)
    ensures StreamOf(s, bs) == s + Remaining(s, bs) && |StreamOf(s, bs)| % 8 == 0
    decreases |bs|
  {
    hide Added, WithBlock;
    if |bs| > 0 {
      StreamSplit(WithBlock(s, bs[0], |bs| == 1), bs[1..]);
      AddedIs(s, bs[0], |bs| == 1);
    }
  }

  lemma {:induction false} ContentsGrow(out: seq<nat>, bs: seq<Block>)
    requires AllSendable(out, bs)
    ensures |out| <= |Contents(out, bs)|
    decreases |bs|
  {
    if |bs| > 0 {
      ContentGrows(out, bs[0]);
      hide Content, Sendable;
      ContentsGrow(Content(out, bs[0]), bs[1..]);
    }
  }

  lemma ContentGrows(out: seq<nat>, b: Block)
    requires Sendable(out, b)
    ensures |out| <= |Content(out, b)|
  {
    hide Within, Codable, GoodLengths;
    if b.Dynamic? { CodableValid(b.ll, b.dl, b.toks); }
    if !b.Stored? { ExpandLength(out, b.toks); }
  }

  /** After the last block the decoder stops at the byte boundary. */
  lemma LastSteps(d: Dec, s: Bits, rest: Bits, out: seq<nat>, room: nat)
    requires d.mode.TYPE? && d.last && |rest| % 8 == 0
    ensures Reaches(State(d, Zeros((8 - |s| % 8) % 8) + rest, out, room), State(d.(mode := DONE), rest, out, room), 1)
  {
    hide Reaches;
    var z := Zeros((8 - |s| % 8) % 8);
    ModeType(d, z + rest, out, room);
    OneStep(d, z, rest, out, room, d.(mode := DONE), []);
    assert out + [] == out;
  }

  /** The stream round trip: whatever blocks are sent, with the last one marked, the decoder stops in DONE at the end of
      the stream with exactly their content as its output. */
  lemma {:induction false} StreamSteps(s: Bits, bs: seq<Block>, d: Dec, rest: Bits, out: seq<nat>, room: nat)
    returns (d': Dec, k: nat)
    requires WellFormed(d) && d.mode.TYPE? && (d.last <==> |bs| == 0) && AllSendable(out, bs)
    requires |Contents(out, bs)| <= |out| + room && |rest| % 8 == 0
    ensures d'.mode.DONE? && |out| <= |Contents(out, bs)|
    ensures Reaches(State(d, Remaining(s, bs) + rest, out, room),
                    State(d', rest, Contents(out, bs), |out| + room - |Contents(out, bs)|), k)
    decreases |bs|
  {
    hide Reaches, Added, WithBlock, Sendable, Content, WellFormed;
    if |bs| == 0 {
      LastSteps(d, s, rest, out, room);
      d', k := d.(mode := DONE), 1;
    } else {
      var b, last, bs' := bs[0], |bs| == 1, bs[1..];
      var s1, out1 := WithBlock(s, b, last), Content(out, b);
      var tail := Remaining(s1, bs') + rest;
      StreamSplit(s1, bs');
      ContentGrows(out, b);
      ContentsGrow(out1, bs');
      var d1, k1 := BlockSteps(s, b, last, d, tail, out, room);
      var room1 := |out| + room - |out1|;
      var d2, k2 := StreamSteps(s1, bs', d1, rest, out1, room1);
      d', k := d2, k1 + k2;
      assert Remaining(s, bs) + rest == Added(s, b, last) + tail;
      ReachesTrans(State(d, Added(s, b, last) + tail, out, room), State(d1, tail, out1, room1),
                   State(d2, rest, Contents(out1, bs'), |out1| + room1 - |Contents(out1, bs')|), k1, k2);
    }
  }

  /** The decoder before the first block. */
  function Fresh(): (d: Dec)
  {
    Dec(TYPE, false, 0, 0, 0, 0, 0, 0, 0, seq(19, i => 0), [], [], [], [])
  }

  /** Decoding the whole stream in one run, or in any calls (SplitInvariance), gives the content of the blocks. */
  lemma StreamRoundTrip(bs: seq<Block>, rest: Bits, room: nat) returns (d': Dec)
    requires |bs| > 0 && AllSendable([], bs) && |Contents([], bs)| <= room && |rest| % 8 == 0
    ensures WellFormed(Fresh()) && d'.mode.DONE?
    ensures Run(State(Fresh(), StreamOf([], bs) + rest, [], room)) ==
            State(d', rest, Contents([], bs), room - |Contents([], bs)|)
  {
    hide Run, Remaining, StreamOf, Contents, AllSendable, Reaches;
    var d := Fresh();
    StreamSplit([], bs);
    var k;
    d', k := StreamSteps([], bs, d, rest, [], room);
    var st, e := State(d, Remaining([], bs) + rest, [], room),
      State(d', rest, Contents([], bs), room - |Contents([], bs)|);
    ReachesRun(st, e, k);
    RunHalted(e);
    assert [] + Remaining([], bs) == Remaining([], bs);
  }
}
