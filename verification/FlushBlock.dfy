/** trees.c zng_tr_flush_block, zng_tr_stored_block and init_block, and deflate_p.h zng_tr_tally_lit and
    zng_tr_tally_dist: collecting the symbols of a block and writing it in the cheapest form. */
module FlushBlock {
  import opened Bits
  import opened Counting
  import opened Canonical
  import opened GenCodes
  import opened BitWriter
  import opened EmitCode
  import opened RunLength
  import opened ScanTree
  import opened TreeHeader
  import opened MatchCodes
  import opened Tokens
  import opened CompressBlock
  import opened BlockCost
  import opened FixedCodes
  import opened DynamicTrees

  datatype Option<T> = None | Some(value: T)

  // ---- what a block is sent as ----

  datatype Block =
    | Stored(bytes: seq<nat>)
    | Fixed(toks: seq<Token>)
    | Dynamic(ll: seq<nat>, dl: seq<nat>, bl: seq<nat>, blcodes: nat, toks: seq<Token>)

  /** Zero bits up to the next byte boundary. */
  function Align(s: Bits): (r: Bits)
    ensures |r| % 8 == 0 && |s| <= |r| < |s| + 8
  {
    s + Zeros((8 - |s| % 8) % 8)
  }

  /** The block header: the last-block flag and two bits of type. */
  function TypeBits(ty: nat, last: bool): (b: Bits)
    ensures |b| == 3
  {
    ToBits(2 * ty + (if last then 1 else 0), 3)
  }

  /** The data of a coded block after its three header bits. */
  function CodedBits(b: Block): (r: Bits)
  {
    match b
    case Stored(bytes) => []
    case Fixed(toks) => BodyBits(FixedL(), FixedD(30), toks)
    case Dynamic(ll, dl, bl, blcodes, toks) =>
      (if 257 <= |ll| && 1 <= |dl| && 4 <= blcodes <= 19 then HeaderBits(ll, dl, bl, blcodes) else []) +
        BodyBits(ll, dl, toks)
  }

  /** The output after block b has been appended to s. */
  function WithBlock(s: Bits, b: Block, last: bool): (r: Bits)
  {
    match b
    case Stored(bytes) =>
      Align(s + TypeBits(0, last)) + ToBits(|bytes|, 16) + ToBits(if |bytes| < 65536 then 65535 - |bytes| else 0, 16) +
        BytesBits(bytes)
    case Fixed(toks) => s + TypeBits(1, last) + CodedBits(b)
    case Dynamic(_, _, _, _, toks) => s + TypeBits(2, last) + CodedBits(b)
  }

  /** A block that stands for the tokens toks or for the bytes in buf. */
  ghost predicate GoodBlock(b: Block, toks: seq<Token>, buf: Option<seq<nat>>)
  {
    match b
    case Stored(bytes) => buf == Some(bytes)
    case Fixed(t) => t == toks && forall i :: 0 <= i < |toks| ==> ValidToken(toks[i])
    case Dynamic(ll, dl, bl, blcodes, t) => t == toks && GoodDynamic(ll, dl, bl, blcodes, toks)
  }

  ghost predicate GoodDynamic(ll: seq<nat>, dl: seq<nat>, bl: seq<nat>, blcodes: nat, toks: seq<Token>)
  {
    GoodLengths(ll, dl, bl) && 4 <= blcodes <= 19 && (forall i :: 0 <= i < |toks| ==> Codable(ll, dl, toks[i])) &&
    forall r :: blcodes <= r < 19 ==> LenOr0(bl, BL_ORDER[r]) == 0
  }

  /** The size in bytes that the choice of the encoding compares. */
  function Bytes(b: Block): (n: nat)
  {
    if b.Stored? then |b.bytes| + 4 else (3 + |CodedBits(b)| + 7) / 8
  }

  /** The form that is sent: the fixed one unless the dynamic one is smaller, but the stored one if it is no larger. */
  function Smallest(dynamic: Block, fixed: Block, buf: Option<seq<nat>>, onlyFixed: bool): (b: Block)
  {
    var coded := if Bytes(fixed) <= Bytes(dynamic) || onlyFixed then fixed else dynamic;
    if buf.Some? && Bytes(Stored(buf.value)) <= Bytes(coded) then Stored(buf.value) else coded
  }

  /** The comparisons of zng_tr_flush_block pick that form, and none is smaller. */
  lemma Picks(dynamic: Block, fixed: Block, buf: Option<seq<nat>>, onlyFixed: bool, s: nat, o: nat)
    requires s == Bytes(fixed) && o == if s <= Bytes(dynamic) || onlyFixed then s else Bytes(dynamic)
    ensures var b := Smallest(dynamic, fixed, buf, onlyFixed);
      b == (if buf.Some? && |buf.value| + 4 <= o then Stored(buf.value) else if s == o then fixed else dynamic) &&
      (!onlyFixed ==> Bytes(b) <= Bytes(dynamic)) && Bytes(b) <= Bytes(fixed) &&
      (buf.Some? ==> Bytes(b) <= Bytes(Stored(buf.value)))
  {
    hide CodedBits;
  }

  lemma BytesOf(b: Block)
    ensures b.Fixed? ==> CodedBits(b) == BodyBits(FixedL(), FixedD(30), b.toks)
    ensures b.Dynamic? && 257 <= |b.ll| && 1 <= |b.dl| && 4 <= b.blcodes <= 19 ==>
      CodedBits(b) == HeaderBits(b.ll, b.dl, b.bl, b.blcodes) + BodyBits(b.ll, b.dl, b.toks)
    ensures b.Stored? ==> Bytes(b) == |b.bytes| + 4
  {
  }

  lemma HeldValid(buf: Bits, toks: seq<Token>)
    requires Holds(buf, toks)
    ensures forall i :: 0 <= i < |toks| ==> ValidToken(toks[i])
    ensures GoodBlock(Fixed(toks), toks, None)
  {
  }

  lemma ReadyGood(lt: seq<CtData>, dt: seq<CtData>, bt: seq<CtData>, ll: seq<nat>, dl: seq<nat>, bl: seq<nat>,
                  blcodes: nat, toks: seq<Token>, buf: Option<seq<nat>>)
    requires Ready(lt, dt, bt, ll, dl, bl, toks) && 4 <= blcodes <= 19
    requires forall r :: blcodes <= r < 19 ==> LenOr0(bl, BL_ORDER[r]) == 0
    ensures GoodBlock(Dynamic(ll, dl, bl, blcodes, toks), toks, buf) && 257 <= |ll| && 1 <= |dl|
  {
  }

  lemma GoodAny(b: Block, toks: seq<Token>, buf: Option<seq<nat>>)
    requires GoodBlock(b, toks, None)
    ensures GoodBlock(b, toks, buf)
  {
  }

  lemma GoodStored(bytes: seq<nat>, toks: seq<Token>)
    ensures GoodBlock(Stored(bytes), toks, Some(bytes))
  {
  }

  lemma ReadyParts(lt: seq<CtData>, dt: seq<CtData>, bt: seq<CtData>, ll: seq<nat>, dl: seq<nat>, bl: seq<nat>,
                   toks: seq<Token>)
    requires Ready(lt, dt, bt, ll, dl, bl, toks)
    ensures 257 <= |ll| <= 286 && 1 <= |dl| <= 30 && Guarded(lt, ll) && Guarded(dt, dl) && |bl| <= 19 <= |bt|
    ensures HasCodes(bt, bl) && Kraft(bl) && (forall s :: 0 <= s < 19 ==> bt[s].dl == LenOr0(bl, s) < 8)
    ensures AllCoded(bl, Rle(ll)) && AllCoded(bl, Rle(dl))
  {
    hide RleFrom, HasCodes, Guarded, LenOr0, Below;
  }

  lemma FixedSending(sl: seq<CtData>, sd: seq<CtData>, buf: Bits, toks: seq<Token>)
    requires HasCodes(sl, FixedL()) && HasCodes(sd, FixedD(30)) && Holds(buf, toks)
    ensures Sending(sl, sd, buf, FixedL(), FixedD(30), toks)
  {
    hide HasCodes, FixedL, FixedD, Kraft, Codable;
    HeldValid(buf, toks);
    FixedCodable(toks);
  }

  lemma AlignIs(s: Bits, t: Bits)
    requires |t| % 8 == 0 && exists k: nat :: k < 8 && t == s + Zeros(k)
    ensures t == Align(s)
  {
    var k: nat :| k < 8 && t == s + Zeros(k);
    assert k == (8 - |s| % 8) % 8;
  }

  // ---- tallying ----

  lemma TallyCounts(s: seq<nat>, e: seq<nat>, x: nat, y: nat)
    ensures Count(s + [x] + e, y) == Count(s + e, y) + (if x == y then 1 else 0)
  {
    hide Count;
    CountConcat(s, [x], y);
    CountConcat(s + [x], e, y);
    CountConcat(s, e, y);
    CountOne(x, y);
  }

  lemma CountOne(x: nat, y: nat)
    ensures Count([x], y) == if x == y then 1 else 0
  {
    assert [x][..0] == [];
  }

  lemma TallyTree(t: seq<CtData>, n: nat, s: seq<nat>, e: seq<nat>, x: nat)
    requires CountsOf(t, n, s + e) && x < n
    ensures CountsOf(t[x := t[x].(fc := t[x].fc + 1)], n, s + [x] + e)
  {
    hide Count;
    var t', s' := t[x := t[x].(fc := t[x].fc + 1)], s + [x] + e;
    forall y | 0 <= y < n
      ensures t'[y].fc == Count(s', y)
    {
      TallyCounts(s, e, x, y);
    }
    forall i | 0 <= i < |s'|
      ensures s'[i] < n
    {
      if i < |s| { assert s'[i] == (s + e)[i]; }
      if i > |s| { assert s'[i] == (s + e)[i - 1]; }
    }
  }

  lemma SymsSnoc(toks: seq<Token>, t: Token)
    ensures LSyms(toks + [t]) == LSyms(toks) + [LSym(t)]
    ensures DSyms(toks + [t]) == DSyms(toks) + (if t.Match? then [DSym(t)] else [])
  {
    assert (toks + [t])[..|toks|] == toks;
  }

  lemma SymRange(t: Token)
    requires ValidToken(t)
    ensures LSym(t) < 286 && DSym(t) < 30
  {
  }

  /** A 32-bit store of a symbol at the end of the buffer. */
  lemma StoreSym(buf: Bits, toks: seq<Token>, t: Token, val: Bits)
    requires Holds(buf, toks) && ValidToken(t) && 24 * (|toks| + 1) + 8 <= |buf| && |val| == 32 &&
      val[..24] == SymBits(t)
    ensures Holds(buf[..24 * |toks|] + val + buf[24 * |toks| + 32..], toks + [t])
  {
    hide SymBits;
    var buf' := buf[..24 * |toks|] + val + buf[24 * |toks| + 32..];
    assert (toks + [t])[..|toks|] == toks;
    assert buf'[..24 * (|toks| + 1)] == buf[..24 * |toks|] + val[..24];
  }

  // ---- block choice ----

  lemma FixedCodable(toks: seq<Token>)
    requires forall i :: 0 <= i < |toks| ==> ValidToken(toks[i])
    ensures Kraft(FixedL()) && Kraft(FixedD(30)) && Coded(FixedL(), END_BLOCK)
    ensures forall i :: 0 <= i < |toks| ==> Codable(FixedL(), FixedD(30), toks[i])
  {
    hide LSym, DSym, Below, Count, Pow2;
    FixedLComplete();
    FixedDKraft();
    forall i | 0 <= i < |toks|
      ensures Codable(FixedL(), FixedD(30), toks[i])
    {
      SymRange(toks[i]);
    }
  }

  lemma FixedDKraft()
    ensures Kraft(FixedD(30))
  {
    hide Below, Count, Pow2;
    var lens := FixedD(30);
    forall l: nat
      ensures Count(lens, l) == if l == 5 then 30 else 0
    {
      CountRepeat(5, 30, l);
    }
    BelowFirst(lens);
    BelowNone(lens, 1, 5);
    BelowStep(lens, 5);
    BelowNone(lens, 6, 16);
    Pow2Table();
  }

  lemma ReadySending(lt: seq<CtData>, dt: seq<CtData>, bt: seq<CtData>, ll: seq<nat>, dl: seq<nat>, bl: seq<nat>,
                     toks: seq<Token>, buf: Bits)
    requires Ready(lt, dt, bt, ll, dl, bl, toks) && Holds(buf, toks)
    ensures Sending(lt, dt, buf, ll, dl, toks)
  {
    hide HasCodes, Holds, Codable, Below;
  }

  lemma DynamicJoined(s: Bits, ll: seq<nat>, dl: seq<nat>, bl: seq<nat>, blcodes: nat, toks: seq<Token>, last: bool)
    requires 257 <= |ll| <= 286 && 1 <= |dl| <= 30 && 4 <= blcodes <= 19
    ensures s + TypeBits(2, last) + HeaderBits(ll, dl, bl, blcodes) + BodyBits(ll, dl, toks) ==
            WithBlock(s, Dynamic(ll, dl, bl, blcodes, toks), last)
  {
    hide TypeBits, HeaderBits, BodyBits;
  }

  lemma EmptyBody(ll: seq<nat>, dl: seq<nat>)
    ensures BodyBits(ll, dl, []) == CodeBits(ll, END_BLOCK)
  {
    assert TokensBits(ll, dl, []) == [];
  }

  /** An empty block takes the seven bits of the fixed end-of-block code. */
  lemma EmptyFixed()
    ensures |BodyBits(FixedL(), FixedD(30), [])| == 7
  {
    EmptyBody(FixedL(), FixedD(30));
    assert FixedL()[END_BLOCK] == 7;
  }

  /** The parts of deflate_state that hold the symbols of the current block. */
  class BlockState {
    const w: BitWriter
    const dynL: array<CtData>
    const dynD: array<CtData>
    const blTree: array<CtData>
    const staticL: seq<CtData>
    const staticD: seq<CtData>
    const litBufsize: nat
    var symBuf: Bits
    var symNext: nat
    ghost var toks: seq<Token>

    constructor (bufsize: nat)
      requires bufsize <= 32768
      ensures Valid() && toks == [] && w.Stream() == [] && litBufsize == bufsize
      ensures fresh(w) && fresh(dynL) && fresh(dynD) && fresh(blTree)
    {
      hide HasCodes;
      var sl := MakeStaticL();
      var sd := MakeStaticD();
      w := new BitWriter();
      dynL := new CtData[573](_ => CtData(0, 0));
      dynD := new CtData[61](_ => CtData(0, 0));
      blTree := new CtData[39](_ => CtData(0, 0));
      staticL, staticD, litBufsize := sl[..], sd, bufsize;
      symBuf := Zeros(24 * bufsize + 8);
      new;
      InitBlock();
    }

    ghost predicate Shape()
      reads this
    {
      dynL != dynD && dynL != blTree && dynD != blTree && dynL.Length == 573 && dynD.Length == 61 &&
        blTree.Length == 39 &&
      HasCodes(staticL, FixedL()) && HasCodes(staticD, FixedD(30)) && litBufsize <= 32768 &&
        24 * litBufsize + 8 <= |symBuf|
    }

    ghost predicate Loaded()
      reads this, w
    {
      Shape() && w.Valid() && |toks| <= litBufsize && symNext == 3 * |toks| && Holds(symBuf, toks)
    }

    /** The symbol buffer and the frequencies describe the tokens of the block. */
    ghost predicate Valid()
      reads this, w, dynL, dynD, blTree
    {
      Loaded() && Tallied(dynL[..], dynD[..], toks) &&
      forall c :: 0 <= c < 19 ==> blTree[c].fc == 0
    }

    /** init_block. */
    method InitBlock()
      requires Shape() && w.Valid()
      modifies this`symNext, this`toks, dynL, dynD, blTree
      ensures Valid() && toks == []
    {
      hide HasCodes;
      for n := 0 to 286
        modifies dynL
        invariant forall i :: 0 <= i < n ==> dynL[i].fc == 0
      {
        dynL[n] := dynL[n].(fc := 0);
      }
      for n := 0 to 30
        modifies dynD
        invariant forall i :: 0 <= i < n ==> dynD[i].fc == 0
      {
        dynD[n] := dynD[n].(fc := 0);
      }
      for n := 0 to 19
        modifies blTree
        invariant forall i :: 0 <= i < n ==> blTree[i].fc == 0
      {
        blTree[n] := blTree[n].(fc := 0);
      }
      dynL[END_BLOCK] := dynL[END_BLOCK].(fc := 1);
      symNext := 0;
      toks := [];
      EmptyTally(dynL[..], dynD[..]);
      assert symBuf[..0] == [];
    }

    /** zng_tr_tally_lit: true when the block is full. */
    method TallyLit(c: nat) returns (full: bool)
      requires Valid() && c < 256 && |toks| < litBufsize
      modifies this`symBuf, this`symNext, this`toks, dynL
      ensures Valid() && toks == old(toks) + [Lit(c)] && full == (symNext == 3 * (litBufsize - 1))
    {
      hide HasCodes, CountsOf, LSyms, DSyms, Holds, SymBuf, SymBits;
      ghost var t := Lit(c);
      SymsSnoc(toks, t);
      TallyTree(dynL[..], 286, LSyms(toks), [END_BLOCK], c);
      LitWord(c);
      StoreSym(symBuf, toks, t, Zeros(16) + ToBits(c, 16));
      assert DSyms(toks) + [] == DSyms(toks);
      Store(Zeros(16) + ToBits(c, 16));
      dynL[c] := dynL[c].(fc := dynL[c].fc + 1);
      toks := toks + [t];
      full := symNext == 3 * (litBufsize - 1);
    }

    method Store(val: Bits)
      requires |val| == 32 && 8 * symNext + 32 <= |symBuf|
      modifies this`symBuf, this`symNext
      ensures symBuf == old(symBuf)[..8 * old(symNext)] + val + old(symBuf)[8 * old(symNext) + 32..] &&
        symNext == old(symNext) + 3
      ensures |symBuf| == old(|symBuf|)
    {
      symBuf := symBuf[..8 * symNext] + val + symBuf[8 * symNext + 32..];
      symNext := symNext + 3;
    }

    /** zng_tr_tally_dist, for a match of length len + 3. */
    method TallyDist(dist: nat, len: nat) returns (full: bool)
      requires Valid() && 1 <= dist <= 32768 && len < 256 && |toks| < litBufsize
      modifies this`symBuf, this`symNext, this`toks, dynL, dynD
      ensures Valid() && toks == old(toks) + [Match(len, dist)] && full == (symNext == 3 * (litBufsize - 1))
    {
      hide HasCodes, CountsOf, LSyms, DSyms, Holds, SymBuf, SymBits, LengthCode, DistCode;
      ghost var t := Match(len, dist);
      SymsSnoc(toks, t);
      TallyTree(dynL[..], 286, LSyms(toks), [END_BLOCK], LSym(t));
      assert DSyms(toks) + [] == DSyms(toks) && DSyms(toks) + [DSym(t)] + [] == DSyms(toks) + [DSym(t)];
      TallyTree(dynD[..], 30, DSyms(toks), [], DSym(t));
      MatchWord(len, dist);
      StoreSym(symBuf, toks, t, ToBits(dist, 16) + ToBits(len, 16));
      Store(ToBits(dist, 16) + ToBits(len, 16));
      dynL[257 + LengthCode(len)] := dynL[257 + LengthCode(len)].(fc := dynL[257 + LengthCode(len)].fc + 1);
      dynD[DistCode(dist - 1)] := dynD[DistCode(dist - 1)].(fc := dynD[DistCode(dist - 1)].fc + 1);
      toks := toks + [t];
      full := symNext == 3 * (litBufsize - 1);
    }

    /** zng_tr_emit_tree: the three header bits. */
    method EmitType(ty: nat, last: bool)
      requires w.Valid() && ty <= 2
      modifies w
      ensures w.Valid() && w.Stream() == old(w.Stream()) + TypeBits(ty, last)
    {
      hide Pow2, ToBits;
      SmallPowers();
      SendValue(w, 2 * ty + (if last then 1 else 0), 3);
    }

    /** zng_tr_stored_block. */
    method StoredBlock(bytes: seq<nat>, last: bool)
      requires w.Valid() && |bytes| <= 65535
      modifies w
      ensures w.Valid() && w.Stream() == WithBlock(old(w.Stream()), Stored(bytes), last)
    {
      hide BytesBits, ToBits, TypeBits;
      EmitType(0, last);
      ghost var s1 := w.Stream();
      w.Windup();
      AlignIs(s1, w.Stream());
      w.PutBits(ToBits(|bytes|, 16));
      w.PutBits(ToBits(65535 - |bytes|, 16));
      w.PutBits(BytesBits(bytes));
    }

    /** The fixed form of the block. */
    method FixedBlock(last: bool)
      requires Loaded()
      modifies w
      ensures w.Valid() && w.Stream() == WithBlock(old(w.Stream()), Fixed(toks), last)
    {
      hide HasCodes, BodyBits, Tallied, Sending, TypeBits, FixedL, FixedD;
      EmitType(1, last);
      FixedSending(staticL, staticD, symBuf, toks);
      CompressBlock.CompressBlock(w, staticL, staticD, symBuf, symNext, FixedL(), FixedD(30), toks);
    }

    /** The dynamic form of the block, with trees that are ready. */
    method DynamicBlock(lcodes: nat, dcodes: nat, blcodes: nat, last: bool, ghost ll: seq<nat>, ghost dl: seq<nat>,
                        ghost bl: seq<nat>)
      requires Loaded()
      requires Ready(dynL[..], dynD[..], blTree[..], ll, dl, bl, toks) && lcodes == |ll| && dcodes == |dl| &&
        4 <= blcodes <= 19
      modifies w
      ensures w.Valid() && w.Stream() == WithBlock(old(w.Stream()), Dynamic(ll, dl, bl, blcodes, toks), last)
    {
      hide *;
      LoadedParts();
      ghost var s := w.Stream();
      EmitType(2, last);
      ReadySending(dynL[..], dynD[..], blTree[..], ll, dl, bl, toks, symBuf);
      ReadyParts(dynL[..], dynD[..], blTree[..], ll, dl, bl, toks);
      SendAllTrees(w, dynL[..], dynD[..], blTree[..], lcodes, dcodes, blcodes, ll, dl, bl);
      CompressBlock.CompressBlock(w, dynL[..], dynD[..], symBuf, symNext, ll, dl, toks);
      DynamicJoined(s, ll, dl, bl, blcodes, toks, last);
    }

    lemma LoadedParts()
      requires Loaded()
      ensures w.Valid() && w.biValid <= 64 && symNext == 3 * |toks| && Holds(symBuf, toks)
    {
      hide Holds, HasCodes;
    }

    /** zng_tr_flush_block. The block that was sent is b, the smallest form that is allowed; if it is not a stored
        block, its data takes exactly the predicted number of bits. */
    method FlushBlock(buf: Option<seq<nat>>, storedLen: nat, last: bool, level: nat, fixed: bool)
      returns (predicted: int, ghost b: Block, ghost dynamic: Block)
      requires Valid() && (level == 0 ==> buf.Some?) && (buf.Some? ==> storedLen == |buf.value| <= 65535)
      modifies this`symNext, this`toks, w, dynL, dynD, blTree
      ensures Valid() && toks == [] && GoodBlock(b, old(toks), buf)
      ensures w.Stream() == if last then Align(WithBlock(old(w.Stream()), b, last))
        else WithBlock(old(w.Stream()), b, last)
      ensures !b.Stored? ==> predicted == |CodedBits(b)|
      ensures level > 0 && old(toks) != [] ==> dynamic.Dynamic? && GoodBlock(dynamic, old(toks), buf)
      ensures level > 0 && old(toks) != [] ==> b == Smallest(dynamic, Fixed(old(toks)), buf, fixed)
      ensures old(toks) == [] ==> b == Fixed([])
      ensures level == 0 && old(toks) != [] ==> b == Stored(buf.value)
      ensures level > 0 && old(toks) != [] && !fixed ==> Bytes(b) <= Bytes(dynamic)
      ensures level > 0 && old(toks) != [] ==> Bytes(b) <= Bytes(Fixed(old(toks)))
      ensures level > 0 && old(toks) != [] && buf.Some? ==> Bytes(b) <= Bytes(Stored(buf.value))
    {
      hide HasCodes, BodyBits, TypeBits, HeaderBits, Ready, Holds, Tallied, FixedL, FixedD, CodedBits, WithBlock,
        GoodBlock, GoodDynamic, Smallest;
      var optLen, staticLen, optLenb, staticLenb := 0, 0, 0, 0;
      var lcodes, dcodes, blcodes := 0, 0, 0;
      ghost var ll: seq<nat>, dl: seq<nat>, bl: seq<nat> := [], [], [];
      b, dynamic := Fixed(toks), Fixed(toks);
      HeldValid(symBuf, toks);
      BytesOf(b);
      if symNext == 0 {
        staticLen := 7;
        EmptyFixed();
      } else if level > 0 {
        lcodes, dcodes, blcodes, optLen, staticLen, ll, dl, bl := BuildTrees(dynL, dynD, blTree, toks);
        dynamic := Dynamic(ll, dl, bl, blcodes, toks);
        ReadyGood(dynL[..], dynD[..], blTree[..], ll, dl, bl, blcodes, toks, buf);
        BytesOf(dynamic);
        optLenb, staticLenb := (optLen + 3 + 7) / 8, (staticLen + 3 + 7) / 8;
        if staticLenb <= optLenb || fixed {
          optLenb := staticLenb;
        }
        Picks(dynamic, Fixed(toks), buf, fixed, staticLenb, optLenb);
      } else {
        optLenb, staticLenb := storedLen + 5, storedLen + 5;
      }
      if storedLen + 4 <= optLenb && buf.Some? {
        StoredBlock(buf.value, last);
        b, predicted := Stored(buf.value), 0;
        BytesOf(b);
      } else if staticLenb == optLenb {
        FixedBlock(last);
        predicted := staticLen;
      } else {
        DynamicBlock(lcodes, dcodes, blcodes, last, ll, dl, bl);
        b, predicted := dynamic, optLen;
      }
      GoodAny(Fixed(toks), toks, buf);
      if b.Stored? { GoodStored(b.bytes, toks); }
      InitBlock();
      if last {
        ghost var s1 := w.Stream();
        w.Windup();
        AlignIs(s1, w.Stream());
      }
    }
  }

  lemma EmptyTally(lt: seq<CtData>, dt: seq<CtData>)
    requires 286 <= |lt| && 30 <= |dt| && forall i :: 0 <= i < 30 ==> dt[i].fc == 0
    requires forall i :: 0 <= i < 286 ==> lt[i].fc == if i == END_BLOCK then 1 else 0
    ensures Tallied(lt, dt, [])
  {
    forall x: nat
      ensures Count([END_BLOCK], x) == (if x == END_BLOCK then 1 else 0) && Count([], x) == 0
    {
      CountOne(END_BLOCK, x);
    }
    assert LSyms([]) + [END_BLOCK] == [END_BLOCK];
  }

  lemma LitWord(c: nat)
    requires c < 256
    ensures (Zeros(16) + ToBits(c, 16))[..24] == SymBits(Lit(c))
  {
    ToBitsPrefix(c, 8, 16);
    assert (Zeros(16) + ToBits(c, 16))[..24] == Zeros(16) + ToBits(c, 16)[..8];
  }

  lemma MatchWord(len: nat, dist: nat)
    ensures (ToBits(dist, 16) + ToBits(len, 16))[..24] == SymBits(Match(len, dist))
  {
    hide ToBits;
    ToBitsPrefix(len, 8, 16);
    assert (ToBits(dist, 16) + ToBits(len, 16))[..24] == ToBits(dist, 16) + ToBits(len, 16)[..8];
  }
}
