/** The DEFLATE decoder as a machine over bits: what inflate() does in its modes TYPE to LIT for a raw stream, without
    tables, buffers or windows. One step is what inflate() does between two points at which it can return and be called
    again. */
module InflateSpec {
  import opened Bits
  import opened Canonical
  import opened SortedCode
  import opened TableSpec
  import opened RunLength
  import opened TreeHeader
  import opened Tokens
  import opened FixedCodes

  datatype Mode =
    | TYPE | STORED | COPY | TABLE | LENLENS | CODELENS
    | LEN | LENEXT | DIST | DISTEXT | MATCH | LIT | DONE | BAD

  /** What the decoder remembers: cl are the lengths of the code length code, acc the code lengths read so far, ll and
      dl the code lengths of the current block, toks its symbols so far. */
  datatype Dec = Dec(mode: Mode, last: bool, length: nat, offset: nat, extra: nat, nlen: nat, ndist: nat, ncode: nat,
                     have: nat, cl: seq<nat>, acc: seq<nat>, ll: seq<nat>, dl: seq<nat>, toks: seq<Token>)

  // ---- symbols ----

  datatype Found = Sym(s: nat, n: nat) | Invalid | More

  /** The bits that must be there before symbol s is recognized: the op field of an unused length symbol adds its low
      four bits to the code length. */
  function Need(ty: CodeType, s: nat, n: nat): (r: nat)
    requires s < MaxSymbols(ty)
  {
    var e := EntryFor(ty, s, n);
    if e.op / 16 % 2 == 1 then n else e.bits
  }

  ghost predicate Starts(lens: seq<nat>, u: Bits, s: nat) { Coded(lens, s) && Codeword(lens, s) <= u }

  ghost function Owner(lens: seq<nat>, u: Bits): (s: nat)
    requires exists s: nat :: Starts(lens, u, s)
    ensures Starts(lens, u, s)
  {
    var s: nat :| Starts(lens, u, s);
    s
  }

  /** The symbol whose code starts u. */
  ghost function Lookup(ty: CodeType, lens: seq<nat>, u: Bits): (f: Found)
    requires |lens| <= MaxSymbols(ty)
    ensures f.Sym? ==>
      Coded(lens, f.s) && f.n == lens[f.s] && f.n <= |u| && Need(ty, f.s, f.n) <= |u| && Starts(lens, u, f.s)
    ensures f.Invalid? ==> |u| >= 1
  {
    if exists s: nat :: Starts(lens, u, s) then
      var s := Owner(lens, u);
      if Need(ty, s, lens[s]) <= |u| then Sym(s, lens[s]) else More
    else if |u| >= 1 && !Complete(lens) then Invalid
    else More
  }

  lemma LookupIs(ty: CodeType, lens: seq<nat>, u: Bits, s: nat)
    requires |lens| <= MaxSymbols(ty) && Kraft(lens) && Starts(lens, u, s)
    ensures Lookup(ty, lens, u) == if Need(ty, s, lens[s]) <= |u| then Sym(s, lens[s]) else More
  {
    hide Codeword, Kraft, Need;
    UniqueSymbol(lens, u, s, Owner(lens, u));
  }

  /** More input does not change what has been recognized. */
  lemma LookupMono(ty: CodeType, lens: seq<nat>, u: Bits, v: Bits)
    requires |lens| <= MaxSymbols(ty) && Accepts(ty, lens) && !Lookup(ty, lens, u).More?
    ensures Lookup(ty, lens, u + v) == Lookup(ty, lens, u)
  {
    hide Codeword, Need, Kraft, Complete, Below;
    AcceptsKraft(ty, lens);
    var f := Lookup(ty, lens, u);
    if f.Sym? {
      assert Starts(lens, u + v, f.s);
      LookupIs(ty, lens, u + v, f.s);
    } else {
      forall s | Starts(lens, u + v, s)
        ensures Starts(lens, u, s)
      {
        ShortOnly(ty, lens, s);
        assert Codeword(lens, s) == (u + v)[..1] == u[..1];
      }
    }
  }

  lemma AcceptsKraft(ty: CodeType, lens: seq<nat>)
    requires Accepts(ty, lens)
    ensures Kraft(lens)
  {
  }

  /** An incomplete code that is accepted has no code longer than one bit. */
  lemma ShortOnly(ty: CodeType, lens: seq<nat>, s: nat)
    requires Accepts(ty, lens) && !Complete(lens) && Coded(lens, s)
    ensures lens[s] == 1
  {
    hide Below, Pow2, Offs;
    RankRange(lens, s);
    if lens[s] >= 2 { OffsMono(lens, 2, lens[s]); }
  }

  // ---- the actions of the modes ----

  /** Nothing can be done, or the state becomes d after n bits, with output e. */
  datatype Outcome = Stuck | Go(d: Dec, n: nat, e: seq<nat>)

  function Field(u: Bits, from: nat, n: nat): (v: nat)
    requires from + n <= |u|
  {
    FromBits(u[from..from + n])
  }

  function ActType(d: Dec, u: Bits): (o: Outcome)
  {
    if d.last then Go(d.(mode := DONE), |u| % 8, [])
    else if |u| < 3 then Stuck
    else
      var d' := d.(last := u[0], toks := []);
      var ty := Field(u, 1, 2);
      if ty == 0 then Go(d'.(mode := STORED), 3, [])
      else if ty == 1 then Go(d'.(mode := LEN, ll := FixedL(), dl := FixedD(32)), 3, [])
      else if ty == 2 then Go(d'.(mode := TABLE), 3, [])
      else Go(d'.(mode := BAD), 3, [])
  }

  function ActStored(d: Dec, u: Bits): (o: Outcome)
  {
    if |u| % 8 != 0 then Go(d, |u| % 8, [])
    else if |u| < 32 then Stuck
    else if Field(u, 0, 16) + Field(u, 16, 16) != 65535 then Go(d.(mode := BAD), 0, [])
    else Go(d.(mode := COPY, length := Field(u, 0, 16)), 32, [])
  }

  function ActCopy(d: Dec, u: Bits, room: nat): (o: Outcome)
  {
    if d.length == 0 then Go(d.(mode := TYPE), 0, [])
    else if |u| < 8 || room == 0 then Stuck
    else Go(d.(length := d.length - 1), 8, [Field(u, 0, 8)])
  }

  function ActTable(d: Dec, u: Bits): (o: Outcome)
  {
    if |u| < 14 then Stuck
    else
      var d' := d.(nlen := Field(u, 0, 5) + 257, ndist := Field(u, 5, 5) + 1, ncode := Field(u, 10, 4) + 4, have := 0,
                   cl := seq(19, i => 0), mode := LENLENS);
      if d'.nlen > 286 || d'.ndist > 30 then Go(d'.(mode := BAD), 14, []) else Go(d', 14, [])
  }

  function ActLenLens(d: Dec, u: Bits): (o: Outcome)
  {
    if d.have < d.ncode && d.have < 19 && |d.cl| == 19 then
      if |u| < 3 then Stuck
      else
        OrderBounds();
        Go(d.(cl := d.cl[BL_ORDER[d.have] := Field(u, 0, 3)], have := d.have + 1), 3, [])
    else if Accepts(CODES, d.cl) then Go(d.(mode := CODELENS, acc := []), 0, [])
    else Go(d.(mode := BAD), 0, [])
  }

  ghost function ActCodeLens(d: Dec, u: Bits): (o: Outcome)
  {
    if |d.acc| < d.nlen + d.ndist then
      match if |d.cl| <= 19 then Lookup(CODES, d.cl, u) else More
      case More => Stuck
      case Invalid => Go(d.(acc := d.acc + [0]), 1, [])
      case Sym(s, n) =>
        if |u| < n + ExtraBits(s) then Stuck
        else match Apply(ClSym(s, Field(u, n, ExtraBits(s))), d.acc, d.nlen + d.ndist)
          case BadRepeat => Go(d.(mode := BAD), if s == 16 && |d.acc| == 0 then n else n + ExtraBits(s), [])
          case Lens(acc) => Go(d.(acc := acc), n + ExtraBits(s), [])
    else if d.nlen <= 256 || d.acc[256] == 0 then Go(d.(mode := BAD), 0, [])
    else if !Accepts(LENS, d.acc[..d.nlen]) || !Accepts(DISTS, d.acc[d.nlen..]) then Go(d.(mode := BAD), 0, [])
    else Go(d.(mode := LEN, ll := d.acc[..d.nlen], dl := d.acc[d.nlen..]), 0, [])
  }

  /** A literal, the end of the block, or a length. */
  function LenSym(d: Dec, s: nat, n: nat): (o: Outcome)
    requires s < 288
  {
    if s < 256 then Go(d.(mode := LIT, length := s), n, [])
    else if s == 256 then Go(d.(mode := TYPE), n, [])
    else if LEXT[s - 257] / 64 % 2 == 1 then Go(d.(mode := BAD), Need(LENS, s, n), [])
    else Go(d.(mode := LENEXT, length := LBASE[s - 257], extra := LEXT[s - 257] % 16), n, [])
  }

  function DistSym(d: Dec, s: nat, n: nat): (o: Outcome)
    requires s < 32
  {
    if DEXT[s] / 64 % 2 == 1 then Go(d.(mode := BAD), n, [])
    else Go(d.(mode := DISTEXT, offset := DBASE[s], extra := DEXT[s] % 16), n, [])
  }

  ghost function ActLen(d: Dec, u: Bits): (o: Outcome)
  {
    match if |d.ll| <= 288 then Lookup(LENS, d.ll, u) else More
    case More => Stuck
    case Invalid => Go(d.(mode := BAD), 1, [])
    case Sym(s, n) => LenSym(d, s, n)
  }

  function ActLenExt(d: Dec, u: Bits): (o: Outcome)
  {
    if |u| < d.extra then Stuck else Go(d.(mode := DIST, length := d.length + Field(u, 0, d.extra)), d.extra, [])
  }

  ghost function ActDist(d: Dec, u: Bits): (o: Outcome)
  {
    match if |d.dl| <= 32 then Lookup(DISTS, d.dl, u) else More
    case More => Stuck
    case Invalid => Go(d.(mode := BAD), 1, [])
    case Sym(s, n) => DistSym(d, s, n)
  }

  function ActDistExt(d: Dec, u: Bits): (o: Outcome)
  {
    if |u| < d.extra then Stuck
    else
      var offset := d.offset + Field(u, 0, d.extra);
      Go(d.(mode := MATCH, offset := offset, toks :=
        d.toks + [Match(if d.length >= 3 then d.length - 3 else 0, offset)]), d.extra, [])
  }

  function ActMatch(d: Dec, out: seq<nat>, room: nat): (o: Outcome)
  {
    if room == 0 then Stuck
    else if d.offset > |out| || d.offset == 0 then Go(d.(mode := BAD), 0, [])
    else Go(d.(length := if d.length > 0 then d.length - 1 else 0, mode := if d.length <= 1 then LEN else MATCH), 0,
            [out[|out| - d.offset]])
  }

  function ActLit(d: Dec, room: nat): (o: Outcome)
  {
    if room == 0 then Stuck else Go(d.(mode := LEN, toks := d.toks + [Lit(d.length)]), 0, [d.length])
  }

  ghost function Act(d: Dec, u: Bits, out: seq<nat>, room: nat): (o: Outcome)
    ensures o.Go? ==> o.n <= |u| && |o.e| <= room
  {
    match d.mode
    case TYPE => ActType(d, u)
    case STORED => ActStored(d, u)
    case COPY => ActCopy(d, u, room)
    case TABLE => ActTable(d, u)
    case LENLENS => ActLenLens(d, u)
    case CODELENS => ActCodeLens(d, u)
    case LEN => ActLen(d, u)
    case LENEXT => ActLenExt(d, u)
    case DIST => ActDist(d, u)
    case DISTEXT => ActDistExt(d, u)
    case MATCH => ActMatch(d, out, room)
    case LIT => ActLit(d, room)
    case DONE => Stuck
    case BAD => Stuck
  }
}
