/** Tallied symbols, how the symbol buffer stores them, and the bits that stand for them in a block. */
module Tokens {
  import opened Bits
  import opened Canonical
  import opened MatchCodes

  /** A literal byte, or a match of length lc + 3 at distance dist. */
  datatype Token = Lit(c: nat) | Match(lc: nat, dist: nat)

  predicate ValidToken(t: Token)
  {
    match t case Lit(c) => c < 256 case Match(lc, dist) => lc < 256 && 1 <= dist <= 32768
  }

  const END_BLOCK: nat := 256

  /** The literal/length symbol of a token. */
  function LSym(t: Token): (s: nat) { match t case Lit(c) => c case Match(lc, dist) => 257 + LengthCode(lc) }

  /** The distance symbol of a match. */
  function DSym(t: Token)
    : (s: nat) { match t case Lit(c) => 0 case Match(lc, dist) => DistCode(if dist > 0 then dist - 1 else 0) }

  /** What a token is sent as: for a match the length code, its extra bits, the distance code and its extra bits. */
  function TokenBits(ll: seq<nat>, dl: seq<nat>, t: Token): (b: Bits)
  {
    match t
    case Lit(c) => CodeBits(ll, c)
    case Match(lc, dist) =>
      CodeBits(ll, LSym(t)) + ToBits(lc, ExtraL(LengthCode(lc))) +
      (CodeBits(dl, DSym(t)) + ToBits(if dist > 0 then dist - 1 else 0, ExtraD(DSym(t))))
  }

  function TokensBits(ll: seq<nat>, dl: seq<nat>, toks: seq<Token>): (b: Bits)
  {
    if |toks| == 0 then [] else TokenBits(ll, dl, toks[0]) + TokensBits(ll, dl, toks[1..])
  }

  /** The data of a block: its tokens and the end-of-block code. */
  function BodyBits(ll: seq<nat>, dl: seq<nat>, toks: seq<Token>): (b: Bits)
  {
    TokensBits(ll, dl, toks) + CodeBits(ll, END_BLOCK)
  }

  /** Both codes can express the token. */
  predicate Codable(ll: seq<nat>, dl: seq<nat>, t: Token)
  {
    ValidToken(t) && Coded(ll, LSym(t)) && (t.Match? ==> Coded(dl, DSym(t)))
  }

  /** sym_buf: two bytes of distance and one byte of length or literal for every symbol. */
  function SymBits(t: Token): (b: Bits)
    ensures |b| == 24
  {
    match t case Lit(c) => Zeros(16) + ToBits(c, 8) case Match(lc, dist) => ToBits(dist, 16) + ToBits(lc, 8)
  }

  function SymBuf(toks: seq<Token>): (b: Bits)
    ensures |b| == 24 * |toks|
  {
    if |toks| == 0 then [] else SymBuf(toks[..|toks| - 1]) + SymBits(toks[|toks| - 1])
  }

  lemma {:induction false} SymBufAt(toks: seq<Token>, i: nat)
    requires i < |toks|
    ensures SymBuf(toks)[24 * i..24 * i + 24] == SymBits(toks[i])
  {
    hide SymBits;
    var n := |toks| - 1;
    if i < n {
      SymBufAt(toks[..n], i);
      assert SymBuf(toks)[24 * i..24 * i + 24] == SymBuf(toks[..n])[24 * i..24 * i + 24];
    }
  }

  /** The two fields of a stored symbol; a distance of zero marks a literal. */
  lemma SymFields(t: Token, b: Bits)
    requires ValidToken(t) && b == SymBits(t)
    ensures FromBits(b[..16]) == (if t.Match? then t.dist else 0)
    ensures FromBits(b[16..]) == (if t.Match? then t.lc else t.c)
  {
    Pow2Table();
    hide Pow2;
    match t {
      case Lit(c) =>
        FromMsbZeros(16);
        FromBitsToBits(c, 8);
        assert b[..16] == Zeros(16) && b[16..] == ToBits(c, 8);
      case Match(lc, dist) =>
        FromBitsToBits(lc, 8);
        FromBitsToBits(dist, 16);
        assert b[..16] == ToBits(dist, 16) && b[16..] == ToBits(lc, 8);
    }
  }

  /** A buffer that starts with the stored tokens. */
  ghost predicate Holds(buf: Bits, toks: seq<Token>)
  {
    24 * |toks| + 8 <= |buf| && buf[..24 * |toks|] == SymBuf(toks) && forall i :: 0 <= i < |toks| ==>
      ValidToken(toks[i])
  }

  lemma SymAt(buf: Bits, toks: seq<Token>, i: nat)
    requires Holds(buf, toks) && i < |toks|
    ensures FromBits(buf[24 * i..24 * i + 16]) == (if toks[i].Match? then toks[i].dist else 0)
    ensures FromBits(buf[24 * i + 16..24 * i + 24]) == (if toks[i].Match? then toks[i].lc else toks[i].c)
    ensures ValidToken(toks[i])
  {
    hide SymBits, FromBits, SymBuf;
    SymBufAt(toks, i);
    var b := SymBits(toks[i]);
    SymFields(toks[i], b);
    assert buf[24 * i..24 * i + 24] == buf[..24 * |toks|][24 * i..24 * i + 24] == b;
    assert buf[24 * i..24 * i + 16] == b[..16] && buf[24 * i + 16..24 * i + 24] == b[16..];
  }

  lemma TokensStep(ll: seq<nat>, dl: seq<nat>, toks: seq<Token>, i: nat)
    requires i < |toks|
    ensures TokensBits(ll, dl, toks[i..]) == TokenBits(ll, dl, toks[i]) + TokensBits(ll, dl, toks[i + 1..])
  {
    hide TokenBits;
    assert toks[i..][1..] == toks[i + 1..];
  }

  lemma TokensEnd(ll: seq<nat>, dl: seq<nat>, toks: seq<Token>)
    ensures TokensBits(ll, dl, toks[|toks|..]) == [] && toks[0..] == toks
  {
  }
}
