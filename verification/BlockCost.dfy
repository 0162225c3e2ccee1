/** The bit totals of build_tree are the lengths of the bit strings that are sent. */
module BlockCost {
  import opened Arith
  import opened Bits
  import opened Counting
  import opened Canonical
  import opened GenCodes
  import opened TreeShape
  import opened Permute
  import opened BuildTree
  import opened RunLength
  import opened ScanTree
  import opened MatchCodes
  import opened Tokens

  // ---- totals over frequencies are totals over occurrences ----

  /** The bits of one occurrence. */
  function PerSymbol(len: nat -> nat, extra: nat -> nat): (g: nat -> int) { (x: nat) => len(x) + extra(x) }

  /** The bits of the occurrences of x in s. */
  function ByCount(s: seq<nat>, g: nat -> int): (h: nat -> int) { (x: nat) => Times(Count(s, x), g(x)) }

  function Single(y: nat, g: nat -> int): (h: nat -> int) { (x: nat) => if x == y then g(y) else 0 }

  lemma ByCountStep(s: seq<nat>, y: nat, g: nat -> int, x: nat)
    ensures ByCount(s + [y], g)(x) == ByCount(s, g)(x) + Single(y, g)(x)
  {
    assert (s + [y])[..|s|] == s;
    Distrib(Count(s, x), if x == y then 1 else 0, g(x));
  }

  lemma SingleTotal(n: nat, y: nat, g: nat -> int)
    requires y < n
    ensures Total(Range(0, n), Single(y, g)) == g(y)
  {
    hide Total;
    TotalSupport(n, [y], Single(y, g));
    TotalLast([y], Single(y, g));
  }

  lemma {:induction false} CountTotal(s: seq<nat>, n: nat, g: nat -> int)
    requires forall i :: 0 <= i < |s| ==> s[i] < n
    ensures Total(Range(0, n), ByCount(s, g)) == Total(s, g)
  {
    hide Total, ByCount, Single;
    if |s| == 0 {
      NoCounts(n, g);
    } else {
      var k := |s| - 1;
      var front, y := s[..k], s[k];
      assert s == front + [y];
      CountTotal(front, n, g);
      forall x: nat
        ensures ByCount(s, g)(x) == ByCount(front, g)(x) + Single(y, g)(x)
      {
        ByCountStep(front, y, g, x);
      }
      TotalSum(Range(0, n), ByCount(s, g), ByCount(front, g), Single(y, g));
      SingleTotal(n, y, g);
      TotalLast(s, g);
    }
  }

  lemma NoCounts(n: nat, g: nat -> int)
    ensures Total(Range(0, n), ByCount([], g)) == 0 == Total([], g)
  {
    TotalZero(Range(0, n), ByCount([], g));
  }

  /** The frequencies of t are the occurrences in s. */
  ghost predicate CountsOf(t: seq<CtData>, n: nat, s: seq<nat>)
  {
    n <= |t| && (forall x :: 0 <= x < n ==> t[x].fc == Count(s, x)) && forall i :: 0 <= i < |s| ==> s[i] < n
  }

  lemma ByCountAt(s: seq<nat>, g: nat -> int, x: nat)
    ensures ByCount(s, g)(x) == Times(Count(s, x), g(x))
  {
    hide Times, Count;
  }

  lemma PerSymbolAt(len: nat -> nat, extra: nat -> nat, x: nat)
    ensures PerSymbol(len, extra)(x) == len(x) + extra(x)
  {
  }

  lemma BlockBitsOf(t: seq<CtData>, n: nat, s: seq<nat>, len: nat -> nat, extra: nat -> nat)
    requires CountsOf(t, n, s)
    ensures BlockBits(t, n, len, extra) == Total(s, PerSymbol(len, extra))
  {
    hide Total, Occupied, Count, Times, ByCount, PerSymbol;
    var g := PerSymbol(len, extra);
    forall i | 0 <= i < n
      ensures Occupied(t, len, extra)(Range(0, n)[i]) == ByCount(s, g)(Range(0, n)[i])
    {
      OccupiedAt(t, len, extra, i);
      ByCountAt(s, g, i);
      PerSymbolAt(len, extra, i);
    }
    TotalSame(Range(0, n), Occupied(t, len, extra), ByCount(s, g));
    CountTotal(s, n, g);
  }

  lemma {:induction false} CountsSum(s: seq<nat>, n: nat, t: seq<CtData>)
    requires CountsOf(t, n, s)
    ensures Total(Range(0, n), Freq(t)) == |s|
  {
    hide Total, Count, ByCount;
    var g := (x: nat) => 1;
    forall i | 0 <= i < n
      ensures Freq(t)(Range(0, n)[i]) == ByCount(s, g)(Range(0, n)[i])
    {
      ByCountAt(s, g, i);
    }
    TotalSame(Range(0, n), Freq(t), ByCount(s, g));
    CountTotal(s, n, g);
    OnesTotal(s, g);
  }

  lemma {:induction false} OnesTotal(s: seq<nat>, g: nat -> int)
    requires forall x: nat :: g(x) == 1
    ensures Total(s, g) == |s|
  {
    if |s| > 0 { OnesTotal(s[..|s| - 1], g); }
  }

  // ---- the run-length symbols ----

  function ExtraBl(): (f: nat -> nat) { (x: nat) => ExtraBits(x) }

  lemma CodeBitsLength(lens: seq<nat>, s: nat)
    ensures |CodeBits(lens, s)| == LenFn(lens)(s)
  {
  }

  lemma {:induction false} ClBitsLength(bl: seq<nat>, syms: seq<ClSym>)
    ensures |ClBits(bl, syms)| == Total(Codes(syms), PerSymbol(LenFn(bl), ExtraBl()))
  {
    hide CodeBits, Total, LenFn, ExtraBits;
    var g := PerSymbol(LenFn(bl), ExtraBl());
    if |syms| == 0 {
      NoneTotal(g);
      assert Codes(syms) == [];
    } else {
      ClBitsLength(bl, syms[1..]);
      CodeBitsLength(bl, syms[0].code);
      assert syms == [syms[0]] + syms[1..];
      CodesConcat([syms[0]], syms[1..]);
      TotalConcat(Codes([syms[0]]), Codes(syms[1..]), g);
      TotalLast(Codes([syms[0]]), g);
    }
  }

  lemma NoneTotal(g: nat -> int)
    ensures Total([], g) == 0
  {
  }

  // ---- the tokens ----

  function LSyms(toks: seq<Token>): (s: seq<nat>)
  {
    if |toks| == 0 then [] else LSyms(toks[..|toks| - 1]) + [LSym(toks[|toks| - 1])]
  }

  function DSyms(toks: seq<Token>): (s: seq<nat>)
  {
    if |toks| == 0 then []
    else DSyms(toks[..|toks| - 1]) + (if toks[|toks| - 1].Match? then [DSym(toks[|toks| - 1])] else [])
  }

  function ExtraLit(): (f: nat -> nat) { (x: nat) => if x >= 257 then ExtraL(x - 257) else 0 }

  function ExtraDist(): (f: nat -> nat) { (x: nat) => ExtraD(x) }

  lemma TokenLength(ll: seq<nat>, dl: seq<nat>, t: Token)
    requires ValidToken(t)
    ensures |TokenBits(ll, dl, t)| == PerSymbol(LenFn(ll), ExtraLit())(LSym(t)) +
                                      (if t.Match? then PerSymbol(LenFn(dl), ExtraDist())(DSym(t)) else 0)
  {
    hide LengthCode, DistCode, CodeBits, ToBits, ExtraL, ExtraD, LenFn;
    CodeBitsLength(ll, LSym(t));
    CodeBitsLength(dl, DSym(t));
  }

  lemma {:induction false} TokensLast(ll: seq<nat>, dl: seq<nat>, toks: seq<Token>)
    requires |toks| > 0
    ensures TokensBits(ll, dl, toks) == TokensBits(ll, dl, toks[..|toks| - 1]) + TokenBits(ll, dl, toks[|toks| - 1])
  {
    hide TokenBits;
    var n := |toks| - 1;
    if n == 0 {
      assert toks[1..] == [] == toks[..0];
    } else {
      TokensLast(ll, dl, toks[1..]);
      assert toks[1..][..n - 1] == toks[..n][1..];
    }
  }

  lemma {:induction false} TokensLength(ll: seq<nat>, dl: seq<nat>, toks: seq<Token>)
    requires forall i :: 0 <= i < |toks| ==> ValidToken(toks[i])
    ensures |TokensBits(ll, dl, toks)| == Total(LSyms(toks), PerSymbol(LenFn(ll), ExtraLit())) +
                                          Total(DSyms(toks), PerSymbol(LenFn(dl), ExtraDist()))
  {
    hide TokenBits, Total, LenFn, LSym, DSym;
    var g, h := PerSymbol(LenFn(ll), ExtraLit()), PerSymbol(LenFn(dl), ExtraDist());
    hide PerSymbol;
    if |toks| == 0 {
      NoneTotal(g);
      NoneTotal(h);
    } else {
      var n := |toks| - 1;
      TokensLength(ll, dl, toks[..n]);
      TokensLast(ll, dl, toks);
      hide TokensBits;
      TokenLength(ll, dl, toks[n]);
      TotalLast(LSyms(toks), g);
      assert LSyms(toks)[..|LSyms(toks)| - 1] == LSyms(toks[..n]);
      if toks[n].Match? {
        TotalLast(DSyms(toks), h);
        assert DSyms(toks)[..|DSyms(toks)| - 1] == DSyms(toks[..n]);
      } else {
        assert DSyms(toks) == DSyms(toks[..n]);
      }
    }
  }

  /** The frequencies in the trees are those of the tokens and of one end-of-block. */
  ghost predicate Tallied(lt: seq<CtData>, dt: seq<CtData>, toks: seq<Token>)
  {
    CountsOf(lt, 286, LSyms(toks) + [END_BLOCK]) && CountsOf(dt, 30, DSyms(toks))
  }

  /** The block data takes exactly the bits that the two trees predict. */
  lemma BodyLength(lt: seq<CtData>, dt: seq<CtData>, ll: seq<nat>, dl: seq<nat>, toks: seq<Token>)
    requires Tallied(lt, dt, toks) && forall i :: 0 <= i < |toks| ==> ValidToken(toks[i])
    ensures |BodyBits(ll, dl, toks)| == BlockBits(lt, 286, LenFn(ll), ExtraLit()) +
      BlockBits(dt, 30, LenFn(dl), ExtraDist())
  {
    hide BlockBits, Total, LenFn, CountsOf, TokensBits, CodeBits;
    var g := PerSymbol(LenFn(ll), ExtraLit());
    CountsSize(lt, 286, LSyms(toks) + [END_BLOCK]);
    CountsSize(dt, 30, DSyms(toks));
    BlockBitsOf(lt, 286, LSyms(toks) + [END_BLOCK], LenFn(ll), ExtraLit());
    BlockBitsOf(dt, 30, DSyms(toks), LenFn(dl), ExtraDist());
    TokensLength(ll, dl, toks);
    TotalConcat(LSyms(toks), [END_BLOCK], g);
    TotalLast([END_BLOCK], g);
    CodeBitsLength(ll, END_BLOCK);
  }

  lemma CountsSize(t: seq<CtData>, n: nat, s: seq<nat>)
    requires CountsOf(t, n, s)
    ensures n <= |t|
  {
  }
}
