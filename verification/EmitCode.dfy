/** trees_emit.h send_code: sending the code of a tree element, and plain values. */
module EmitCode {
  import opened Bits
  import opened Canonical
  import opened GenCodes
  import opened BitWriter

  lemma HasOneCode(tree: seq<CtData>, lens: seq<nat>, c: nat)
    requires HasCodes(tree, lens) && Coded(lens, c)
    ensures c < |tree| && HasCode(tree[c], lens, c)
  {
  }

  /** The value of a code as a machine word. */
  function CodeWord(e: CtData): (w: Word) { ToWord(ToBits(e.fc, 16)) }

  lemma CodeWordBits(e: CtData, lens: seq<nat>, c: nat)
    requires Kraft(lens) && Coded(lens, c) && HasCode(e, lens, c)
    ensures 1 <= e.dl == lens[c] <= 15 && Clear(CodeWord(e), e.dl) && CodeWord(e)[..e.dl] == Codeword(lens, c)
    ensures CodeBits(lens, c) == Codeword(lens, c)
  {
    hide Pow2, Codeword, Below;
    var w := Codeword(lens, c);
    BelowPow2(w);
    ToBitsPadded(FromBits(w), |w|, 16);
    ToBitsFromBits(w);
  }

  /** send_code. */
  method SendCode(w: BitWriter, e: CtData, ghost lens: seq<nat>, ghost c: nat)
    requires w.Valid() && Kraft(lens) && Coded(lens, c) && HasCode(e, lens, c)
    modifies w
    ensures w.Valid() && w.Stream() == old(w.Stream()) + CodeBits(lens, c)
  {
    hide HasCode, Codeword, CodeWord, Kraft, CodeBits;
    CodeWordBits(e, lens, c);
    w.SendBits(CodeWord(e), e.dl);
  }

  lemma ValueWord(v: nat, n: nat)
    requires n <= 64
    ensures Clear(ToWord(ToBits(v, n)), n) && ToWord(ToBits(v, n))[..n] == ToBits(v, n)
  {
  }

  /** send_bits with a value below 2^n. */
  method SendValue(w: BitWriter, v: nat, n: nat)
    requires w.Valid() && n <= 16 && v < Pow2(n)
    modifies w
    ensures w.Valid() && w.Stream() == old(w.Stream()) + ToBits(v, n)
  {
    hide ToBits, ToWord, Clear;
    ValueWord(v, n);
    w.SendBits(ToWord(ToBits(v, n)), n);
  }
}
