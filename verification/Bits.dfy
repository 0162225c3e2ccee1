/** Bit strings. DEFLATE is a bit format, so machine words, the output of the bit writer and the input of the decoder
    are all sequences of bits here, least significant (earliest) bit first. */
module Bits {
  import opened Arith

  type Bits = seq<bool>

  /** A 64-bit machine word, least significant bit first. */
  type Word = w: seq<bool> | |w| == 64 witness seq(64, i => false)

  type Byte = x: nat | x < 256

  function Bit(b: bool): (r: nat) { if b then 1 else 0 }

  function Pow2(n: nat): (r: nat)
    ensures r > 0
  {
    if n == 0 then 1 else 2 * Pow2(n - 1)
  }

  lemma {:induction false} Pow2Add(a: nat, b: nat)
    ensures Pow2(a + b) == Pow2(a) * Pow2(b)
  {
    if a != 0 {
      Pow2Add(a - 1, b);
      MulAssoc(2, Pow2(a - 1), Pow2(b));
    }
  }

  lemma Pow2Mono(a: nat, b: nat)
    requires a <= b
    ensures Pow2(a) <= Pow2(b)
    ensures Pow2(b) == Pow2(a) * Pow2(b - a)
  {
    Pow2Add(a, b - a);
    assert Pow2(b - a) >= 1;
    assert Pow2(a) * Pow2(b - a) >= Pow2(a) * 1;
  }

  /** The powers that the format's constants use. */
  lemma Pow2Table()
    ensures Pow2(0) == 1 && Pow2(1) == 2 && Pow2(2) == 4 && Pow2(3) == 8
    ensures Pow2(4) == 16 && Pow2(5) == 32 && Pow2(6) == 64 && Pow2(7) == 128
    ensures Pow2(8) == 256 && Pow2(9) == 512 && Pow2(10) == 1024 && Pow2(11) == 2048
    ensures Pow2(12) == 4096 && Pow2(13) == 8192 && Pow2(14) == 16384 && Pow2(15) == 32768
    ensures Pow2(16) == 65536
  {
    assert Pow2(4) == 16;
    assert Pow2(8) == 256;
    assert Pow2(12) == 4096;
  }

  /** The number a bit string denotes, first bit least significant. */
  function FromBits(b: Bits): (r: nat)
    ensures r < Pow2(|b|)
  {
    if |b| == 0 then 0 else Bit(b[0]) + 2 * FromBits(b[1..])
  }

  lemma BelowPow2(b: Bits)
    ensures FromBits(b) < Pow2(|b|)
  {
  }

  /** The n low bits of v, least significant first. */
  function ToBits(v: nat, n: nat): (b: Bits)
    ensures |b| == n
  {
    if n == 0 then [] else [v % 2 == 1] + ToBits(v / 2, n - 1)
  }

  /** The number a bit string denotes, first bit most significant. */
  function FromMsb(b: Bits): (r: nat)
  {
    if |b| == 0 then 0 else 2 * FromMsb(b[..|b| - 1]) + Bit(b[|b| - 1])
  }

  /** The n low bits of v, most significant first. */
  function ToMsb(v: nat, n: nat): (b: Bits)
    ensures |b| == n
  {
    if n == 0 then [] else ToMsb(v / 2, n - 1) + [v % 2 == 1]
  }

  function BytesBits(bytes: seq<nat>): (b: Bits)
    ensures |b| == 8 * |bytes|
  {
    if |bytes| == 0 then [] else ToBits(bytes[0], 8) + BytesBits(bytes[1..])
  }

  function Zeros(n: nat): (b: Bits)
    ensures |b| == n
  {
    seq(n, i => false)
  }

  /** Exclusive or. */
  function Xor(a: Bits, b: Bits): (r: Bits)
    requires |a| == |b|
    ensures |r| == |a|
  {
    seq(|a|, i requires 0 <= i < |a| => a[i] != b[i])
  }

  function ShiftRight(v: nat, n: nat): (r: nat)
  {
    if n == 0 then v else ShiftRight(v / 2, n - 1)
  }

  lemma FromMsbBound(b: Bits)
    ensures FromMsb(b) < Pow2(|b|)
  {
    if |b| != 0 { FromMsbBound(b[..|b| - 1]); }
  }

  lemma {:induction false} FromBitsConcat(a: Bits, b: Bits)
    ensures FromBits(a + b) == FromBits(a) + Pow2(|a|) * FromBits(b)
  {
    if |a| == 0 {
      assert a + b == b;
    } else {
      FromBitsConcat(a[1..], b);
      assert (a + b)[1..] == a[1..] + b;
      MulAssoc(2, Pow2(|a| - 1), FromBits(b));
    }
  }

  lemma Doubled(a: nat, p: nat, r: nat)
    ensures 2 * (a * p + r) == a * (2 * p) + 2 * r
  {
  }

  lemma {:induction false} FromMsbConcat(a: Bits, b: Bits)
    ensures FromMsb(a + b) == FromMsb(a) * Pow2(|b|) + FromMsb(b)
  {
    if |b| == 0 {
      assert a + b == a;
    } else {
      var b' := b[..|b| - 1];
      FromMsbConcat(a, b');
      assert (a + b)[..|a + b| - 1] == a + b';
      Doubled(FromMsb(a), Pow2(|b'|), FromMsb(b'));
    }
  }

  lemma {:induction false} ToBitsFromBits(b: Bits)
    ensures ToBits(FromBits(b), |b|) == b
  {
    if |b| != 0 {
      ToBitsFromBits(b[1..]);
      var v := FromBits(b);
      assert v % 2 == Bit(b[0]) && v / 2 == FromBits(b[1..]);
    }
  }

  lemma {:induction false} FromBitsToBits(v: nat, n: nat)
    requires v < Pow2(n)
    ensures FromBits(ToBits(v, n)) == v
  {
    if n != 0 {
      FromBitsToBits(v / 2, n - 1);
      assert ToBits(v, n)[1..] == ToBits(v / 2, n - 1);
    }
  }

  lemma {:induction false} FromMsbToMsb(v: nat, n: nat)
    requires v < Pow2(n)
    ensures FromMsb(ToMsb(v, n)) == v
  {
    if n != 0 {
      FromMsbToMsb(v / 2, n - 1);
      assert ToMsb(v, n)[..n - 1] == ToMsb(v / 2, n - 1);
    }
  }

  lemma {:induction false} ToMsbFromMsb(b: Bits)
    ensures ToMsb(FromMsb(b), |b|) == b
  {
    if |b| != 0 {
      var front := b[..|b| - 1];
      ToMsbFromMsb(front);
      var v := FromMsb(b);
      assert v % 2 == Bit(b[|b| - 1]) && v / 2 == FromMsb(front);
      assert b == front + [b[|b| - 1]];
    }
  }

  lemma FromBitsInjective(a: Bits, b: Bits)
    requires |a| == |b| && FromBits(a) == FromBits(b)
    ensures a == b
  {
    ToBitsFromBits(a);
    ToBitsFromBits(b);
  }

  lemma FromMsbZeros(n: nat)
    ensures FromMsb(Zeros(n)) == 0 && FromBits(Zeros(n)) == 0
  {
    if n != 0 {
      FromMsbZeros(n - 1);
      assert Zeros(n)[..n - 1] == Zeros(n - 1) == Zeros(n)[1..];
    }
  }

  /** v & (2^n - 1). */
  function Low(v: nat, n: nat): (r: nat)
    ensures r < Pow2(n)
  {
    FromBits(ToBits(v, n))
  }

  lemma {:induction false} ToBitsOfConcat(a: Bits, b: Bits)
    ensures ToBits(FromBits(a + b), |a|) == a
  {
    if |a| != 0 {
      ToBitsOfConcat(a[1..], b);
      assert (a + b)[1..] == a[1..] + b;
      var v := FromBits(a + b);
      assert v % 2 == Bit(a[0]) && v / 2 == FromBits(a[1..] + b);
    }
  }

  lemma LowOfConcat(a: Bits, b: Bits)
    ensures Low(FromBits(a + b), |a|) == FromBits(a)
  {
    ToBitsOfConcat(a, b);
  }

  lemma {:induction false} ShiftOfConcat(a: Bits, b: Bits)
    ensures ShiftRight(FromBits(a + b), |a|) == FromBits(b)
  {
    if |a| == 0 {
      assert a + b == b;
    } else {
      ShiftOfConcat(a[1..], b);
      assert (a + b)[1..] == a[1..] + b;
      assert FromBits(a + b) / 2 == FromBits(a[1..] + b);
    }
  }
}
