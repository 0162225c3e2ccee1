/** insert_string_p.h: the two hash functions. */
module HashFunctions {
  import opened Arith
  import opened Bits

  const HASH_SIZE: nat := 65536

  /** Four bytes, the first one lowest. */
  function Load32(w: seq<nat>, i: nat): (v: nat)
    requires i + 4 <= |w|
  {
    w[i] + 0x100 * w[i + 1] + 0x1_0000 * w[i + 2] + 0x100_0000 * w[i + 3]
  }

  /** UPDATE_HASH_KNUTH. */
  function HashKnuth(val: nat): (h: nat)
    ensures h < HASH_SIZE
  {
    val * 2654435761 % 0x1_0000_0000 / 0x1_0000
  }

  /** The multiplier is odd, so that the strings are spread evenly: every hash is that of exactly 65536 values of four
      bytes, which multiplying by the inverse modulo 2^32 gives. */
  lemma KnuthSpread(val: nat, x: nat)
    requires val < 0x1_0000_0000 && x < 0x1_0000_0000
    ensures var v := x * 244002641 % 0x1_0000_0000; v * 2654435761 % 0x1_0000_0000 == x && HashKnuth(v) == x / 0x1_0000
    ensures val * 2654435761 % 0x1_0000_0000 * 244002641 % 0x1_0000_0000 == val
  {
    Forth(x);
    Back(val);
  }

  lemma Forth(x: nat)
    requires x < 0x1_0000_0000
    ensures x * 244002641 % 0x1_0000_0000 * 2654435761 % 0x1_0000_0000 == x
  {
    var q, v := x * 244002641 / 0x1_0000_0000, x * 244002641 % 0x1_0000_0000;
    var c := 150801925 * x - q * 2654435761;
    assert v * 2654435761 == c * 0x1_0000_0000 + x;
    ModIs(c, x, 0x1_0000_0000);
  }

  lemma Back(x: nat)
    requires x < 0x1_0000_0000
    ensures x * 2654435761 % 0x1_0000_0000 * 244002641 % 0x1_0000_0000 == x
  {
    var q, v := x * 2654435761 / 0x1_0000_0000, x * 2654435761 % 0x1_0000_0000;
    var c := 150801925 * x - q * 244002641;
    assert v * 244002641 == c * 0x1_0000_0000 + x;
    ModIs(c, x, 0x1_0000_0000);
  }

  /** UPDATE_HASH_ROLL: ((h << 5) ^ c) & 0x7fff. */
  function HashRoll(h: nat, c: nat): (r: nat)
    ensures r < HASH_SIZE
  {
    var b := Xor(ToBits(32 * h, 15), ToBits(c % 256, 15));
    FifteenBits(b);
    FromBits(b)
  }

  lemma FifteenBits(b: Bits)
    requires |b| == 15
    ensures FromBits(b) < HASH_SIZE
  {
    hide FromBits;
    Pow2Table();
    BelowPow2(b);
  }

  /** The rolling hash of the three bytes at p. */
  function HashThree(w: seq<nat>, p: nat): (h: nat)
    requires p + 3 <= |w|
    ensures h < HASH_SIZE
  {
    HashRoll(HashRoll(HashRoll(0, w[p]), w[p + 1]), w[p + 2])
  }

  /** After three bytes nothing is left of the hash before them. */
  lemma RollThree(h: nat, a: nat, b: nat, c: nat)
    ensures HashRoll(HashRoll(HashRoll(h, a), b), c) == HashRoll(HashRoll(HashRoll(0, a), b), c)
  {
    hide HashRoll, ToBits, FromBits;
    RollAgree(h, 0, a, 0);
    RollFive(HashRoll(h, a), HashRoll(0, a), b, c);
  }

  /** The rolling hash h is what the string at p needs: with its third byte it becomes the hash of its three bytes. */
  predicate RollsAt(w: seq<nat>, h: nat, p: int)
  {
    0 <= p && p + 3 <= |w| && HashRoll(h, w[p + 2]) == HashThree(w, p)
  }

  /** And then what the next string needs. */
  lemma RollsNext(w: seq<nat>, h: nat, p: nat)
    requires RollsAt(w, h, p) && p + 4 <= |w|
    ensures RollsAt(w, HashRoll(h, w[p + 2]), p + 1) && HashRoll(h, w[p + 2]) == HashThree(w, p)
  {
    hide HashRoll;
    RollThree(HashRoll(0, w[p]), w[p + 1], w[p + 2], w[p + 3]);
  }

  /** The hash of two bytes, the first one as it is. */
  lemma RollsFirst(w: seq<nat>, p: nat)
    requires p + 3 <= |w|
    ensures RollsAt(w, HashRoll(w[p], w[p + 1]), p)
  {
    hide HashRoll, ToBits, FromBits;
    FirstAgree(w[p]);
    RollFive(w[p], HashRoll(0, w[p]), w[p + 1], w[p + 2]);
  }

  /** Hashes that agree in their five low bits are the same after two bytes. */
  lemma RollFive(x: nat, y: nat, b: nat, c: nat)
    requires ToBits(x, 15)[..5] == ToBits(y, 15)[..5]
    ensures HashRoll(HashRoll(x, b), c) == HashRoll(HashRoll(y, b), c)
  {
    hide HashRoll, ToBits, FromBits;
    RollAgree(x, y, b, 5);
    RollAgree(HashRoll(x, b), HashRoll(y, b), c, 10);
    RollRange(HashRoll(x, b), c);
    RollRange(HashRoll(y, b), c);
    BitsSize(HashRoll(HashRoll(x, b), c), 15);
    BitsSize(HashRoll(HashRoll(y, b), c), 15);
    Whole(ToBits(HashRoll(HashRoll(x, b), c), 15));
    Whole(ToBits(HashRoll(HashRoll(y, b), c), 15));
  }

  lemma FirstAgree(c: nat)
    ensures ToBits(c, 15)[..5] == ToBits(HashRoll(0, c), 15)[..5]
  {
    hide HashRoll, ToBits, FromBits;
    RollBits(0, c);
    Shifted5(0);
    BitsSize(c % 256, 15);
    BitsPrefix(c, 5, 15);
    BitsPrefix(c % 256, 5, 15);
    LowFive(c);
  }

  lemma LowFive(c: nat)
    ensures ToBits(c, 5) == ToBits(c % 256, 5)
  {
    hide ToBits;
    Pow2Table();
    LowSame(c / 256, c % 256, 8, 5);
  }

  /** Multiples of a power of two do not change the bits below it. */
  lemma {:induction false} LowSame(q: nat, d: nat, k: nat, n: nat)
    requires n <= k
    ensures ToBits(Pow2(k) * q + d, n) == ToBits(d, n)
    decreases n
  {
    if n > 0 {
      MulAssoc(2, Pow2(k - 1), q);
      OneOff(Pow2(k - 1) * q, d);
      LowSame(q, d / 2, k - 1, n - 1);
    }
  }

  lemma OneOff(x: nat, d: nat)
    ensures (2 * x + d) % 2 == d % 2 && (2 * x + d) / 2 == x + d / 2
  {
  }

  lemma Whole(b: Bits)
    requires |b| == 15
    ensures b[..15] == b
  {
  }

  /** Hashes that agree in their n low bits agree in five more after a byte. */
  lemma RollAgree(x: nat, y: nat, c: nat, n: nat)
    requires n <= 10 && ToBits(x, 15)[..n] == ToBits(y, 15)[..n]
    ensures ToBits(HashRoll(x, c), 15)[..n + 5] == ToBits(HashRoll(y, c), 15)[..n + 5]
  {
    hide ToBits, FromBits;
    RollBits(x, c);
    RollBits(y, c);
    Shifted5(x);
    Shifted5(y);
    forall i | 0 <= i < n + 5
      ensures ToBits(32 * x, 15)[i] == ToBits(32 * y, 15)[i]
    {
      if i >= 5 {
        assert ToBits(x, 15)[..n][i - 5] == ToBits(y, 15)[..n][i - 5];
      }
    }
  }

  lemma RollBits(h: nat, c: nat)
    ensures ToBits(HashRoll(h, c), 15) == Xor(ToBits(32 * h, 15), ToBits(c % 256, 15))
  {
    hide ToBits, FromBits;
    BitsSize(32 * h, 15);
    BitsSize(c % 256, 15);
    ToBitsFromBits(Xor(ToBits(32 * h, 15), ToBits(c % 256, 15)));
  }

  lemma BitsSize(v: nat, n: nat)
    ensures |ToBits(v, n)| == n
  {
  }

  /** Five zeros come in at the low end. */
  lemma Shifted5(h: nat)
    ensures |ToBits(32 * h, 15)| == 15 == |ToBits(h, 15)|
    ensures forall i :: 0 <= i < 15 ==> ToBits(32 * h, 15)[i] == (i >= 5 && ToBits(h, 15)[i - 5])
  {
    hide ToBits;
    TwiceBits(16 * h, 14);
    TwiceBits(8 * h, 13);
    TwiceBits(4 * h, 12);
    TwiceBits(2 * h, 11);
    TwiceBits(h, 10);
    BitsSize(h, 10);
    BitsPrefix(h, 10, 15);
    var b := ToBits(32 * h, 15);
    assert b == [false, false, false, false, false] + ToBits(h, 10);
  }

  lemma TwiceBits(v: nat, n: nat)
    ensures ToBits(2 * v, n + 1) == [false] + ToBits(v, n)
  {
  }

  lemma {:induction false} BitsPrefix(v: nat, n: nat, m: nat)
    requires n <= m
    ensures |ToBits(v, n)| == n && |ToBits(v, m)| == m && ToBits(v, m)[..n] == ToBits(v, n)
  {
    if n > 0 { BitsPrefix(v / 2, n - 1, m - 1); }
  }

  lemma RollRange(h: nat, c: nat)
    ensures HashRoll(h, c) == FromBits(ToBits(HashRoll(h, c), 15))
  {
    hide ToBits, FromBits;
    RollBits(h, c);
  }
}
