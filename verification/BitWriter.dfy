/** trees_emit.h and trees.c zng_tr_flush_bits: the 64-bit bit buffer and the pending output. The pending bytes are kept
    as their bits, eight to a byte, so that the output so far is one string. */
module BitWriter {
  import opened Bits

  function Or(a: Word, b: Word): (r: Word) { seq(64, i requires 0 <= i < 64 => a[i] || b[i]) }

  function Shl(w: Word, n: nat): (r: Word)
    requires n < 64
  {
    Zeros(n) + w[..64 - n]
  }

  function Shr(w: Word, n: nat): (r: Word)
    requires n <= 64
  {
    w[n..] + Zeros(n)
  }

  /** A value of n bits as a word. */
  function ToWord(b: Bits): (w: Word)
    requires |b| <= 64
  {
    b + Zeros(64 - |b|)
  }

  /** Bits from n on are clear. */
  predicate Clear(w: Bits, n: nat) { forall i :: n <= i < |w| ==> !w[i] }

  /** OR-ing a shifted value above the valid bits appends it. */
  lemma MergeIsAppend(buf: Word, val: Word, v: nat)
    requires v < 64 && Clear(buf, v)
    ensures Or(buf, Shl(val, v)) == buf[..v] + val[..64 - v]
  {
  }

  /** The two shifts keep what did not fit, also when nothing was in the buffer. */
  lemma SpillIsRest(val: Word, v: nat)
    requires v < 64
    ensures Shr(Shr(val, 1), 63 - v) == val[64 - v..] + Zeros(64 - v)
  {
  }

  class BitWriter {
    var biBuf: Word
    var biValid: nat
    var pending: Bits

    constructor ()
      ensures Valid() && Stream() == []
    {
      biBuf, biValid, pending := Zeros(64), 0, [];
    }

    ghost predicate Valid()
      reads this
    {
      biValid < 64 && |pending| % 8 == 0 && Clear(biBuf, biValid)
    }

    /** Every bit sent so far, in order. */
    ghost function Stream(): (s: Bits)
      requires biValid <= 64
      reads this
    {
      pending + biBuf[..biValid]
    }

    /** send_bits: append the len low bits of val, spilling a full buffer into the pending bytes. */
    method SendBits(val: Word, len: nat)
      requires Valid() && len <= 64 && Clear(val, len)
      modifies this
      ensures Valid() && Stream() == old(Stream()) + val[..len]
    {
      hide Or, Shl, Shr;
      var totalBits := biValid + len;
      ghost var v := biValid;
      MergeIsAppend(biBuf, val, v);
      SpillIsRest(val, v);
      biBuf := Or(biBuf, Shl(val, biValid));
      if totalBits >= 64 {
        totalBits := totalBits - 64;
        pending := pending + biBuf;
        biBuf := Shr(Shr(val, 1), 63 - biValid);
        assert val[..64 - v] + val[64 - v..len] == val[..len];
      }
      biValid := totalBits;
    }

    /** send_bits_merge: append without flushing; the caller guarantees room. */
    method SendBitsMerge(val: Word, len: nat)
      requires Valid() && biValid + len <= 64 && Clear(val, len)
      modifies this`biBuf, this`biValid
      ensures biValid == old(biValid) + len <= 64 && Clear(biBuf, biValid) && Stream() == old(Stream()) + val[..len]
    {
      hide Or, Shl;
      MergeIsAppend(biBuf, val, biValid);
      biBuf := Or(biBuf, Shl(val, biValid));
      biValid := biValid + len;
      assert biBuf[..biValid] == old(biBuf)[..old(biValid)] + val[..len];
    }

    /** send_bits_flush: move the complete bytes to the pending output, leaving at most seven bits. */
    method SendBitsFlush()
      requires biValid <= 64 && |pending| % 8 == 0 && Clear(biBuf, biValid)
      modifies this
      ensures Valid() && biValid < 8 && Stream() == old(Stream())
      ensures |pending| == old(|pending|) + old(biValid) / 8 * 8
    {
      var n := biValid / 8 * 8;
      pending := pending + biBuf[..n];
      biBuf := Shr(biBuf, n);
      biValid := biValid - n;
      assert biBuf[..biValid] == old(biBuf)[n..old(biValid)];
      assert old(biBuf)[..n] + old(biBuf)[n..old(biValid)] == old(biBuf)[..old(biValid)];
    }

    /** Store the n low bits and drop them from the buffer. */
    method PutLow(n: nat)
      requires n <= 64 && n % 8 == 0 && n <= biValid <= 64 && |pending| % 8 == 0 && Clear(biBuf, biValid)
      modifies this
      ensures biValid == old(biValid) - n && |pending| % 8 == 0 && Clear(biBuf, biValid) && Stream() == old(Stream())
    {
      pending := pending + biBuf[..n];
      biBuf := Shr(biBuf, n);
      biValid := biValid - n;
      assert biBuf[..biValid] == old(biBuf)[n..old(biValid)];
      assert old(biBuf)[..n] + old(biBuf)[n..old(biValid)] == old(biBuf)[..old(biValid)];
    }

    /** zng_tr_flush_bits: flush the bit buffer, keeping at most 7 bits in it. */
    method FlushBits()
      requires Valid()
      modifies this
      ensures Valid() && biValid < 8 && Stream() == old(Stream())
    {
      if biValid >= 48 {
        PutLow(48);
      } else if biValid >= 32 {
        PutLow(32);
      }
      if biValid >= 16 {
        PutLow(16);
      }
      if biValid >= 8 {
        PutLow(8);
      }
    }

    /** Store n bits of which only the first biValid are in use. */
    method PutPadded(n: nat)
      requires n <= 64 && n % 8 == 0 && biValid <= n && |pending| % 8 == 0 && Clear(biBuf, biValid)
      modifies this`pending
      ensures |pending| % 8 == 0 && pending == old(Stream()) + Zeros(n - biValid)
    {
      pending := pending + biBuf[..n];
      assert biBuf[..n] == biBuf[..biValid] + Zeros(n - biValid);
    }

    /** bi_windup: flush the bit buffer and align the output on a byte boundary. */
    method Windup()
      requires Valid()
      modifies this
      ensures Valid() && biValid == 0
      ensures exists k: nat :: k < 8 && Stream() == old(Stream()) + Zeros(k)
    {
      ghost var s0 := Stream();
      ghost var pad := 0;
      if biValid > 56 {
        PutPadded(64);
        pad := 64 - biValid;
      } else {
        WindupSmall(s0);
        pad := |pending| - |s0|;
      }
      biBuf := Zeros(64);
      biValid := 0;
      assert Stream() == pending == s0 + Zeros(pad);
    }

    /** put_short and memcpy to the pending output, once it is aligned. */
    method PutBits(b: Bits)
      requires Valid() && biValid == 0 && |b| % 8 == 0
      modifies this`pending
      ensures Valid() && Stream() == old(Stream()) + b
    {
      pending := pending + b;
    }

    /** The part of bi_windup for at most 56 bits; bi_valid is signed and may drop below zero. */
    method WindupSmall(ghost s0: Bits)
      requires Valid() && biValid <= 56 && s0 == Stream()
      modifies this
      ensures |pending| % 8 == 0 && exists k: nat :: k < 8 && pending == s0 + Zeros(k)
    {
      if biValid > 24 {
        if biValid >= 32 {
          PutLow(32);
        } else {
          PutPadded(32);
          assert pending == s0 + Zeros(32 - biValid);
          return;
        }
      }
      if biValid > 8 {
        if biValid >= 16 {
          PutLow(16);
        } else {
          PutPadded(16);
          assert pending == s0 + Zeros(16 - biValid);
          return;
        }
      }
      if biValid > 0 {
        PutPadded(8);
        assert pending == s0 + Zeros(8 - biValid);
      } else {
        assert pending == s0 + Zeros(0);
      }
    }
  }
}
