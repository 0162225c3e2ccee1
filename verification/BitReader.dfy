/** inflate_p.h and inflate.c: the bit accumulator and the macros that fill and drain it. */
module BitReader {
  import opened Bits
  import opened BitWriter
  import opened TableSpec
  import opened InflateTable
  import opened InflateSpec
  import opened TableLookup

  lemma BytesStep(bytes: seq<nat>)
    requires |bytes| > 0
    ensures BytesBits(bytes) == ToBits(bytes[0], 8) + BytesBits(bytes[1..])
  {
  }

  lemma BytesNone()
    ensures BytesBits([]) == []
  {
  }

  /** hold and bits, and the input that has not been taken into them: next and have. */
  class BitReader {
    var hold: Word
    var bits: nat
    var input: seq<Byte>

    constructor ()
      ensures Valid() && Unread() == [] && bits == 0 && input == []
    {
      hold, bits, input := Zeros(64), 0, [];
    }

    /** Outside of inflate_fast() the accumulator is clear above its valid bits. */
    ghost predicate Valid()
      reads this
    {
      bits <= 64 && Clear(hold, bits)
    }

    /** All bits that have not been consumed. */
    ghost function Unread(): (u: Bits)
      requires bits <= 64
      reads this
    {
      hold[..bits] + BytesBits(input)
    }

    /** PULLBYTE. */
    method PullByte()
      requires Valid() && bits <= 56 && |input| > 0
      modifies this
      ensures Valid() && bits == old(bits) + 8 && Unread() == old(Unread()) && input == old(input)[1..]
    {
      hide Or, Shl, ToBits, Clear, BytesBits;
      BytesStep(input);
      var byte := ToWord(ToBits(input[0], 8));
      MergeIsAppend(hold, byte, bits);
      ghost var h := hold;
      hold := Or(hold, Shl(byte, bits));
      Appended(h, bits, ToBits(input[0], 8), hold);
      bits := bits + 8;
      input := input[1..];
    }

    /** NEEDBITS: false if the input does not suffice. */
    method NeedBits(n: nat) returns (ok: bool)
      requires Valid() && n <= 57
      modifies this
      ensures Valid() && Unread() == old(Unread()) && old(bits) <= bits
      ensures ok <==> n <= |Unread()|
      ensures ok ==> bits >= n && (bits < n + 8 || bits == old(bits))
      ensures !ok ==> input == [] && bits < n
      ensures bits % 8 == old(bits) % 8
    {
      hide Clear, BytesBits;
      ghost var pulled: nat := 0;
      while bits < n
        invariant Valid() && Unread() == old(Unread()) && bits == old(bits) + 8 * pulled
        invariant bits < n + 8 || bits == old(bits)
        decreases n + 8 - bits
      {
        if |input| == 0 {
          BytesNone();
          return false;
        }
        PullByte();
        pulled := pulled + 1;
      }
      return true;
    }

    /** DROPBITS. */
    method DropBits(n: nat)
      requires Valid() && n <= bits
      modifies this`hold, this`bits
      ensures Valid() && bits == old(bits) - n && Unread() == old(Unread())[n..]
    {
      hide Clear, BytesBits;
      Dropped(hold, bits, n, BytesBits(input));
      hold := Shr(hold, n);
      bits := bits - n;
    }

    /** BYTEBITS. */
    method ByteBits()
      requires Valid()
      modifies this`hold, this`bits
      ensures Valid() && bits == old(bits) - old(bits) % 8 && Unread() == old(Unread())[|old(Unread())| % 8..]
    {
      assert |Unread()| % 8 == bits % 8;
      DropBits(bits % 8);
    }

    /** INITBITS, when all valid bits have been used. */
    method InitBits()
      requires Valid()
      modifies this`hold, this`bits
      ensures Valid() && bits == 0 && Unread() == old(Unread())[old(bits)..]
    {
      hide BytesBits;
      hold, bits := Zeros(64), 0;
      assert Unread() == BytesBits(input) == old(Unread())[old(bits)..];
    }

    /** BITS. */
    function Peek(n: nat): (v: nat)
      requires n <= 64
      reads this
    {
      BitsOf(hold, n)
    }

    /** BITS and DROPBITS. */
    method TakeBits(n: nat) returns (v: nat)
      requires Valid() && n <= bits
      modifies this`hold, this`bits
      ensures Valid() && bits == old(bits) - n && n <= |old(Unread())| && v == Field(old(Unread()), 0, n)
      ensures Unread() == old(Unread())[n..]
    {
      hide Clear, BytesBits, BitsOf, Field;
      PeekIsField(n);
      v := Peek(n);
      DropBits(n);
    }

    /** With enough valid bits, BITS(n) is the next field of the stream. */
    lemma PeekIsField(n: nat)
      requires n <= bits <= 64
      ensures n <= |Unread()| && Peek(n) == Field(Unread(), 0, n)
    {
      assert Unread()[0..0 + n] == hold[..n];
    }

    /** The accumulator as it was, or with one byte more than did not suffice. */
    ghost predicate Pulled(bits0: nat, ty: CodeType, lens: seq<nat>)
      requires |lens| <= MaxSymbols(ty)
      reads this
    {
      bits <= 64 && (bits == bits0 || (bits0 + 8 <= bits && Lookup(ty, lens, hold[..bits - 8]) == More))
    }

    /** PULLBYTE inside of a lookup that b bits did not decide. */
    method PullMore(ghost bits0: nat, ghost ty: CodeType, ghost lens: seq<nat>) returns (ok: bool)
      requires Valid() && |lens| <= MaxSymbols(ty) && bits0 <= bits <= 30 && Lookup(ty, lens, hold[..bits]) == More
      modifies this
      ensures Valid() && Unread() == old(Unread()) && bits0 <= bits <= 40 && |input| <= old(|input|)
      ensures !ok ==> input == [] && Lookup(ty, lens, Unread()) == More
      ensures ok ==>
        Pulled(bits0, ty, lens) && |input| < old(|input|) && old(bits) <= bits && hold[..old(bits)] == old(hold[..bits])
    {
      hide Clear, BytesBits, Lookup;
      if |input| == 0 {
        BytesNone();
        assert Unread() == hold[..bits];
        return false;
      }
      ghost var h, b := hold, bits;
      PullByte();
      assert hold[..b] == Unread()[..b] == h[..b];
      return true;
    }

    /** The loop around the first table lookup. */
    method FindFirst(t: array<Entry>, root: nat, ghost ty: CodeType, ghost lens: seq<nat>)
      returns (ok: bool, here: Entry)
      requires Valid() && Decodes(t[..], root, ty, lens) && Accepts(ty, lens) && bits <= 40
      modifies this
      ensures Valid() && Unread() == old(Unread()) && old(bits) <= bits <= 40 && |lens| <= MaxSymbols(ty)
      ensures !ok ==> input == [] && Lookup(ty, lens, Unread()) == More
      ensures ok ==> BitsOf(hold, root) < t.Length && here == t[BitsOf(hold, root)] && CodeBitsOf(here) <= bits
      ensures ok ==> Pulled(old(bits), ty, lens)
    {
      hide Clear, BytesBits, Decodes, Accepts, Lookup, Recognized, BitsOf, CodeBitsOf, IsLink;
      DecodesSize(ty, lens, t[..], root);
      ok, here := true, INVALID;
      while true
        invariant Valid() && Unread() == old(Unread()) && old(bits) <= bits <= 40 && Pulled(old(bits), ty, lens)
        decreases |input|
      {
        FirstLevel(ty, lens, t[..], root, hold, bits);
        here := t[Peek(root)];
        if CodeBitsOf(here) <= bits {
          return true, here;
        }
        ok := PullMore(old(bits), ty, lens);
        if !ok { return; }
      }
    }

    /** The loop around the second table lookup. */
    method FindSecond(t: array<Entry>, root: nat, link: Entry, ghost bits0: nat, ghost ty: CodeType,
                      ghost lens: seq<nat>)
      returns (ok: bool, here: Entry)
      requires Valid() && Decodes(t[..], root, ty, lens) && Accepts(ty, lens) && bits <= 40
      requires |lens| <= MaxSymbols(ty) && bits0 <= bits && Pulled(bits0, ty, lens) && root <= bits
      requires BitsOf(hold, root) < t.Length && link == t[BitsOf(hold, root)] && IsLink(link)
      modifies this
      ensures Valid() && Unread() == old(Unread()) && old(bits) <= bits <= 40
      ensures !ok ==> input == [] && Lookup(ty, lens, Unread()) == More
      ensures ok ==> root + CodeBitsOf(here) <= bits && Recognized(ty, lens, hold[..bits], here, root)
      ensures ok ==> Pulled(bits0, ty, lens)
    {
      hide Clear, BytesBits, Decodes, Accepts, Lookup, Recognized, BitsOf, CodeBitsOf, IsLink, BitsAbove;
      ok, here := true, link;
      while true
        invariant Valid() && Unread() == old(Unread()) && old(bits) <= bits <= 40 && Pulled(bits0, ty, lens)
        invariant BitsOf(hold, root) == old(BitsOf(hold, root))
        decreases |input|
      {
        SecondLevel(ty, lens, t[..], root, hold, bits);
        here := t[link.val + BitsAbove(hold, root, link.op)];
        if root + CodeBitsOf(here) <= bits {
          return true, here;
        }
        ghost var h, b := hold, bits;
        ok := PullMore(bits0, ty, lens);
        if !ok { return; }
        SameLow(h, hold, b, root);
      }
    }

    /** A lookup in a table without links. */
    method FindShort(t: array<Entry>, root: nat, ghost ty: CodeType, ghost lens: seq<nat>)
      returns (ok: bool, here: Entry)
      requires Valid() && Decodes(t[..], root, ty, lens) && Accepts(ty, lens) && bits <= 40 && NoLonger(lens, root)
      modifies this
      ensures Valid() && Unread() == old(Unread()) && old(bits) <= bits <= 40 && |lens| <= MaxSymbols(ty)
      ensures !ok ==> input == [] && Lookup(ty, lens, Unread()) == More
      ensures ok ==> CodeBitsOf(here) <= bits && Recognized(ty, lens, Unread(), here, 0)
      ensures ok ==>
        bits < CodeBitsOf(here) + 8 || (bits == old(bits) && Recognized(ty, lens, old(hold[..bits]), here, 0))
    {
      hide Clear, BytesBits, Decodes, Accepts, Lookup, Recognized, BitsOf, CodeBitsOf, IsLink, Pulled, NoLonger;
      ok, here := FindFirst(t, root, ty, lens);
      if !ok { return; }
      FirstLevel(ty, lens, t[..], root, hold, bits);
      RecognizedMono(ty, lens, hold[..bits], BytesBits(input), here, 0);
      PulledNeed(old(bits), ty, lens, here, 0);
      assert hold[..bits] == Unread()[..bits];
      assert old(hold[..bits]) == old(Unread())[..old(bits)];
    }

    /** A whole lookup, in one table or two: the entry that finishes the code, and the bits in front of it. */
    method FindEntry(t: array<Entry>, root: nat, dist: bool, ghost ty: CodeType, ghost lens: seq<nat>)
      returns (ok: bool, here: Entry, n0: nat)
      requires dist <==> ty == DISTS
      requires Valid() && Decodes(t[..], root, ty, lens) && Accepts(ty, lens) && bits <= 40
      modifies this
      ensures Valid() && Unread() == old(Unread()) && old(bits) <= bits <= 40 && |lens| <= MaxSymbols(ty)
      ensures !ok ==> input == [] && Lookup(ty, lens, Unread()) == More
      ensures ok ==> n0 + CodeBitsOf(here) <= bits && Recognized(ty, lens, Unread(), here, n0)
      ensures ok ==>
        bits < n0 + CodeBitsOf(here) + 8 || (bits == old(bits) && Lookup(ty, lens, old(hold[..bits])) != More)
    {
      hide Clear, BytesBits, Decodes, Accepts, Lookup, Recognized, BitsOf, CodeBitsOf, IsLink, BitsAbove, Pulled;
      n0 := 0;
      DecodesSize(ty, lens, t[..], root);
      ok, here := FindFirst(t, root, ty, lens);
      if !ok { return; }
      FirstLevel(ty, lens, t[..], root, hold, bits);
      LinkTest(here);
      if here.op / 16 == 0 && (dist || here.op != 0) {
        n0 := root;
        ok, here := FindSecond(t, root, here, old(bits), ty, lens);
        if !ok { return; }
      }
      RecognizedMono(ty, lens, hold[..bits], BytesBits(input), here, n0);
      PulledNeed(old(bits), ty, lens, here, n0);
      RecognizedSome(ty, lens, hold[..bits], here, n0);
      assert hold[..bits] == Unread()[..bits];
      assert old(hold[..bits]) == old(Unread())[..old(bits)];
    }

    lemma PulledNeed(bits0: nat, ty: CodeType, lens: seq<nat>, e: Entry, n0: nat)
      requires Valid() && |lens| <= MaxSymbols(ty) && Accepts(ty, lens) && Pulled(bits0, ty, lens)
      requires Recognized(ty, lens, hold[..bits], e, n0)
      ensures bits < n0 + CodeBitsOf(e) + 8 || bits == bits0
    {
      hide Recognized, Lookup, CodeBitsOf;
      AcceptsKraft(ty, lens);
      if bits != bits0 { NeedsMore(ty, lens, hold[..bits - 8], hold[..bits], e, n0); }
    }
  }

  lemma RecognizedSome(ty: CodeType, lens: seq<nat>, u: Bits, e: Entry, n0: nat)
    requires |lens| <= MaxSymbols(ty) && Recognized(ty, lens, u, e, n0)
    ensures Lookup(ty, lens, u) != More
  {
  }

  /** The tests of op in the modes LEN and DIST single out the links. */
  lemma LinkTest(e: Entry)
    ensures IsLink(e) <==> e.op / 16 == 0 && e.op != 0
  {
  }

  lemma RecognizedMono(ty: CodeType, lens: seq<nat>, u: Bits, v: Bits, e: Entry, n0: nat)
    requires |lens| <= MaxSymbols(ty) && Accepts(ty, lens) && Recognized(ty, lens, u, e, n0)
    ensures Recognized(ty, lens, u + v, e, n0)
  {
    hide Lookup, Accepts, EntryFor, CodeBitsOf, Need;
    LookupMono(ty, lens, u, v);
  }

  lemma SameLow(h: Word, h': Word, b: nat, n: nat)
    requires n <= b <= 56 && h'[..b] == h[..b]
    ensures BitsOf(h', n) == BitsOf(h, n)
  {
    assert h'[..n] == h'[..b][..n] == h[..n];
  }

  lemma Appended(h: Word, n: nat, byte: Bits, h': Word)
    requires n <= 56 && |byte| == 8 && Clear(h, n) && h' == h[..n] + ToWord(byte)[..64 - n]
    ensures Clear(h', n + 8) && h'[..n + 8] == h[..n] + byte
  {
  }

  lemma Dropped(h: Word, b: nat, n: nat, rest: Bits)
    requires n <= b <= 64 && Clear(h, b)
    ensures Clear(Shr(h, n), b - n) && (h[..b] + rest)[n..] == Shr(h, n)[..b - n] + rest
  {
    assert Shr(h, n)[..b - n] == h[n..b];
    assert (h[..b] + rest)[n..] == h[n..b] + rest;
  }
}
