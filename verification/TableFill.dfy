/** inftrees.c zng_inflate_table: the loop that replicates one entry over a table. */
module TableFill {
  import opened Arith
  import opened Bits
  import opened TableSpec

  /** Slot x of a table with curr index bits is reached by strings that start with c. */
  predicate Hit(x: nat, c: Bits, curr: nat) { c <= ToBits(x, curr) }

  /** t1 is t0 with e in every slot of the table at at, from slot fill on, that c reaches. */
  ghost predicate Filled(t0: seq<Entry>, t1: seq<Entry>, at: nat, curr: nat, c: Bits, e: Entry, fill: nat)
  {
    |t1| == |t0| &&
    forall x :: 0 <= x < |t0| ==>
      t1[x] == if at + fill <= x < at + Pow2(curr) && Hit(x - at, c, curr) then e else t0[x]
  }

  /** Each run of 2^|c| slots has one slot that c reaches. */
  lemma HitUnique(x: nat, c: Bits, curr: nat, lo: nat, m: nat)
    requires |c| <= curr && x < Pow2(curr) && IsMul(lo, m, Pow2(|c|))
    requires lo <= x < lo + Pow2(|c|)
    ensures Hit(x, c, curr) <==> x == lo + FromBits(c)
  {
    hide Pow2, FromBits, ToBits, IsMul;
    var b := ToBits(x, curr);
    var n := |c|;
    assert b == b[..n] + b[n..];
    FromBitsToBits(x, curr);
    FromBitsConcat(b[..n], b[n..]);
    MulBetween(lo, m, FromBits(b[n..]), FromBits(b[..n]), Pow2(n));
    assert Hit(x, c, curr) ==> b[..n] == c;
    if x == lo + FromBits(c) {
      FromBitsInjective(b[..n], c);
    }
  }

  lemma FillStep(t0: seq<Entry>, t1: seq<Entry>, at: nat, curr: nat, c: Bits, e: Entry, lo: nat, m: nat)
    requires |c| <= curr && lo + Pow2(|c|) <= Pow2(curr) && at + Pow2(curr) <= |t0|
    requires IsMul(lo, m, Pow2(|c|))
    requires Filled(t0, t1, at, curr, c, e, lo + Pow2(|c|))
    ensures Filled(t0, t1[at + lo + FromBits(c) := e], at, curr, c, e, lo)
  {
    hide Pow2, FromBits, Hit, IsMul;
    var t2 := t1[at + lo + FromBits(c) := e];
    forall x | 0 <= x < |t0|
      ensures t2[x] == if at + lo <= x < at + Pow2(curr) && Hit(x - at, c, curr) then e else t0[x]
    {
      if at + lo <= x < at + lo + Pow2(|c|) {
        HitUnique(x - at, c, curr, lo, m);
      }
    }
  }

  /** One store of the replication loop, into the last of the unfilled slots that c reaches. */
  method Store(table: array<Entry>, slot: int, here: Entry, ghost t0: seq<Entry>, ghost at: nat, ghost curr: nat,
               ghost c: Bits, ghost fill: nat, ghost m: nat)
    requires |c| <= curr && fill <= Pow2(curr) && at + Pow2(curr) <= |t0|
    requires IsMul(fill, m, Pow2(|c|)) && fill != 0
    requires slot == at + FromBits(c) + fill - Pow2(|c|)
    requires Filled(t0, table[..], at, curr, c, here, fill)
    modifies table
    ensures m > 0 && fill >= Pow2(|c|) && IsMul(fill - Pow2(|c|), m - 1, Pow2(|c|))
    ensures Filled(t0, table[..], at, curr, c, here, fill - Pow2(|c|))
  {
    hide Pow2, FromBits, Hit, IsMul;
    MulDown(fill, m, Pow2(|c|));
    FillStep(t0, table[..], at, curr, c, here, fill - Pow2(|c|), m - 1);
    table[slot] := here;
  }

  lemma WholeTable(nbits: nat, curr: nat)
    requires nbits <= curr
    ensures IsMul(Pow2(curr), Pow2(curr - nbits), Pow2(nbits))
  {
    Pow2Add(curr - nbits, nbits);
  }

  /** Replicate here for the indices whose low bits are those of c, whose value is huff. */
  method Fill(table: array<Entry>, at: nat, curr: nat, huff: nat, nbits: nat, here: Entry, ghost c: Bits)
    requires |c| == nbits <= curr && huff == FromBits(c) && at + Pow2(curr) <= table.Length
    modifies table
    ensures Filled(old(table[..]), table[..], at, curr, c, here, 0)
  {
    hide Pow2, FromBits, Hit, IsMul;
    ghost var t0 := table[..];
    var incr := Pow2(nbits);
    var fill := Pow2(curr);
    var basePtr := at + huff;
    var step4 := incr * 4;
    ghost var m := Pow2(curr - nbits);
    WholeTable(nbits, curr);
    while fill >= step4
      invariant IsMul(fill, m, incr) && 0 <= fill <= Pow2(curr)
      invariant Filled(t0, table[..], at, curr, c, here, fill)
    {
      Store(table, basePtr + fill - incr, here, t0, at, curr, c, fill, m);
      Store(table, basePtr + fill - 2 * incr, here, t0, at, curr, c, fill - incr, m - 1);
      Store(table, basePtr + fill - 3 * incr, here, t0, at, curr, c, fill - 2 * incr, m - 2);
      Store(table, basePtr + fill - 4 * incr, here, t0, at, curr, c, fill - 3 * incr, m - 3);
      fill := fill - step4;
      m := m - 4;
    }
    while fill != 0
      invariant IsMul(fill, m, incr) && 0 <= fill <= Pow2(curr)
      invariant Filled(t0, table[..], at, curr, c, here, fill)
    {
      Store(table, basePtr + fill - incr, here, t0, at, curr, c, fill, m);
      fill := fill - incr;
      m := m - 1;
    }
  }
}
