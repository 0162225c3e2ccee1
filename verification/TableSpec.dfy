/** inftrees.c zng_inflate_table: what a decoding table is, and when a table decodes a set of lengths. */
module TableSpec {
  import opened Bits
  import opened Canonical
  import opened SortedCode

  datatype CodeType = CODES | LENS | DISTS

  /** One table entry: struct code of inftrees.h. */
  datatype Entry = Entry(bits: nat, op: nat, val: nat)

  const LBASE: seq<nat> := [
    3, 4, 5, 6, 7, 8, 9, 10, 11, 13, 15, 17, 19, 23, 27, 31,
    35, 43, 51, 59, 67, 83, 99, 115, 131, 163, 195, 227, 258, 0, 0]
  const LEXT: seq<nat> := [
    16, 16, 16, 16, 16, 16, 16, 16, 17, 17, 17, 17, 18, 18, 18, 18,
    19, 19, 19, 19, 20, 20, 20, 20, 21, 21, 21, 21, 16, 199, 75]
  const DBASE: seq<nat> := [
    1, 2, 3, 4, 5, 7, 9, 13, 17, 25, 33, 49, 65, 97, 129, 193,
    257, 385, 513, 769, 1025, 1537, 2049, 3073, 4097, 6145,
    8193, 12289, 16385, 24577, 0, 0]
  const DEXT: seq<nat> := [
    16, 16, 16, 16, 17, 17, 18, 18, 19, 19, 20, 20, 21, 21, 22, 22,
    23, 23, 24, 24, 25, 25, 26, 26, 27, 27,
    28, 28, 29, 29, 64, 64]

  const ENOUGH_LENS: nat := 1332
  const ENOUGH_DISTS: nat := 592

  /** How many symbols a set of each type can have. */
  function MaxSymbols(ty: CodeType): (n: nat)
  {
    match ty case CODES => 19 case LENS => 288 case DISTS => 32
  }

  /** Symbols at or above this one use the base and extra tables. */
  function Match(ty: CodeType): (n: nat)
  {
    match ty case CODES => 20 case LENS => 257 case DISTS => 0
  }

  /** The entry of symbol sym when nbits bits of its code are looked up in the last table. COMBINE_OP and COMBINE_BITS
      of inflate_p.h fold the extra bits into it. */
  function EntryFor(ty: CodeType, sym: nat, nbits: nat): (e: Entry)
    requires sym < MaxSymbols(ty)
  {
    if sym >= Match(ty) then
      var k := sym - Match(ty);
      var op := if ty == LENS then LEXT[k] else DEXT[k];
      Entry(nbits + op % 16, if op / 16 % 2 == 1 then nbits + 16 else op, if ty == LENS then LBASE[k] else DBASE[k])
    else if sym + 1 < Match(ty) then Entry(nbits, 0, sym)
    else Entry(nbits, 96, 0)
  }

  const INVALID: Entry := Entry(1, 64, 0)

  /** The one- or two-step lookup finds symbol s whatever follows its code. */
  ghost predicate Placed(t: seq<Entry>, root: nat, ty: CodeType, lens: seq<nat>, s: nat)
    requires Coded(lens, s) && |lens| <= MaxSymbols(ty)
  {
    var w := Codeword(lens, s);
    Pow2(root) <= |t| &&
    if |w| <= root then
      forall v: Bits :: |v| == root && w <= v ==> t[FromBits(v)] == EntryFor(ty, s, |w|)
    else
      InSubTable(t, root, t[FromBits(w[..root])], w[root..], EntryFor(ty, s, |w| - root))
  }

  /** link points to a sub-table in which every string that starts with rest leads to e. */
  ghost predicate InSubTable(t: seq<Entry>, root: nat, link: Entry, rest: Bits, e: Entry)
  {
    link.bits == root && |rest| <= link.op <= 15 && Pow2(root) <= link.val && link.val + Pow2(link.op) <= |t| &&
    forall v: Bits :: |v| == link.op && rest <= v ==> t[link.val + FromBits(v)] == e
  }

  /** t decodes lens with root index bits: every symbol is found, and what is not coded is invalid. */
  ghost predicate Decodes(t: seq<Entry>, root: nat, ty: CodeType, lens: seq<nat>)
  {
    1 <= root <= MAX_BITS && Pow2(root) <= |t| && |lens| <= MaxSymbols(ty) &&
    (forall s :: Coded(lens, s) ==> Placed(t, root, ty, lens, s)) &&
    (!Complete(lens) ==> root == 1 && t[1] == INVALID && (Symbols(lens) == 0 ==> t[0] == INVALID))
  }

  /** The sets of lengths that the decoder accepts. */
  predicate Accepts(ty: CodeType, lens: seq<nat>)
  {
    Kraft(lens) &&
    (Complete(lens) || Symbols(lens) == 0 || (ty != CODES && Offs(lens, 2) == Symbols(lens)))
  }
}
