/** insert_string_p.h and slide_hash_c.c: the hash heads and the links between strings with the same hash. All that the
    search needs of them is that no entry lies at or past the string it searches for. */
module HashChains {
  import opened Arith
  import opened HashFunctions
  import opened MatchFinder

  lemma BelowUpdate(links: seq<nat>, bound: nat, i: nat, x: nat)
    requires Below(links, bound) && i < |links| && (x == 0 || x < bound)
    ensures Below(links[i := x], bound)
  {
  }

  lemma BelowMore(links: seq<nat>, a: nat, b: nat)
    requires Below(links, a) && a <= b
    ensures Below(links, b)
  {
  }

  // ---- what an insert does ----

  /** The heads and links as values. */
  datatype Chains = Chains(head: seq<nat>, prev: seq<nat>)

  /** The link of string c in a ring of w links. */
  function Slot(c: nat, w: nat): (i: nat)
    requires w > 0
    ensures i < w
  {
    c % w
  }

  /** Insert string str under hash h: it becomes the head of the chain and links to the head before it, unless it is the
      head already. */
  function Put(c: Chains, h: nat, str: nat): (c': Chains)
    requires h < |c.head| && |c.prev| > 0
    ensures |c'.head| == |c.head| && |c'.prev| == |c.prev| && c'.head[h] == str
  {
    if c.head[h] == str then c else Chains(c.head[h := str], c.prev[Slot(str, |c.prev|) := c.head[h]])
  }

  /** A link after a slide by d: strings that have left the window become ends of chains. */
  function Less(x: nat, d: nat): (y: nat) { if x >= d then x - d else 0 }

  /** Every string before lo that is less than a window before hi keeps its link, lowered by the slide d. */
  ghost predicate Kept(p: seq<nat>, p': seq<nat>, d: nat, lo: int, hi: int)
  {
    |p| == |p'| > 0 &&
    forall c: nat {:trigger Slot(c, |p|)} ::
      c < lo && hi <= c + |p| ==> p'[Slot(c, |p|)] == Less(p[Slot(c, |p|)], d)
  }

  lemma KeptAll(p: seq<nat>, lo: int, hi: int)
    requires |p| > 0
    ensures Kept(p, p, 0, lo, hi)
  {
  }

  lemma KeptLess(p: seq<nat>, p': seq<nat>, d: nat, lo: int, hi: int, lo': int, hi': int)
    requires Kept(p, p', d, lo, hi) && lo' <= lo && hi <= hi'
    ensures Kept(p, p', d, lo', hi')
  {
  }

  /** One thing after the other: what both keep is kept, lowered by both slides. */
  lemma KeptJoin(p: seq<nat>, q: seq<nat>, r: seq<nat>, d: nat, e: nat, lo: int, hi: int)
    requires Kept(p, q, d, lo, hi) && Kept(q, r, e, lo, hi)
    ensures Kept(p, r, d + e, lo, hi)
  {
  }

  lemma KeptThen(p: seq<nat>, q: seq<nat>, r: seq<nat>, lo: int, hi: int, lo': int, hi': int)
    requires Kept(p, q, 0, lo, hi) && Kept(q, r, 0, lo', hi') && lo <= lo' && hi <= hi'
    ensures Kept(p, r, 0, lo, hi')
  {
    hide Kept;
    KeptLess(p, q, 0, lo, hi, lo, hi');
    KeptLess(q, r, 0, lo', hi', lo, hi');
    KeptJoin(p, q, r, 0, 0, lo, hi');
  }

  /** The same after a slide by d, in the new numbering of the strings. */
  lemma KeptShift(p: seq<nat>, p': seq<nat>, e: nat, lo: int, hi: int, d: nat)
    requires Kept(p, p', e, lo - d, hi - d) && d % |p| == 0 && d + |p| <= hi
    ensures Kept(p, p', e, lo, hi)
  {
    forall c: nat | c < lo && hi <= c + |p|
      ensures p'[Slot(c, |p|)] == Less(p[Slot(c, |p|)], e)
    {
      SlotShift(c - d, d, |p|);
      assert Slot(c - d, |p|) == Slot(c, |p|);
    }
  }

  lemma SlotShift(c: nat, d: nat, w: nat)
    requires w > 0 && d % w == 0
    ensures Slot(c + d, w) == Slot(c, w)
  {
    ModSum(d, c, w);
  }

  /** Strings less than a window apart have different slots. */
  lemma SlotsDiffer(c: nat, str: nat, w: nat)
    requires c < str < c + w
    ensures Slot(c, w) != Slot(str, w)
  {
    if Slot(c, w) == Slot(str, w) {
      var a, b := c / w, str / w;
      DivMul(c, w);
      DivMul(str, w);
      if a < b { MulLt(a, b, w); } else { MulLe(b, a, w); }
    }
  }

  lemma SetKeeps(p: seq<nat>, str: nat, x: nat)
    requires |p| > 0
    ensures Kept(p, p[Slot(str, |p|) := x], 0, str, str + 1)
  {
    hide Slot;
    forall c: nat | c < str && str + 1 <= c + |p|
      ensures p[Slot(str, |p|) := x][Slot(c, |p|)] == p[Slot(c, |p|)]
    {
      SlotsDiffer(c, str, |p|);
    }
  }

  /** An insert leaves the links of all other strings in reach alone. */
  lemma PutKeeps(c: Chains, h: nat, str: nat)
    requires h < |c.head| && |c.prev| > 0
    ensures Kept(c.prev, Put(c, h, str).prev, 0, str, str + 1)
  {
    hide Slot, Kept;
    SetKeeps(c.prev, str, c.head[h]);
    KeptAll(c.prev, str, str + 1);
  }

  // ---- inserting several strings ----

  predicate InTable(hs: seq<nat>, n: nat) { forall i :: 0 <= i < |hs| ==> hs[i] < n }

  /** Insert one string after the other, from str on, under the hashes hs. */
  function PutAll(c: Chains, hs: seq<nat>, str: nat): (c': Chains)
    requires InTable(hs, |c.head|) && |c.prev| > 0
    ensures |c'.head| == |c.head| && |c'.prev| == |c.prev|
  {
    if hs == [] then c
    else
      var n := |hs| - 1;
      Put(PutAll(c, hs[..n], str), hs[n], str + n)
  }

  /** The hashes of count strings of four bytes each, from str on. */
  function KnuthHashes(w: seq<nat>, str: nat, count: nat): (hs: seq<nat>)
    requires str + count + 3 <= |w|
    ensures |hs| == count && InTable(hs, HASH_SIZE)
  {
    if count == 0 then [] else KnuthHashes(w, str, count - 1) + [HashKnuth(Load32(w, str + count - 1))]
  }

  /** The rolling hash after count more strings. */
  function RollHash(w: seq<nat>, h: nat, str: nat, count: nat): (h': nat)
    requires str + count + 2 <= |w|
    ensures count > 0 ==> h' < HASH_SIZE
  {
    if count == 0 then h else HashRoll(RollHash(w, h, str, count - 1), w[str + count - 1 + (STD_MIN_MATCH - 1)])
  }

  /** The rolling hashes of count strings from str on. */
  function RollHashes(w: seq<nat>, h: nat, str: nat, count: nat): (hs: seq<nat>)
    requires str + count + 2 <= |w|
    ensures |hs| == count && InTable(hs, HASH_SIZE)
  {
    if count == 0 then [] else RollHashes(w, h, str, count - 1) + [RollHash(w, h, str, count)]
  }

  lemma PutAllNone(c: Chains, str: nat)
    requires |c.prev| > 0
    ensures PutAll(c, [], str) == c
  {
  }

  lemma PutAllOn(c: Chains, hs: seq<nat>, str: nat, h: nat)
    requires InTable(hs, |c.head|) && |c.prev| > 0 && h < |c.head|
    ensures InTable(hs + [h], |c.head|) && PutAll(c, hs + [h], str) == Put(PutAll(c, hs, str), h, str + |hs|)
  {
    assert (hs + [h])[..|hs|] == hs;
  }

  lemma KnuthOn(w: seq<nat>, str: nat, n: nat)
    requires str + n + 4 <= |w|
    ensures KnuthHashes(w, str, n + 1) == KnuthHashes(w, str, n) + [HashKnuth(Load32(w, str + n))]
  {
    hide HashKnuth, Load32;
  }

  lemma RollOn(w: seq<nat>, h: nat, str: nat, n: nat)
    requires str + n + 3 <= |w|
    ensures RollHashes(w, h, str, n + 1) == RollHashes(w, h, str, n) + [RollHash(w, h, str, n + 1)]
    ensures RollHash(w, h, str, n + 1) == HashRoll(RollHash(w, h, str, n), w[str + n + (STD_MIN_MATCH - 1)])
  {
    hide HashRoll;
  }

  /** The rolling hash after n strings is what the next one needs, if it was at the first one. */
  lemma {:induction false} RollsAfter(w: seq<nat>, h: nat, str: nat, n: nat)
    requires RollsAt(w, h, str) && str + n + 3 <= |w|
    ensures RollsAt(w, RollHash(w, h, str, n), str + n)
  {
    hide HashRoll, RollsAt;
    if n > 0 {
      RollsAfter(w, h, str, n - 1);
      RollsNext(w, RollHash(w, h, str, n - 1), str + n - 1);
    }
  }

  lemma RollHashIs(w: seq<nat>, h: nat, str: nat, n: nat)
    requires n > 0 && str + n + 2 <= |w|
    ensures RollHash(w, h, str, n) == HashRoll(RollHash(w, h, str, n - 1), w[str + n + 1])
  {
    hide HashRoll;
  }

  /** First the strings before i, then those from i on. */
  lemma {:induction false} PutAllSplit(c: Chains, hs: seq<nat>, str: nat, i: nat)
    requires InTable(hs, |c.head|) && |c.prev| > 0 && i <= |hs|
    ensures InTable(hs[..i], |c.head|) && InTable(hs[i..], |c.head|)
    ensures PutAll(c, hs, str) == PutAll(PutAll(c, hs[..i], str), hs[i..], str + i)
    decreases |hs|
  {
    hide Put;
    if i == |hs| {
      assert hs[..i] == hs && hs[i..] == [];
    } else {
      var n := |hs| - 1;
      PutAllSplit(c, hs[..n], str, i);
      assert hs[..n][..i] == hs[..i] && hs[..n][i..] == hs[i..][..n - i];
    }
  }

  /** The links of all other strings in reach are left alone. */
  lemma {:induction false} PutAllOthers(c: Chains, hs: seq<nat>, str: nat, q: nat)
    requires InTable(hs, |c.head|) && |c.prev| > 0
    requires (q < str && str + |hs| <= q + |c.prev|) || str + |hs| <= q < str + |c.prev|
    ensures PutAll(c, hs, str).prev[Slot(q, |c.prev|)] == c.prev[Slot(q, |c.prev|)]
    decreases |hs|
  {
    hide Slot;
    if hs != [] {
      var n := |hs| - 1;
      PutAllOthers(c, hs[..n], str, q);
      if q < str { SlotsDiffer(q, str + n, |c.prev|); } else { SlotsDiffer(str + n, q, |c.prev|); }
    }
  }

  lemma PutAllKeeps(c: Chains, hs: seq<nat>, str: nat)
    requires InTable(hs, |c.head|) && |c.prev| > 0
    ensures Kept(c.prev, PutAll(c, hs, str).prev, 0, str, str + |hs|)
  {
    hide Slot, PutAll;
    var p := PutAll(c, hs, str).prev;
    assert |p| == |c.prev| by { PutAllSize(c, hs, str); }
    forall q: nat | q < str && str + |hs| <= q + |c.prev|
      ensures p[Slot(q, |c.prev|)] == c.prev[Slot(q, |c.prev|)]
    {
      PutAllOthers(c, hs, str, q);
    }
  }

  lemma PutAllSize(c: Chains, hs: seq<nat>, str: nat)
    requires InTable(hs, |c.head|) && |c.prev| > 0
    ensures |PutAll(c, hs, str).prev| == |c.prev| && |PutAll(c, hs, str).head| == |c.head|
  {
  }

  /** What becomes of the link of a string when it is inserted, given the head that it finds. */
  lemma PutLink(c: Chains, h: nat, str: nat)
    requires h < |c.head| && |c.prev| > 0
    ensures Put(c, h, str).prev[Slot(str, |c.prev|)] ==
            if c.head[h] == str then c.prev[Slot(str, |c.prev|)] else c.head[h]
  {
  }

  /** The same for a string of a batch: only its own turn counts. */
  lemma TurnLink(c: Chains, hs: seq<nat>, str: nat, i: nat)
    requires InTable(hs, |c.head|) && i < |hs| <= |c.prev|
    ensures InTable(hs[..i], |c.head|)
    ensures var first := PutAll(c, hs[..i], str).head[hs[i]];
      PutAll(c, hs, str).prev[Slot(str + i, |c.prev|)] ==
      if first == str + i then c.prev[Slot(str + i, |c.prev|)] else first
  {
    hide Slot, Put, PutAll;
    assert hs[..i + 1] == hs[..i] + [hs[i]];
    PutAllSplit(c, hs, str, i + 1);
    PutAllOn(c, hs[..i], str, hs[i]);
    PutAllSize(c, hs[..i], str);
    PutAllOthers(c, hs[..i], str, str + i);
    PutLink(PutAll(c, hs[..i], str), hs[i], str + i);
    PutAllSize(c, hs[..i + 1], str);
    PutAllOthers(PutAll(c, hs[..i + 1], str), hs[i + 1..], str + i + 1, str + i);
  }

  /** A string of a batch keeps the link that it had before exactly if, when its turn comes, it is the head of the chain
      of its hash or that head is what it links to anyway. */
  lemma TurnKeeps(c: Chains, hs: seq<nat>, str: nat, i: nat)
    requires InTable(hs, |c.head|) && i < |hs| <= |c.prev|
    ensures InTable(hs[..i], |c.head|)
    ensures var q, link := str + i, c.prev[Slot(str + i, |c.prev|)];
      var first := PutAll(c, hs[..i], str).head[hs[i]];
      PutAll(c, hs, str).prev[Slot(q, |c.prev|)] == link <==> first == q || first == link
  {
    hide Slot, Put, PutAll;
    TurnLink(c, hs, str, i);
    PutAllSize(c, hs, str);
    PutAllSize(c, hs[..i], str);
  }

  /** All heads and links after a slide by d. */
  function Lowered(c: Chains, d: nat): (c': Chains)
  {
    Chains(seq(|c.head|, i requires 0 <= i < |c.head| => Less(c.head[i], d)),
           seq(|c.prev|, i requires 0 <= i < |c.prev| => Less(c.prev[i], d)))
  }

  lemma LoweredParts(c: Chains, d: nat)
    ensures |Lowered(c, d).head| == |c.head| && |Lowered(c, d).prev| == |c.prev|
    ensures forall i :: 0 <= i < |c.head| ==> Lowered(c, d).head[i] == Less(c.head[i], d)
    ensures forall i :: 0 <= i < |c.prev| ==> Lowered(c, d).prev[i] == Less(c.prev[i], d)
  {
  }

  lemma LoweredNone(c: Chains)
    ensures Lowered(c, 0) == c
  {
    assert Lowered(c, 0).head == c.head;
    assert Lowered(c, 0).prev == c.prev;
  }

  lemma LoweredKeeps(c: Chains, d: nat, lo: int, hi: int)
    requires |c.prev| > 0
    ensures Kept(c.prev, Lowered(c, d).prev, d, lo, hi)
  {
  }

  // ---- the operations ----

  /** Insert string str under hash h and return the head that it replaces. */
  method InsertAt(head: array<nat>, prev: array<nat>, h: nat, str: nat, ghost a: nat, ghost b: nat) returns (hd: nat)
    requires head != prev && h < head.Length && prev.Length > 0
    requires Below(head[..], a) && Below(prev[..], a) && a <= b && str < b
    modifies head, prev
    ensures Below(head[..], b) && Below(prev[..], a) && (hd == 0 || hd < a)
    ensures Chains(head[..], prev[..]) == Put(old(Chains(head[..], prev[..])), h, str) && hd == old(head[h])
  {
    hide Below, Slot;
    BelowAt(head[..], a, h);
    hd := head[h];
    BelowMore(head[..], a, b);
    if hd != str {
      BelowUpdate(prev[..], a, Slot(str, prev.Length), hd);
      prev[Slot(str, prev.Length)] := hd;
      BelowUpdate(head[..], b, h, str);
      head[h] := str;
    }
  }

  lemma BelowAt(links: seq<nat>, bound: nat, i: nat)
    requires Below(links, bound) && i < |links|
    ensures links[i] == 0 || links[i] < bound
  {
  }

  /** insert_knuth. */
  method InsertKnuth(window: array<nat>, head: array<nat>, prev: array<nat>, str: nat, ghost a: nat, ghost b: nat)
    returns (hd: nat)
    requires head != prev && head.Length == HASH_SIZE && prev.Length > 0 && str + 4 <= window.Length
    requires Below(head[..], a) && Below(prev[..], a) && a <= b && str < b
    modifies head, prev
    ensures Below(head[..], b) && Below(prev[..], a) && (hd == 0 || hd < a)
    ensures var h := HashKnuth(Load32(old(window[..]), str));
      Chains(head[..], prev[..]) == Put(old(Chains(head[..], prev[..])), h, str) && hd == old(head[..])[h]
    ensures Kept(old(prev[..]), prev[..], 0, str, str + 1)
  {
    hide Below, HashKnuth, Put, Kept;
    var h := HashKnuth(Load32(window[..], str));
    PutKeeps(Chains(head[..], prev[..]), h, str);
    hd := InsertAt(head, prev, h, str, a, b);
  }

  /** The string heads the chain of its hash. */
  ghost predicate IsFirst(head: seq<nat>, w: seq<nat>, str: nat)
  {
    |head| == HASH_SIZE && str + 4 <= |w| && head[HashKnuth(Load32(w, str))] == str
  }

  lemma PutFirst(c: Chains, w: seq<nat>, str: nat)
    requires |c.head| == HASH_SIZE && |c.prev| > 0 && str + 4 <= |w|
    ensures IsFirst(Put(c, HashKnuth(Load32(w, str)), str).head, w, str)
  {
    hide HashKnuth, Load32;
  }

  lemma KeptOn(p: seq<nat>, q: seq<nat>, r: seq<nat>, lo: nat, hi: nat, str: nat)
    requires Kept(p, q, 0, lo, hi) && Kept(q, r, 0, str, str + 1) && lo <= str < hi
    ensures Kept(p, r, 0, lo, hi)
  {
    hide Kept;
    KeptLess(q, r, 0, str, str + 1, lo, hi);
    KeptJoin(p, q, r, 0, 0, lo, hi);
  }

  /** insert_knuth_batch. */
  method InsertKnuthBatch(window: array<nat>, head: array<nat>, prev: array<nat>, str: nat, count: nat, ghost b: nat)
    requires head != prev && head != window && prev != window && head.Length == HASH_SIZE && prev.Length > 0
    requires str + count + 3 <= window.Length && Below(head[..], b) && Below(prev[..], b) && str + count <= b
    modifies head, prev
    ensures Below(head[..], b) && Below(prev[..], b) && Kept(old(prev[..]), prev[..], 0, str, str + count)
    ensures Chains(head[..], prev[..]) ==
            PutAll(old(Chains(head[..], prev[..])), KnuthHashes(old(window[..]), str, count), str)
  {
    hide Below, Kept, PutAll, Put, HashKnuth, Load32;
    ghost var w, c := window[..], Chains(head[..], prev[..]);
    assert KnuthHashes(w, str, 0) == [];
    PutAllNone(c, str);
    for idx := str to str + count
      invariant Below(head[..], b) && Below(prev[..], b)
      invariant Chains(head[..], prev[..]) == PutAll(c, KnuthHashes(w, str, idx - str), str)
    {
      KnuthOn(w, str, idx - str);
      PutAllOn(c, KnuthHashes(w, str, idx - str), str, HashKnuth(Load32(w, idx)));
      var _ := InsertKnuth(window, head, prev, idx, b, b);
    }
    PutAllKeeps(c, KnuthHashes(w, str, count), str);
  }

  /** insert_roll: the hash of the last three bytes is carried along. */
  method InsertRoll(window: array<nat>, head: array<nat>, prev: array<nat>, insH: nat, str: nat, ghost a: nat,
                    ghost b: nat)
    returns (hd: nat, insH': nat)
    requires head != prev && head.Length == HASH_SIZE && prev.Length > 0 && str + 3 <= window.Length
    requires Below(head[..], a) && Below(prev[..], a) && a <= b && str < b
    modifies head, prev
    ensures Below(head[..], b) && Below(prev[..], a) && (hd == 0 || hd < a)
    ensures insH' == HashRoll(insH, old(window[str + (STD_MIN_MATCH - 1)]))
    ensures Chains(head[..], prev[..]) == Put(old(Chains(head[..], prev[..])), insH', str) && hd == old(head[..])[insH']
    ensures Kept(old(prev[..]), prev[..], 0, str, str + 1)
  {
    hide Below, HashRoll, Put, Kept;
    insH' := HashRoll(insH, window[str + (STD_MIN_MATCH - 1)]);
    PutKeeps(Chains(head[..], prev[..]), insH', str);
    hd := InsertAt(head, prev, insH', str, a, b);
  }

  /** insert_roll_batch. */
  method InsertRollBatch(window: array<nat>, head: array<nat>, prev: array<nat>, insH: nat, str: nat, count: nat,
                         ghost b: nat)
    returns (insH': nat)
    requires head != prev && head != window && prev != window && head.Length == HASH_SIZE && prev.Length > 0
    requires str + count + 2 <= window.Length && Below(head[..], b) && Below(prev[..], b) && str + count <= b
    modifies head, prev
    ensures Below(head[..], b) && Below(prev[..], b) && Kept(old(prev[..]), prev[..], 0, str, str + count)
    ensures Chains(head[..], prev[..]) ==
            PutAll(old(Chains(head[..], prev[..])), RollHashes(old(window[..]), insH, str, count), str)
    ensures insH' == RollHash(old(window[..]), insH, str, count)
  {
    hide Below, Kept, PutAll, Put, HashRoll;
    insH' := insH;
    ghost var w, c := window[..], Chains(head[..], prev[..]);
    assert RollHashes(w, insH, str, 0) == [];
    PutAllNone(c, str);
    for idx := str to str + count
      invariant Below(head[..], b) && Below(prev[..], b) && insH' == RollHash(w, insH, str, idx - str)
      invariant Chains(head[..], prev[..]) == PutAll(c, RollHashes(w, insH, str, idx - str), str)
    {
      RollOn(w, insH, str, idx - str);
      PutAllOn(c, RollHashes(w, insH, str, idx - str), str, RollHash(w, insH, str, idx - str + 1));
      var hd;
      hd, insH' := InsertRoll(window, head, prev, insH', idx, b, b);
    }
    PutAllKeeps(c, RollHashes(w, insH, str, count), str);
  }

  /** The links after count strings from str on have been marked as ends of their chains. */
  function Skipped(p: seq<nat>, str: nat, count: nat): (q: seq<nat>)
    requires |p| > 0
    ensures |q| == |p|
  {
    if count == 0 then p else Skipped(p, str, count - 1)[Slot(str + count - 1, |p|) := 0]
  }

  /** Every skipped string is the end of its chain. */
  lemma {:induction false} SkippedEnds(p: seq<nat>, str: nat, count: nat, i: nat)
    requires |p| > 0 && i < count
    ensures Skipped(p, str, count)[Slot(str + i, |p|)] == 0
  {
    hide Slot;
    if i < count - 1 { SkippedEnds(p, str, count - 1, i); }
  }

  /** insert_skip: the strings are marked as ends of their chains. */
  method InsertSkip(prev: array<nat>, str: nat, count: nat, ghost b: nat)
    requires prev.Length > 0 && Below(prev[..], b)
    modifies prev
    ensures Below(prev[..], b) && Kept(old(prev[..]), prev[..], 0, str, str + count)
    ensures prev[..] == Skipped(old(prev[..]), str, count)
  {
    hide Below, Kept, Slot;
    KeptAll(prev[..], str, str + count);
    for i := 0 to count
      invariant Below(prev[..], b) && Kept(old(prev[..]), prev[..], 0, str, str + count)
      invariant prev[..] == Skipped(old(prev[..]), str, i)
    {
      ghost var p := prev[..];
      BelowUpdate(prev[..], b, Slot(str + i, prev.Length), 0);
      prev[Slot(str + i, prev.Length)] := 0;
      assert prev[..] == p[Slot(str + i, |p|) := 0];
      SetKeeps(p, str + i, 0);
      KeptOn(old(prev[..]), p, prev[..], str, str + count, str + i);
    }
  }

  lemma SkippedSize(p: seq<nat>, str: nat, count: nat)
    requires |p| > 0
    ensures |Skipped(p, str, count)| == |p|
  {
  }

  /** What insert_knuth_batch_tail and insert_roll_batch_tail do to the chains. */
  function TailPut(c: Chains, w: seq<nat>, roll: bool, str: nat, count: nat, tail: nat): (c': Chains)
    requires |c.head| == HASH_SIZE && |c.prev| > 0 && tail < count && str + count + 3 <= |w|
  {
    var at := str + (count - tail);
    PutAll(Chains(c.head, Skipped(c.prev, str, count - tail)),
           if roll then RollHashes(w, HashRoll(w[at], w[at + 1]), at, tail) else KnuthHashes(w, at, tail), at)
  }

  /** The rolling hash after that. */
  function TailRoll(w: seq<nat>, roll: bool, insH: nat, str: nat, count: nat, tail: nat): (h: nat)
    requires tail < count && str + count + 3 <= |w|
  {
    var at := str + (count - tail);
    if roll then RollHash(w, HashRoll(w[at], w[at + 1]), at, tail) else insH
  }

  /** insert_knuth_batch_tail and insert_roll_batch_tail: only the last tail strings of a batch. */
  method InsertTail(window: array<nat>, head: array<nat>, prev: array<nat>, roll: bool, insH: nat, str: nat, count: nat,
                    tail: nat, ghost b: nat)
    returns (insH': nat)
    requires head != prev && head != window && prev != window && head.Length == HASH_SIZE && prev.Length > 0
    requires str + count + 3 <= window.Length && Below(head[..], b) && Below(prev[..], b) && str + count <= b &&
      tail < count
    modifies head, prev
    ensures Below(head[..], b) && Below(prev[..], b) && Kept(old(prev[..]), prev[..], 0, str, str + count)
    ensures Chains(head[..], prev[..]) ==
            TailPut(old(Chains(head[..], prev[..])), old(window[..]), roll, str, count, tail)
    ensures insH' == TailRoll(old(window[..]), roll, insH, str, count, tail)
  {
    hide Below, HashRoll, Kept, PutAll, KnuthHashes, RollHashes, RollHash, Skipped;
    var skip := count - tail;
    ghost var c := Chains(head[..], prev[..]);
    SkippedSize(c.prev, str, skip);
    InsertSkip(prev, str, skip, b);
    ghost var p := prev[..];
    insH' := insH;
    if roll {
      insH' := HashRoll(window[str + skip], window[str + skip + 1]);
      insH' := InsertRollBatch(window, head, prev, insH', str + skip, tail, b);
    } else {
      InsertKnuthBatch(window, head, prev, str + skip, tail, b);
    }
    KeptLess(old(prev[..]), p, 0, str, str + skip, str, str + count);
    KeptLess(p, prev[..], 0, str + skip, str + count, str, str + count);
    KeptJoin(old(prev[..]), p, prev[..], 0, 0, str, str + count);
  }

  // ---- spread inserts ----

  /** The fixed-point step of insert_knuth_stepped. */
  function Step(count: nat, k: nat): (inc: nat)
    requires k >= 1 && count >= 1
  {
    ((count - 1) * 65536 + (k - 1)) / k
  }

  /** The index after i steps stays inside of the match. */
  lemma StepInside(count: nat, k: nat, i: nat, off: int)
    requires 1 <= k <= 257 && i <= k && count >= 1 && IsMul(off, i, Step(count, k))
    ensures 0 <= off < count * 65536
  {
    var a, inc := (count - 1) * 65536, Step(count, k);
    DivMul(a + (k - 1), k);
    MulLe(i, k, inc);
  }

  lemma StepOn(i: nat, inc: nat, off: int)
    requires IsMul(off, i, inc)
    ensures IsMul(off + inc, i + 1, inc)
  {
    Distrib(i, 1, inc);
  }

  /** The last step ends at the last string. */
  lemma StepLast(count: nat, k: nat, off: int)
    requires 1 <= k <= 257 && count >= 1 && IsMul(off, k, Step(count, k))
    ensures (count - 1) * 65536 <= off
  {
    var a := (count - 1) * 65536;
    DivMul(a + (k - 1), k);
  }

  lemma StepNone(inc: nat)
    ensures IsMul(0, 0, inc)
  {
  }

  // ---- what spread inserts do ----

  predicate Fit(ps: seq<nat>, n: nat) { forall i :: 0 <= i < |ps| ==> ps[i] + 4 <= n }

  /** Insert the strings at the places ps, one after the other, under the hashes of their four bytes. */
  function PutEach(c: Chains, w: seq<nat>, ps: seq<nat>): (c': Chains)
    requires |c.head| == HASH_SIZE && |c.prev| > 0 && Fit(ps, |w|)
    ensures |c'.head| == HASH_SIZE && |c'.prev| == |c.prev|
  {
    if ps == [] then c
    else
      var n := |ps| - 1;
      Put(PutEach(c, w, ps[..n]), HashKnuth(Load32(w, ps[n])), ps[n])
  }

  lemma PutEachOn(c: Chains, w: seq<nat>, ps: seq<nat>, p: nat)
    requires |c.head| == HASH_SIZE && |c.prev| > 0 && Fit(ps, |w|) && p + 4 <= |w|
    ensures Fit(ps + [p], |w|) && PutEach(c, w, ps + [p]) == Put(PutEach(c, w, ps), HashKnuth(Load32(w, p)), p)
    ensures |PutEach(c, w, ps).head| == HASH_SIZE && |PutEach(c, w, ps).prev| == |c.prev|
  {
    hide HashKnuth, Load32;
    assert (ps + [p])[..|ps|] == ps;
  }

  lemma {:induction false} PutEachJoin(c: Chains, w: seq<nat>, ps: seq<nat>, qs: seq<nat>)
    requires |c.head| == HASH_SIZE && |c.prev| > 0 && Fit(ps, |w|) && Fit(qs, |w|)
    ensures Fit(ps + qs, |w|)
    ensures |PutEach(c, w, ps).head| == HASH_SIZE && |PutEach(c, w, ps).prev| == |c.prev|
    ensures PutEach(c, w, ps + qs) == PutEach(PutEach(c, w, ps), w, qs)
    decreases |qs|
  {
    hide HashKnuth, Load32;
    if qs == [] {
      assert ps + qs == ps;
    } else {
      var n := |qs| - 1;
      PutEachJoin(c, w, ps, qs[..n]);
      assert (ps + qs)[..|ps| + n] == ps + qs[..n];
    }
  }

  /** Consecutive places are a batch. */
  lemma {:induction false} PutEachBatch(c: Chains, w: seq<nat>, str: nat, n: nat)
    requires |c.head| == HASH_SIZE && |c.prev| > 0 && str + n + 3 <= |w|
    ensures Fit(FromTo(str, n), |w|) && PutEach(c, w, FromTo(str, n)) == PutAll(c, KnuthHashes(w, str, n), str)
  {
    hide HashKnuth, Load32;
    if n == 0 {
      PutAllNone(c, str);
    } else {
      hide *;
      PutEachBatch(c, w, str, n - 1);
      FromToOn(str, n - 1);
      PutEachOn(c, w, FromTo(str, n - 1), str + n - 1);
      KnuthOn(w, str, n - 1);
      KnuthCount(w, str, n - 1);
      PutAllOn(c, KnuthHashes(w, str, n - 1), str, HashKnuth(Load32(w, str + n - 1)));
    }
  }

  lemma KnuthCount(w: seq<nat>, str: nat, n: nat)
    requires str + n + 3 <= |w|
    ensures |KnuthHashes(w, str, n)| == n && InTable(KnuthHashes(w, str, n), HASH_SIZE)
  {
  }

  function FromTo(str: nat, n: nat): (ps: seq<nat>)
    ensures |ps| == n
  {
    seq(n, i requires 0 <= i < n => str + i)
  }

  lemma FromToOn(str: nat, n: nat)
    ensures FromTo(str, n + 1) == FromTo(str, n) + [str + n]
  {
  }

  /** n places spread over count strings from str on. */
  function Spread(str: nat, count: nat, n: nat): (ps: seq<nat>)
    requires count >= 1 && n >= 2
    ensures |ps| == n
  {
    seq(n, i requires 0 <= i < n => SpreadPlace(str, Step(count, n - 1), i))
  }

  /** The place after i fixed-point steps. */
  function SpreadPlace(str: nat, inc: nat, i: nat): (p: nat)
  {
    str + Times(i, inc) / 65536
  }

  /** The fixed-point steps lose nothing: place i lies i parts of n - 1 along the way from the first string to the
      last. */
  lemma SpreadExact(str: nat, count: nat, n: nat, i: nat)
    requires 2 <= n <= count <= 258 && i < n
    ensures Spread(str, count, n)[i] == str + i * (count - 1) / (n - 1)
  {
    hide *;
    var k, a := n - 1, count - 1;
    var inc := Step(count, k);
    PlaceOf(str, count, n, i);
    StepRounds(count, k);
    var e := inc * k - 65536 * a;
    SmallProduct(i, e, k, a, inc);
    StepsAlong(i, inc, k, a, e);
    DivMul(i * a, k);
    WholePart(i * inc, i * a / k, k, i * a, i * e);
  }

  lemma PlaceOf(str: nat, count: nat, n: nat, i: nat)
    requires 2 <= n <= count && i < n
    ensures Spread(str, count, n)[i] == str + i * Step(count, n - 1) / 65536
  {
    hide Step;
  }

  lemma StepsAlong(i: nat, inc: nat, k: nat, a: nat, e: nat)
    requires inc * k == 65536 * a + e
    ensures i * inc * k == 65536 * (i * a) + i * e
  {
    MulAssoc(i, inc, k);
    DistribLeft(i, 65536 * a, e);
    MulAssoc(i, 65536, a);
    MulAssoc(65536, i, a);
  }

  lemma StepRounds(count: nat, k: nat)
    requires 1 <= k && 1 <= count
    ensures 0 <= Step(count, k) * k - 65536 * (count - 1) < k
  {
    DivMul((count - 1) * 65536 + (k - 1), k);
  }

  lemma SmallProduct(i: nat, e: nat, k: nat, a: nat, inc: nat)
    requires i <= k <= a <= 257 && e < k && e == inc * k - 65536 * a
    ensures i * e < 65536
  {
    if k == 257 {
      assert e == 257 * (inc - 65536);
    } else {
      MulLe(i, 256, e);
      assert 256 * e <= 256 * 255;
    }
  }

  lemma WholePart(y: nat, q: nat, k: nat, x: nat, e: nat)
    requires k > 0 && y * k == 65536 * x + e && q * k <= x < q * k + k && e < 65536
    ensures y / 65536 == q
  {
    MulAssoc(65536, q, k);
    Distrib(65536 * q, 65536, k);
    if y < 65536 * q {
      MulLt(y, 65536 * q, k);
    } else if 65536 * q + 65536 <= y {
      MulLe(65536 * q + 65536, y, k);
    }
  }

  /** The places that insert_knuth_spread inserts. */
  function SpreadAt(str: nat, count: nat, maxInserts: nat): (ps: seq<nat>)
    requires count >= 3 && maxInserts >= 2
  {
    if maxInserts > 3 then Spread(str, count, if count < maxInserts then count else maxInserts)
    else if maxInserts == 3 then [str, str + (count - 1) / 2, str + count - 1]
    else [str, str + count - 1]
  }

  /** insert_knuth_stepped: at most maxInserts strings, spread over the match, the last one included. */
  method InsertStepped(window: array<nat>, head: array<nat>, prev: array<nat>, str: nat, count: nat, maxInserts: nat,
                       ghost b: nat)
    requires head != prev && head != window && prev != window && head.Length == HASH_SIZE && prev.Length > 0
    requires 3 <= count <= 258 && 2 <= maxInserts
    requires str + count + 3 <= window.Length && Below(head[..], b) && Below(prev[..], b) && str + count <= b
    modifies head, prev
    ensures Below(head[..], b) && Below(prev[..], b) && Kept(old(prev[..]), prev[..], 0, str, str + count)
    ensures IsFirst(head[..], window[..], str + count - 1)
    ensures var ps := Spread(str, count, if count < maxInserts then count else maxInserts);
      Fit(ps, window.Length) &&
      Chains(head[..], prev[..]) == PutEach(old(Chains(head[..], prev[..])), old(window[..]), ps)
  {
    hide Below, Kept, IsFirst, HashKnuth, Load32, Put;
    ghost var c, w := Chains(head[..], prev[..]), window[..];
    var inserts := if count < maxInserts then count else maxInserts;
    var intervals := inserts - 1;
    var inc := Step(count, intervals);
    hide Step, IsMul, PutEach;
    var off := 0;
    StepNone(inc);
    ghost var ps := Spread(str, count, inserts);
    assert ps[..0] == [];
    NoPut(c, w);
    KeptAll(prev[..], str, str + count);
    for i := 0 to inserts
      invariant IsMul(off, i, inc) && Below(head[..], b) && Below(prev[..], b) &&
        Kept(old(prev[..]), prev[..], 0, str, str + count)
      invariant i == inserts ==> IsFirst(head[..], window[..], str + count - 1)
      invariant Fit(ps[..i], |w|) && Chains(head[..], prev[..]) == PutEach(c, w, ps[..i])
    {
      StepInside(count, intervals, i, off);
      if i == intervals { StepLast(count, intervals, off); }
      var idx := (str * 65536 + off) / 65536;
      assert idx == ps[i] by { MulIs(off, i, inc); }
      assert ps[..i + 1] == ps[..i] + [ps[i]];
      PutEachOn(c, w, ps[..i], ps[i]);
      StepOn(i, inc, off);
      off := off + inc;
      InsertWithin(window, head, prev, idx, str, str + count, b, old(prev[..]));
    }
    assert ps[..inserts] == ps;
  }

  lemma MulIs(off: int, i: nat, inc: nat)
    requires IsMul(off, i, inc)
    ensures off == i * inc
  {
  }

  lemma NoPut(c: Chains, w: seq<nat>)
    requires |c.head| == HASH_SIZE && |c.prev| > 0
    ensures PutEach(c, w, []) == c
  {
  }

  lemma OnePut(c: Chains, w: seq<nat>, p: nat)
    requires |c.head| == HASH_SIZE && |c.prev| > 0 && p + 4 <= |w|
    ensures Fit([p], |w|) && PutEach(c, w, [p]) == Put(c, HashKnuth(Load32(w, p)), p)
  {
    hide HashKnuth, Load32;
    NoPut(c, w);
    PutEachOn(c, w, [], p);
    assert [] + [p] == [p];
  }

  /** insert_knuth_spread: the first string, the last one, and perhaps one between them. */
  method InsertSpread(window: array<nat>, head: array<nat>, prev: array<nat>, str: nat, count: nat, maxInserts: nat,
                      ghost b: nat)
    requires head != prev && head != window && prev != window && head.Length == HASH_SIZE && prev.Length > 0
    requires 3 <= count <= 258 && 2 <= maxInserts
    requires str + count + 3 <= window.Length && Below(head[..], b) && Below(prev[..], b) && str + count <= b
    modifies head, prev
    ensures Below(head[..], b) && Below(prev[..], b) && Kept(old(prev[..]), prev[..], 0, str, str + count)
    ensures IsFirst(head[..], window[..], str + count - 1)
    ensures Fit(SpreadAt(str, count, maxInserts), window.Length)
    ensures Chains(head[..], prev[..]) ==
            PutEach(old(Chains(head[..], prev[..])), old(window[..]), SpreadAt(str, count, maxInserts))
  {
    hide Below, Kept, IsFirst, HashKnuth, Load32, Put, PutEach, Spread;
    ghost var c, w := Chains(head[..], prev[..]), window[..];
    if maxInserts > 3 {
      InsertStepped(window, head, prev, str, count, maxInserts, b);
      return;
    }
    OnePut(c, w, str);
    PutEachOn(c, w, [str], str + count - 1);
    PutEachOn(c, w, [str], str + (count - 1) / 2);
    PutEachOn(c, w, [str] + [str + (count - 1) / 2], str + count - 1);
    assert [str] + [str + (count - 1) / 2] + [str + count - 1] == [str, str + (count - 1) / 2, str + count - 1];
    assert [str] + [str + count - 1] == [str, str + count - 1];
    KeptAll(prev[..], str, str + count);
    InsertWithin(window, head, prev, str, str, str + count, b, prev[..]);
    if maxInserts == 3 {
      InsertWithin(window, head, prev, str + (count - 1) / 2, str, str + count, b, old(prev[..]));
    }
    InsertWithin(window, head, prev, str + count - 1, str, str + count, b, old(prev[..]));
  }

  /** One of the inserts of a match. */
  method InsertWithin(window: array<nat>, head: array<nat>, prev: array<nat>, str: nat, ghost lo: nat, ghost hi: nat,
                      ghost b: nat, ghost p: seq<nat>)
    requires head != prev && head != window && prev != window && head.Length == HASH_SIZE && prev.Length > 0
    requires str + 4 <= window.Length && lo <= str < hi
    requires Below(head[..], b) && Below(prev[..], b) && str < b && Kept(p, prev[..], 0, lo, hi)
    modifies head, prev
    ensures Below(head[..], b) && Below(prev[..], b) && Kept(p, prev[..], 0, lo, hi)
    ensures IsFirst(head[..], window[..], str)
    ensures Chains(head[..], prev[..]) ==
            Put(old(Chains(head[..], prev[..])), HashKnuth(Load32(old(window[..]), str)), str)
  {
    hide Below, Kept, Put, HashKnuth, Load32;
    ghost var q, c := prev[..], Chains(head[..], prev[..]);
    PutFirst(c, window[..], str);
    var _ := InsertKnuth(window, head, prev, str, b, b);
    KeptOn(p, q, prev[..], lo, hi, str);
  }

  // ---- sliding ----

  /** slide_hash_c_chain. */
  method SlideChain(table: array<nat>, wsize: nat, ghost bound: nat)
    requires Below(table[..], bound) && wsize <= bound
    modifies table
    ensures Below(table[..], bound - wsize)
    ensures forall i :: 0 <= i < table.Length ==>
      table[i] == Less(old(table[i]), wsize)
  {
    for i := 0 to table.Length
      invariant forall j :: 0 <= j < i ==> table[j] == Less(old(table[j]), wsize)
      invariant forall j :: i <= j < table.Length ==> table[j] == old(table[j])
    {
      var m := table[i];
      table[i] := if m >= wsize then m - wsize else 0;
    }
    forall i | 0 <= i < table.Length
      ensures table[i] == 0 || table[i] < bound - wsize
    {
      assert old(table[..])[i] == old(table[i]);
    }
  }

  /** slide_hash_c. */
  method SlideHash(head: array<nat>, prev: array<nat>, slide: nat, ghost bound: nat)
    requires head != prev && Below(head[..], bound) && Below(prev[..], bound) && slide <= bound
    modifies head, prev
    ensures Below(head[..], bound - slide) && Below(prev[..], bound - slide)
    ensures Chains(head[..], prev[..]) == Lowered(old(Chains(head[..], prev[..])), slide)
  {
    hide Below;
    ghost var c := Chains(head[..], prev[..]);
    SlideChain(head, slide, bound);
    SlideChain(prev, slide, bound);
    assert head[..] == Lowered(c, slide).head;
    assert prev[..] == Lowered(c, slide).prev;
  }
}
