/** The arithmetic of length limiting in trees.c gen_bitlen, on the number of codes of each length. */
module LengthCounts {
  import opened Arith
  import opened Bits
  import opened Counting
  import opened Canonical

  /** The Kraft sum of counts for the lengths 1..b, in units of 2^-m. */
  function CountKraft(cnt: seq<nat>, m: nat, b: nat): (r: nat)
    requires b <= m < |cnt|
  {
    if b == 0 then 0 else CountKraft(cnt, m, b - 1) + cnt[b] * Pow2(m - b)
  }

  /** The number of codes of the lengths 1..b. */
  function CountSum(cnt: seq<nat>, b: nat): (r: nat)
    requires b < |cnt|
  {
    if b == 0 then 0 else CountSum(cnt, b - 1) + cnt[b]
  }

  lemma {:induction false} KraftUpdate(cnt: seq<nat>, m: nat, b: nat, j: nat, v: nat)
    requires b <= m < |cnt| && 1 <= j <= m
    ensures CountKraft(cnt[j := v], m, b) ==
      CountKraft(cnt, m, b) + (if j <= b then v * Pow2(m - j) - cnt[j] * Pow2(m - j) else 0)
  {
    hide Pow2;
    if b > 0 { KraftUpdate(cnt, m, b - 1, j, v); }
  }

  lemma {:induction false} SumUpdate(cnt: seq<nat>, b: nat, j: nat, v: nat)
    requires b < |cnt| && 1 <= j < |cnt|
    ensures CountSum(cnt[j := v], b) == CountSum(cnt, b) + (if j <= b then v - cnt[j] else 0)
  {
    if b > 0 { SumUpdate(cnt, b - 1, j, v); }
  }

  /** If only the longest length is in use, the Kraft sum is the number of codes. */
  lemma {:induction false} NoneShorter(cnt: seq<nat>, m: nat, b: nat)
    requires b <= m < |cnt| && forall j :: 1 <= j <= b ==> cnt[j] == 0
    ensures CountKraft(cnt, m, b) == 0 && CountSum(cnt, b) == 0
  {
    if b > 0 {
      NoneShorter(cnt, m, b - 1);
      assert 0 * Pow2(m - b) == 0;
    }
  }

  /** Something can be moved down as long as the codes are over-subscribed. */
  lemma SomeShorter(cnt: seq<nat>, m: nat, n: nat)
    requires 1 <= m < |cnt| && CountKraft(cnt, m, m) > Pow2(m) && CountSum(cnt, m) == n <= Pow2(m)
    ensures exists j :: 1 <= j < m && cnt[j] > 0
  {
    assert Pow2(0) == 1;
    if forall j :: 1 <= j < m ==> cnt[j] == 0 {
      NoneShorter(cnt, m, m - 1);
    }
  }

  /** Move one leaf down the tree, with one overflow item as its brother. */
  function MoveDown(cnt: seq<nat>, bits: nat, m: nat): (r: seq<nat>)
    requires 1 <= bits < m < |cnt| && cnt[bits] > 0 && cnt[m] > 0
  {
    var c1 := cnt[bits := cnt[bits] - 1];
    var c2 := c1[bits + 1 := c1[bits + 1] + 2];
    c2[m := c2[m] - 1]
  }

  lemma UnitArith(c: nat, d: nat, e: nat, p: nat, q: nat)
    requires c > 0 && e > 0 && p == 2 * q
    ensures (c - 1) * p - c * p + ((d + 2) * q - d * q) + ((e - 1) * 1 - e * 1) == -1
  {
    Distrib(c - 1, 1, p);
    Distrib(d, 2, q);
  }

  /** A move conserves the number of codes and takes one unit off the Kraft sum. */
  lemma MoveDownEffect(cnt: seq<nat>, bits: nat, m: nat)
    requires 1 <= bits < m < |cnt| && cnt[bits] > 0 && cnt[m] > 0
    ensures |MoveDown(cnt, bits, m)| == |cnt|
    ensures CountKraft(MoveDown(cnt, bits, m), m, m) == CountKraft(cnt, m, m) - 1
    ensures CountSum(MoveDown(cnt, bits, m), m) == CountSum(cnt, m)
    ensures MoveDown(cnt, bits, m)[m] >= cnt[m] - 1
  {
    hide CountKraft, CountSum, Pow2;
    var c1 := cnt[bits := cnt[bits] - 1];
    var c2 := c1[bits + 1 := c1[bits + 1] + 2];
    KraftUpdate(cnt, m, m, bits, cnt[bits] - 1);
    KraftUpdate(c1, m, m, bits + 1, c1[bits + 1] + 2);
    KraftUpdate(c2, m, m, m, c2[m] - 1);
    SumUpdate(cnt, m, bits, cnt[bits] - 1);
    SumUpdate(c1, m, bits + 1, c1[bits + 1] + 2);
    SumUpdate(c2, m, m, c2[m] - 1);
    assert Pow2(m - bits) == 2 * Pow2(m - bits - 1) && Pow2(m - m) == 1 by { Pow2Facts(m - bits); }
    UnitArith(cnt[bits], c1[bits + 1], c2[m], Pow2(m - bits), Pow2(m - bits - 1));
  }

  lemma Pow2Facts(n: nat)
    requires n > 0
    ensures Pow2(n) == 2 * Pow2(n - 1) && Pow2(0) == 1
  {
  }

  // ---- which lengths are touched ----

  /** How many moves the codes of the lengths from b to j - 1 can make before all of them have m bits. */
  function Slack(cnt: seq<nat>, m: nat, b: nat, j: nat): (n: nat)
    requires j <= m < |cnt|
    decreases j
  {
    if j <= b then 0 else Slack(cnt, m, b, j - 1) + cnt[j - 1] * (Pow2(m - (j - 1)) - 1)
  }

  lemma {:induction false} SlackUpdate(cnt: seq<nat>, m: nat, b: nat, j: nat, i: nat, v: nat)
    requires j <= m < |cnt| && i < |cnt|
    ensures Slack(cnt[i := v], m, b, j) == Slack(cnt, m, b, j) +
      (if b <= i < j then v * (Pow2(m - i) - 1) - cnt[i] * (Pow2(m - i) - 1) else 0)
    decreases j
  {
    hide Pow2;
    if j > b { SlackUpdate(cnt, m, b, j - 1, i, v); }
  }

  /** A move of a code of at least b bits uses up one of the moves from b on. */
  lemma MoveDownSlack(cnt: seq<nat>, bits: nat, m: nat, b: nat)
    requires 1 <= bits < m < |cnt| && cnt[bits] > 0 && cnt[m] > 0 && b <= bits
    ensures |MoveDown(cnt, bits, m)| == |cnt|
    ensures Slack(MoveDown(cnt, bits, m), m, b, m) == Slack(cnt, m, b, m) - 1
  {
    hide Slack, Pow2;
    var c1 := cnt[bits := cnt[bits] - 1];
    var c2 := c1[bits + 1 := c1[bits + 1] + 2];
    SlackUpdate(cnt, m, b, m, bits, cnt[bits] - 1);
    SlackUpdate(c1, m, b, m, bits + 1, c1[bits + 1] + 2);
    SlackUpdate(c2, m, b, m, m, c2[m] - 1);
    Pow2Facts(m - bits);
    SlackArith(cnt[bits], c1[bits + 1], Pow2(m - bits), Pow2(m - bits - 1));
    if bits + 1 == m { assert 1 * (Pow2(0) - 1) == 0; }
  }

  lemma SlackArith(c: nat, d: nat, p: nat, q: nat)
    requires c > 0 && p == 2 * q
    ensures (c - 1) * (p - 1) - c * (p - 1) + ((d + 2) * (q - 1) - d * (q - 1)) == -1
  {
    Distrib(c - 1, 1, p - 1);
    Distrib(d, 2, q - 1);
  }

  /** As long as moves from b on are left, there is a code of at least b bits to move. */
  lemma {:induction false} SlackLeft(cnt: seq<nat>, m: nat, b: nat, j: nat)
    requires j <= m < |cnt| && Slack(cnt, m, b, j) > 0
    ensures exists i :: b <= i < j && cnt[i] > 0
    decreases j
  {
    if cnt[j - 1] == 0 {
      assert 0 * (Pow2(m - (j - 1)) - 1) == 0;
      SlackLeft(cnt, m, b, j - 1);
    }
  }

  /** No count below b is touched, for any b from which the codes can make all n moves. */
  ghost predicate Spared(cnt: seq<nat>, cnt': seq<nat>, m: nat, n: nat)
    requires m < |cnt|
  {
    |cnt'| == |cnt| &&
    forall b: nat, l: nat :: b <= m && l < b && Slack(cnt, m, b, m) >= n ==> cnt'[l] == cnt[l]
  }

  /** The moves so far, with n more to make. */
  ghost predicate Sparing(cnt: seq<nat>, cnt': seq<nat>, m: nat, n: nat, total: nat)
    requires m < |cnt|
  {
    |cnt'| == |cnt| && n <= total &&
    forall b: nat :: b <= m && Slack(cnt, m, b, m) >= total ==>
      Slack(cnt', m, b, m) + total == Slack(cnt, m, b, m) + n && forall l: nat :: l < b ==> cnt'[l] == cnt[l]
  }

  lemma SparingFirst(cnt: seq<nat>, m: nat, total: nat)
    requires m < |cnt|
    ensures Sparing(cnt, cnt, m, total, total)
  {
  }

  /** The deepest code above the limit moves. */
  lemma SparingStep(cnt: seq<nat>, cnt': seq<nat>, m: nat, n: nat, total: nat, bits: nat)
    requires m < |cnt| && Sparing(cnt, cnt', m, n, total) && n > 0
    requires 1 <= bits < m && cnt'[bits] > 0 && cnt'[m] > 0 && forall j :: bits < j < m ==> cnt'[j] == 0
    ensures Sparing(cnt, MoveDown(cnt', bits, m), m, n - 1, total)
  {
    hide Slack, Pow2;
    var c := MoveDown(cnt', bits, m);
    forall b: nat | b <= m && Slack(cnt, m, b, m) >= total
      ensures Slack(c, m, b, m) + total == Slack(cnt, m, b, m) + (n - 1) && forall l: nat :: l < b ==> c[l] == cnt[l]
    {
      SlackLeft(cnt', m, b, m);
      assert b <= bits;
      MoveDownSlack(cnt', bits, m, b);
    }
  }

  lemma SparingDone(cnt: seq<nat>, cnt': seq<nat>, m: nat, total: nat)
    requires m < |cnt| && Sparing(cnt, cnt', m, 0, total)
    ensures Spared(cnt, cnt', m, total)
  {
    hide Slack;
  }

  /** The counts of the lengths ls. */
  ghost predicate Counts(cnt: seq<nat>, ls: seq<nat>)
  {
    |cnt| == MAX_BITS + 1 && forall l :: 0 <= l <= MAX_BITS ==> cnt[l] == Count(ls, l)
  }

  /** What the repair loop keeps: half of overflow is what the Kraft sum is too large by. */
  ghost predicate Repairing(cnt: seq<nat>, m: nat, overflow: nat, n: nat)
  {
    1 <= m <= MAX_BITS && |cnt| == MAX_BITS + 1 && overflow % 2 == 0 && cnt[0] == 0 &&
    CountKraft(cnt, m, m) == Pow2(m) + overflow / 2 && CountSum(cnt, m) == n <= Pow2(m) && cnt[m] >= overflow / 2 &&
    forall l :: m < l <= MAX_BITS ==> cnt[l] == 0
  }

  lemma RepairStep(cnt: seq<nat>, m: nat, overflow: nat, n: nat, bits: nat)
    requires Repairing(cnt, m, overflow, n) && overflow > 0 && 1 <= bits < m && cnt[bits] > 0
    ensures cnt[m] > 0 && overflow >= 2 && Repairing(MoveDown(cnt, bits, m), m, overflow - 2, n)
  {
    hide CountKraft, CountSum, Pow2;
    MoveDownEffect(cnt, bits, m);
  }

  /** Find the first bit length which could increase: the greatest one in use below the limit. */
  method FindShorter(cnt: seq<nat>, m: nat, ghost overflow: nat, ghost n: nat) returns (bits: nat)
    requires Repairing(cnt, m, overflow, n) && overflow > 0
    ensures 1 <= bits < m && cnt[bits] > 0 && forall j :: bits < j < m ==> cnt[j] == 0
  {
    hide CountKraft, CountSum, Pow2;
    SomeShorter(cnt, m, n);
    bits := m - 1;
    while cnt[bits] == 0
      invariant 0 <= bits < m && exists j :: 1 <= j <= bits && cnt[j] > 0
      invariant forall j :: bits < j < m ==> cnt[j] == 0
      decreases bits
    {
      bits := bits - 1;
    }
  }

  /** The repair loop: it ends with the Kraft sum exactly 1 and as many codes as before, and the codes that get longer
      are the longest ones below the limit. */
  method Repair(cnt: seq<nat>, m: nat, overflow: nat, ghost n: nat) returns (cnt': seq<nat>)
    requires Repairing(cnt, m, overflow, n) && overflow > 0
    ensures Repairing(cnt', m, 0, n)
    ensures m < |cnt| && Spared(cnt, cnt', m, overflow / 2)
  {
    hide CountKraft, CountSum, Pow2, Repairing, MoveDown, Sparing, Spared;
    RepairSize(cnt, m, overflow, n);
    SparingFirst(cnt, m, overflow / 2);
    cnt' := cnt;
    var over: int := overflow;
    while over > 0
      invariant over >= 0 && over % 2 == 0 && Repairing(cnt', m, over, n)
      invariant Sparing(cnt, cnt', m, over / 2, overflow / 2)
    {
      var bits := FindShorter(cnt', m, over, n);
      RepairStep(cnt', m, over, n, bits);
      SparingStep(cnt, cnt', m, over / 2, overflow / 2, bits);
      RepairSize(cnt', m, over, n);
      MoveDownDef(cnt', bits, m);
      cnt' := cnt'[bits := cnt'[bits] - 1];
      cnt' := cnt'[bits + 1 := cnt'[bits + 1] + 2];
      cnt' := cnt'[m := cnt'[m] - 1];
      over := over - 2;
    }
    SparingDone(cnt, cnt', m, overflow / 2);
  }

  lemma RepairSize(cnt: seq<nat>, m: nat, overflow: nat, n: nat)
    requires Repairing(cnt, m, overflow, n)
    ensures |cnt| == MAX_BITS + 1 && m <= MAX_BITS && overflow % 2 == 0
  {
  }

  lemma MoveDownDef(cnt: seq<nat>, bits: nat, m: nat)
    requires 1 <= bits < m < |cnt| && cnt[bits] > 0 && cnt[m] > 0
    ensures var c1 := cnt[bits := cnt[bits] - 1]; var c2 := c1[bits + 1 := c1[bits + 1] + 2];
      c2[m] > 0 && MoveDown(cnt, bits, m) == c2[m := c2[m] - 1]
  {
  }
}
