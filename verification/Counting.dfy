/** Occurrence counts, and the stable rank that a counting sort gives every position. */
module Counting {

  /** How often x occurs in s. */
  function Count(s: seq<nat>, x: nat): (r: nat)
    ensures r <= |s|
  {
    if |s| == 0 then 0
    else Count(s[..|s| - 1], x) + (if s[|s| - 1] == x then 1 else 0)
  }

  function Repeat(x: nat, n: nat): (s: seq<nat>)
    ensures |s| == n && forall i :: 0 <= i < n ==> s[i] == x
  {
    seq(n, i => x)
  }

  lemma CountStep(s: seq<nat>, i: nat, x: nat)
    requires i < |s|
    ensures Count(s[..i + 1], x) == Count(s[..i], x) + (if s[i] == x then 1 else 0)
  {
    assert s[..i + 1][..i] == s[..i];
  }

  lemma {:induction false} CountMono(s: seq<nat>, i: nat, j: nat, x: nat)
    requires i <= j <= |s|
    ensures Count(s[..i], x) <= Count(s[..j], x)
    decreases j - i
  {
    if i < j {
      CountStep(s, j - 1, x);
      CountMono(s, i, j - 1, x);
    }
  }

  /** An occurrence of x at i has a rank strictly below the number of occurrences. */
  lemma CountBelow(s: seq<nat>, i: nat, x: nat)
    requires i < |s| && s[i] == x
    ensures Count(s[..i], x) < Count(s, x)
  {
    CountStep(s, i, x);
    CountMono(s, i + 1, |s|, x);
    assert s[..|s|] == s;
  }

  /** The k-th occurrence exists. */
  lemma {:induction false} FindKth(s: seq<nat>, x: nat, k: nat) returns (i: nat)
    requires k < Count(s, x)
    ensures i < |s| && s[i] == x && Count(s[..i], x) == k
  {
    var n := |s| - 1;
    if s[n] == x && Count(s[..n], x) == k {
      i := n;
    } else {
      i := FindKth(s[..n], x, k);
      assert s[..n][..i] == s[..i];
    }
  }

  lemma {:induction false} CountPositive(s: seq<nat>, x: nat)
    ensures Count(s, x) > 0 <==> x in s
  {
    if Count(s, x) > 0 {
      var i := FindKth(s, x, 0);
    }
    if x in s {
      var i :| 0 <= i < |s| && s[i] == x;
      CountBelow(s, i, x);
    }
  }

  lemma {:induction false} CountConcat(a: seq<nat>, b: seq<nat>, x: nat)
    ensures Count(a + b, x) == Count(a, x) + Count(b, x)
  {
    if |b| == 0 {
      assert a + b == a;
    } else {
      CountConcat(a, b[..|b| - 1], x);
      assert (a + b)[..|a + b| - 1] == a + b[..|b| - 1];
    }
  }

  lemma {:induction false} CountRepeat(l: nat, n: nat, x: nat)
    ensures Count(Repeat(l, n), x) == if x == l then n else 0
  {
    if n > 0 {
      CountRepeat(l, n - 1, x);
      assert Repeat(l, n)[..n - 1] == Repeat(l, n - 1);
    }
  }
}
