/** Sums do not depend on the order of their terms. */
module Permute {
  import opened Counting
  import opened TreeShape

  ghost predicate NoDup(s: seq<nat>) { forall i, j :: 0 <= i < j < |s| ==> s[i] != s[j] }

  lemma {:induction false} NoDupCount(s: seq<nat>, x: nat)
    requires NoDup(s)
    ensures multiset(s)[x] == if x in s then 1 else 0
  {
    if |s| > 0 {
      var n := |s| - 1;
      NoDupCount(s[..n], x);
      assert s == s[..n] + [s[n]];
    }
  }

  lemma NoDupSame(s: seq<nat>, d: seq<nat>)
    requires NoDup(s) && NoDup(d) && forall e :: e in s <==> e in d
    ensures multiset(s) == multiset(d)
  {
    forall x: nat
      ensures multiset(s)[x] == multiset(d)[x]
    {
      NoDupCount(s, x);
      NoDupCount(d, x);
    }
  }

  lemma {:induction false} TotalConcat(a: seq<nat>, b: seq<nat>, g: nat -> int)
    ensures Total(a + b, g) == Total(a, g) + Total(b, g)
  {
    if |b| == 0 {
      assert a + b == a;
    } else {
      TotalConcat(a, b[..|b| - 1], g);
      assert (a + b)[..|a + b| - 1] == a + b[..|b| - 1];
    }
  }

  lemma {:induction false} TotalPerm(s: seq<nat>, d: seq<nat>, g: nat -> int)
    requires multiset(s) == multiset(d)
    ensures Total(s, g) == Total(d, g)
  {
    if |s| == 0 {
      assert |multiset(d)| == 0;
    } else {
      var n := |s| - 1;
      var x := s[n];
      assert x in multiset(s);
      assert x in multiset(d);
      var j :| 0 <= j < |d| && d[j] == x;
      RemoveOne(s, d, j);
      TotalPerm(s[..n], d[..j] + d[j + 1..], g);
      TotalLast(s, g);
      TotalWithout(d, j, g);
    }
  }

  lemma RemoveOne(s: seq<nat>, d: seq<nat>, j: nat)
    requires multiset(s) == multiset(d) && |s| > 0 && j < |d| && d[j] == s[|s| - 1]
    ensures multiset(s[..|s| - 1]) == multiset(d[..j] + d[j + 1..])
  {
    assert s == s[..|s| - 1] + [d[j]];
    assert d == d[..j] + [d[j]] + d[j + 1..];
    assert multiset(s[..|s| - 1]) == multiset(s) - multiset{d[j]};
    assert multiset(d[..j] + d[j + 1..]) == multiset(d) - multiset{d[j]};
  }

  lemma TotalWithout(d: seq<nat>, j: nat, g: nat -> int)
    requires j < |d|
    ensures Total(d, g) == Total(d[..j] + d[j + 1..], g) + g(d[j])
  {
    hide Total;
    var a, b := d[..j], d[j + 1..];
    assert d == a + [d[j]] + b;
    TotalConcat(a, b, g);
    TotalConcat(a + [d[j]], b, g);
    TotalConcat(a, [d[j]], g);
    TotalLast([d[j]], g);
  }

  lemma TotalLast(s: seq<nat>, g: nat -> int)
    requires |s| > 0
    ensures Total(s, g) == Total(s[..|s| - 1], g) + g(s[|s| - 1])
    ensures |s| == 1 ==> Total(s, g) == g(s[0])
  {
  }

  function Map(s: seq<nat>, f: nat -> nat): (r: seq<nat>)
    ensures |r| == |s| && forall i :: 0 <= i < |s| ==> r[i] == f(s[i])
  {
    seq(|s|, i requires 0 <= i < |s| => f(s[i]))
  }

  function Is(f: nat -> nat, x: nat): (g: nat -> int) { (e: nat) => if f(e) == x then 1 else 0 }

  lemma {:induction false} CountAsTotal(s: seq<nat>, f: nat -> nat, x: nat)
    ensures Count(Map(s, f), x) == Total(s, Is(f, x))
  {
    if |s| > 0 {
      var n := |s| - 1;
      CountAsTotal(s[..n], f, x);
      assert Map(s, f)[..n] == Map(s[..n], f);
    }
  }

  lemma CountPerm(s: seq<nat>, d: seq<nat>, f: nat -> nat, x: nat)
    requires multiset(s) == multiset(d)
    ensures Count(Map(s, f), x) == Count(Map(d, f), x)
  {
    CountAsTotal(s, f, x);
    CountAsTotal(d, f, x);
    TotalPerm(s, d, Is(f, x));
  }

  lemma {:induction false} TotalSame(s: seq<nat>, g: nat -> int, h: nat -> int)
    requires forall i :: 0 <= i < |s| ==> g(s[i]) == h(s[i])
    ensures Total(s, g) == Total(s, h)
  {
    if |s| > 0 { TotalSame(s[..|s| - 1], g, h); }
  }
}
