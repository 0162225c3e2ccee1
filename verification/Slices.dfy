/** Parts of sequences. */
module Slices {

  /** A part of a part. */
  lemma SubSlice<T>(s: seq<T>, a: nat, b: nat, i: nat, j: nat)
    requires a <= b <= |s| && i <= j <= b - a
    ensures s[a..b][i..j] == s[a + i..a + j]
  {
    var x, y := s[a..b][i..j], s[a + i..a + j];
    forall k | 0 <= k < j - i
      ensures x[k] == y[k]
    {
      assert x[k] == s[a..b][i + k] == s[a + i + k];
    }
  }

  /** Sequences that agree up to n agree in every part before n. */
  lemma SamePart<T>(s: seq<T>, t: seq<T>, n: nat, i: nat, j: nat)
    requires n <= |s| && n <= |t| && s[..n] == t[..n] && i <= j <= n
    ensures s[i..j] == t[i..j]
  {
    SubSlice(s, 0, n, i, j);
    SubSlice(t, 0, n, i, j);
  }
}
