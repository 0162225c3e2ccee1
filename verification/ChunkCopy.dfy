/** chunkset_tpl.h with chunks of eight bytes (arch/generic/chunkset_c.c) and inflate_p.h chunkcopy_safe: copies that
    load and store whole chunks, past the end of what is asked for and over bytes that they are about to read, leave
    what a copy of one byte after the other leaves. */
module ChunkCopy {
  import opened Arith

  const CHUNK: nat := 8

  /** s is s0 with the len bytes at out copied from dist bytes before, one after the other; nothing before out or from
      hi on has changed. */
  ghost predicate Copied(s: seq<nat>, s0: seq<nat>, out: nat, dist: nat, len: nat, hi: nat)
  {
    |s| == |s0| && 1 <= dist <= out && out + len <= hi <= |s| && (forall j :: 0 <= j < out ==> s[j] == s0[j]) &&
    (forall j :: out <= j < out + len ==> s[j] == s[j - dist]) && (forall j :: hi <= j < |s| ==> s[j] == s0[j])
  }

  lemma CopiedNothing(s: seq<nat>, out: nat, dist: nat, hi: nat)
    requires 1 <= dist <= out <= hi <= |s|
    ensures Copied(s, s, out, dist, 0, hi)
  {
  }

  /** One copy behind the other, at the same distance. */
  lemma CopiedMore(s: seq<nat>, s1: seq<nat>, s0: seq<nat>, out: nat, dist: nat, m: nat, n: nat, hi: nat, hi': nat)
    requires Copied(s1, s0, out, dist, m, hi) && Copied(s, s1, out + m, dist, n, hi') && hi <= hi'
    ensures Copied(s, s0, out, dist, m + n, hi')
  {
    forall j | out <= j < out + m + n
      ensures s[j] == s[j - dist]
    {
      if j < out + m { assert s[j] == s1[j] == s1[j - dist] == s[j - dist]; }
    }
    forall j | hi' <= j < |s|
      ensures s[j] == s0[j]
    {
      assert s[j] == s1[j] == s0[j];
    }
    forall j | 0 <= j < out
      ensures s[j] == s0[j]
    {
      assert s[j] == s1[j] == s0[j];
    }
  }

  lemma CopiedWider(s: seq<nat>, s0: seq<nat>, out: nat, dist: nat, len: nat, hi: nat, hi': nat)
    requires Copied(s, s0, out, dist, len, hi) && hi <= hi' <= |s|
    ensures Copied(s, s0, out, dist, len, hi')
  {
  }

  /** s with the bytes c at out. */
  ghost predicate Stored(s: seq<nat>, s0: seq<nat>, out: nat, c: seq<nat>)
  {
    |s| == |s0| && out + |c| <= |s| && forall j :: 0 <= j < |s| ==>
      s[j] == if out <= j < out + |c| then c[j - out] else s0[j]
  }

  /** storechunk, or a memcpy of a fixed size from a register. */
  method Store(a: array<nat>, out: nat, c: seq<nat>)
    requires out + |c| <= a.Length
    modifies a
    ensures Stored(a[..], old(a[..]), out, c)
  {
    for i := 0 to |c|
      invariant forall j :: 0 <= j < a.Length ==> a[j] == if out <= j < out + i then c[j - out] else old(a[j])
    {
      a[out + i] := c[i];
    }
  }

  /** A memcpy inside of a buffer, between parts that do not overlap. */
  method Memcpy(a: array<nat>, out: nat, from: nat, n: nat)
    requires from < out && from + n <= out && out + n <= a.Length
    modifies a
    ensures Copied(a[..], old(a[..]), out, out - from, n, out + n)
  {
    Store(a, out, a[from..from + n]);
  }

  /** *out++ = *from++, len times. */
  method CopyBytes(a: array<nat>, out: nat, from: nat, len: nat)
    requires from < out && out + len <= a.Length
    modifies a
    ensures Copied(a[..], old(a[..]), out, out - from, len, out + len)
  {
    for i := 0 to len
      invariant Copied(a[..], old(a[..]), out, out - from, i, out + i)
    {
      a[out + i] := a[from + i];
    }
  }

  /** A chunk is loaded from before out and stored there: as many bytes of it count as lie between. */
  lemma LoadStored(s: seq<nat>, s0: seq<nat>, out: nat, from: nat, n: nat)
    requires from < out && from + CHUNK <= |s0| && n <= CHUNK && n <= out - from &&
      Stored(s, s0, out, s0[from..from + CHUNK])
    ensures Copied(s, s0, out, out - from, n, out + CHUNK)
  {
    forall j | out <= j < out + n
      ensures s[j] == s[j - (out - from)]
    {
      assert s[j] == s0[from..from + CHUNK][j - out] == s0[from + (j - out)];
    }
  }

  function Max(a: nat, b: nat): (m: nat) { if a < b then b else a }

  /** Load and store one chunk, of which the first n bytes go on with the copy. */
  method ChunkOn(a: array<nat>, out: nat, from: nat, ghost n: nat, ghost s0: seq<nat>, ghost out0: nat, ghost hi: nat)
    requires from < out && n <= CHUNK && n <= out - from && out0 <= out && out + CHUNK <= hi <= a.Length
    requires Copied(a[..], s0, out0, out - from, out - out0, hi)
    modifies a
    ensures Copied(a[..], s0, out0, out - from, out + n - out0, hi)
  {
    hide Copied, Stored;
    ghost var s1 := a[..];
    Store(a, out, a[from..from + CHUNK]);
    LoadStored(a[..], s1, out, from, n);
    CopiedWider(a[..], s1, out, out - from, n, out + CHUNK, hi);
    CopiedMore(a[..], s1, s0, out0, out - from, out - out0, n, hi, hi);
  }

  /** The length of the first piece, such that whole chunks are left. */
  function First(len: nat): (n: nat)
    requires len > 0
    ensures 1 <= n <= CHUNK && n <= len && (len <= CHUNK ==> n == len) && (len - n) % CHUNK == 0
  {
    (len - 1) % CHUNK + 1
  }

  /** CHUNKCOPY. Only if fewer than eight bytes are asked for is anything behind them overwritten. */
  method ChunkCopy(a: array<nat>, out0: nat, from0: nat, len0: nat)
    requires from0 < out0 && len0 > 0 && (CHUNK <= out0 - from0 || len0 <= out0 - from0) &&
      out0 + Max(len0, CHUNK) <= a.Length
    modifies a
    ensures Copied(a[..], old(a[..]), out0, out0 - from0, len0, out0 + Max(len0, CHUNK))
  {
    hide Copied;
    var align := First(len0);
    ghost var hi, s0 := out0 + Max(len0, CHUNK), a[..];
    CopiedNothing(s0, out0, out0 - from0, hi);
    ChunkOn(a, out0, from0, align, s0, out0, hi);
    var out, from := out0 + align, from0 + align;
    var len: nat := len0 - align;
    while len > 0
      invariant out + len == out0 + len0 && out - from == out0 - from0 && out0 <= out && from0 <= from
      invariant len % CHUNK == 0 && (len > 0 ==> CHUNK <= out0 - from0)
      invariant Copied(a[..], s0, out0, out0 - from0, out - out0, hi)
    {
      ChunkOn(a, out, from, CHUNK, s0, out0, hi);
      out, from, len := out + CHUNK, from + CHUNK, len - CHUNK;
    }
  }

  // ---- magazines ----

  /** The byte strings c that repeat the pattern p. */
  ghost predicate Repeats(c: seq<nat>, p: seq<nat>) { |p| > 0 && forall i :: 0 <= i < |c| ==> c[i] == p[i % |p|] }

  /** The pattern ends at out. */
  ghost predicate EndsWith(s: seq<nat>, out: nat, p: seq<nat>) { 0 < |p| <= out <= |s| && s[out - |p|..out] == p }

  lemma RepeatsBack(c: seq<nat>, p: seq<nat>, i: nat)
    requires Repeats(c, p) && i < |c|
    ensures c[i] == if i < |p| then p[i] else c[i - |p|]
  {
    if i >= |p| { ModBack(i, |p|); }
  }

  /** Bytes that repeat the pattern before out are stored at out. */
  lemma PatternStored(s: seq<nat>, s0: seq<nat>, out: nat, p: seq<nat>, c: seq<nat>)
    requires Stored(s, s0, out, c) && EndsWith(s0, out, p) && Repeats(c, p)
    ensures Copied(s, s0, out, |p|, |c|, out + |c|)
  {
    hide Repeats;
    forall j | out <= j < out + |c|
      ensures s[j] == s[j - |p|]
    {
      var i := j - out;
      RepeatsBack(c, p, i);
      assert s[j] == c[i];
      if i < |p| { assert p[i] == s0[out - |p|..out][i] == s0[j - |p|]; }
    }
  }

  /** The pattern also ends k bytes further on, if these are whole patterns. */
  lemma PatternMoves(s: seq<nat>, s0: seq<nat>, out: nat, p: seq<nat>, len: nat, hi: nat, k: nat)
    requires Copied(s, s0, out, |p|, len, hi) && EndsWith(s0, out, p) && k <= len && k % |p| == 0
    ensures EndsWith(s, out + k, p)
    decreases k
  {
    if k == 0 {
      assert s[out - |p|..out] == s0[out - |p|..out];
    } else {
      if k < |p| { ModSmall(k, |p|); }
      ModBack(k, |p|);
      PatternMoves(s, s0, out, p, len, hi, k - |p|);
      forall i | 0 <= i < |p|
        ensures s[out + k - |p|..out + k][i] == p[i]
      {
        assert s[out + k - |p| + i] == s[out + k - |p| - |p| + i] == s[out + (k - |p|) - |p|..out + (k - |p|)][i];
      }
    }
  }

  /** GET_CHUNK_MAG: the pattern as often as it fits, and a part of it; rem is the size of what was copied last. */
  method Magazine(a: array<nat>, from: nat, dist: nat) returns (c: seq<nat>, rem: nat)
    requires 1 <= dist < CHUNK && from + dist <= a.Length
    ensures |c| == CHUNK && Repeats(c, a[from..from + dist]) && 1 <= rem <= dist && (CHUNK - rem) % dist == 0
  {
    c, rem := [], dist;
    ghost var p := a[from..from + dist];
    while |c| < CHUNK
      invariant |c| <= CHUNK && Repeats(c, p)
      invariant |c| < CHUNK ==> |c| % dist == 0
      invariant 1 <= rem <= dist && (|c| > 0 ==> rem <= |c| && (|c| - rem) % dist == 0)
      decreases CHUNK - |c|
    {
      var n := if dist < CHUNK - |c| then dist else CHUNK - |c|;
      MagazineStep(c, p, n);
      c, rem := c + a[from..from + n], n;
    }
  }

  lemma MagazineStep(c: seq<nat>, p: seq<nat>, n: nat)
    requires Repeats(c, p) && |c| % |p| == 0 && n <= |p|
    ensures Repeats(c + p[..n], p) && (n == |p| ==> (|c| + n) % |p| == 0)
  {
    var c' := c + p[..n];
    forall i | 0 <= i < |c'|
      ensures c'[i] == p[i % |p|]
    {
      if i >= |c| {
        ModSum(|c|, i - |c|, |p|);
        ModSmall(i - |c|, |p|);
      }
    }
    if n == |p| {
      ModSum(|c|, n, n);
      ModIs(1, 0, n);
    }
  }

  lemma CopiedLess(s: seq<nat>, s0: seq<nat>, out: nat, dist: nat, len: nat, hi: nat, n: nat)
    requires Copied(s, s0, out, dist, len, hi) && n <= len
    ensures Copied(s, s0, out, dist, n, hi)
  {
  }

  /** Store the magazine and advance by whole patterns. */
  method StoreOnce(a: array<nat>, out: nat, c: seq<nat>, ghost adv: nat, ghost p: seq<nat>, ghost s0: seq<nat>,
                   ghost out0: nat, ghost hi: nat)
    requires out0 <= out && |c| == CHUNK && adv <= CHUNK && out + CHUNK <= hi <= a.Length && |p| > 0 && adv % |p| == 0
    requires Copied(a[..], s0, out0, |p|, out - out0, hi) && EndsWith(a[..], out, p) && Repeats(c, p)
    modifies a
    ensures Copied(a[..], s0, out0, |p|, out + adv - out0, hi) && EndsWith(a[..], out + adv, p)
  {
    hide Copied, Stored, Repeats, EndsWith;
    ghost var s1 := a[..];
    Store(a, out, c);
    PatternStored(a[..], s1, out, p, c);
    PatternMoves(a[..], s1, out, p, CHUNK, out + CHUNK, adv);
    CopiedLess(a[..], s1, out, |p|, CHUNK, out + CHUNK, adv);
    CopiedWider(a[..], s1, out, |p|, adv, out + CHUNK, hi);
    CopiedMore(a[..], s1, s0, out0, |p|, out - out0, adv, hi, hi);
  }

  /** Two overlapping copies cover every length below a chunk. */
  method StoreTail(a: array<nat>, out: nat, c: seq<nat>, len: nat)
    requires |c| == CHUNK && 0 < len < CHUNK && out + len <= a.Length
    modifies a
    ensures Stored(a[..], old(a[..]), out, c[..len])
  {
    if len >= 4 {
      Store(a, out, c[..4]);
      Store(a, out + len - 4, c[len - 4..len]);
    } else if len >= 2 {
      Store(a, out, c[..2]);
      Store(a, out + len - 2, c[len - 2..len]);
    } else {
      a[out] := c[0];
    }
  }

  lemma RepeatsLess(c: seq<nat>, p: seq<nat>, n: nat)
    requires Repeats(c, p) && n <= |c|
    ensures Repeats(c[..n], p)
  {
  }

  /** The magazine for a distance of at most a chunk: chunkmemset_4, chunkmemset_8 or GET_CHUNK_MAG. */
  method LoadMagazine(a: array<nat>, from: nat, dist: nat) returns (c: seq<nat>, adv: nat)
    requires 1 <= dist <= CHUNK && from + dist <= a.Length
    ensures |c| == CHUNK && Repeats(c, a[from..from + dist]) && 1 <= adv <= CHUNK && adv % dist == 0
  {
    if dist == 4 {
      c, adv := a[from..from + 4] + a[from..from + 4], CHUNK;
    } else if dist == CHUNK {
      c, adv := a[from..from + CHUNK], CHUNK;
    } else {
      var rem;
      c, rem := Magazine(a, from, dist);
      adv := CHUNK - rem;
    }
  }

  /** CHUNKMEMSET, for a source before the destination. */
  method ChunkMemset(a: array<nat>, out: nat, from: nat, len: nat)
    requires from < out && len > 0 && out + Max(len, CHUNK) <= a.Length
    modifies a
    ensures Copied(a[..], old(a[..]), out, out - from, len, out + Max(len, CHUNK))
  {
    hide Copied, Stored, Repeats, EndsWith;
    var dist := out - from;
    if dist == 1 {
      CopyBytes(a, out, from, len);
      CopiedWider(a[..], old(a[..]), out, dist, len, out + len, out + Max(len, CHUNK));
      return;
    }
    if dist >= len || dist > CHUNK {
      ChunkCopy(a, out, from, len);
      return;
    }
    var c, adv := LoadMagazine(a, from, dist);
    ghost var p := a[from..out];
    PatternHere(a[..], out, p);
    if len <= CHUNK {
      StoreFew(a, out, c, len, p);
    } else {
      StoreMany(a, out, c, adv, len, p);
    }
  }

  lemma PatternHere(s: seq<nat>, out: nat, p: seq<nat>)
    requires 0 < |p| <= out <= |s| && p == s[out - |p|..out]
    ensures EndsWith(s, out, p)
  {
  }

  method StoreFew(a: array<nat>, out: nat, c: seq<nat>, len: nat, ghost p: seq<nat>)
    requires 0 < len <= |c| == CHUNK && out + CHUNK <= a.Length && EndsWith(a[..], out, p) && Repeats(c, p)
    modifies a
    ensures Copied(a[..], old(a[..]), out, |p|, len, out + CHUNK)
  {
    hide Copied, Stored, Repeats, EndsWith;
    Store(a, out, c);
    PatternStored(a[..], old(a[..]), out, p, c);
    CopiedLess(a[..], old(a[..]), out, |p|, CHUNK, out + CHUNK, len);
  }

  /** More than one chunk: nothing behind the copy is overwritten. */
  method StoreMany(a: array<nat>, out0: nat, c: seq<nat>, adv: nat, len0: nat, ghost p: seq<nat>)
    requires |c| == CHUNK < len0 && out0 + len0 <= a.Length && EndsWith(a[..], out0, p) && Repeats(c, p) && |p| > 0
    requires 1 <= adv <= CHUNK && adv % |p| == 0
    modifies a
    ensures Copied(a[..], old(a[..]), out0, |p|, len0, out0 + len0)
  {
    hide Copied, Stored, Repeats, EndsWith;
    ghost var s0, hi := a[..], out0 + len0;
    PatternSize(s0, out0, p);
    CopiedNothing(s0, out0, |p|, hi);
    var out, len := out0, len0;
    while len >= 2 * CHUNK
      invariant out0 <= out && out + len == hi && 0 <= len
      invariant Copied(a[..], s0, out0, |p|, out - out0, hi) && EndsWith(a[..], out, p)
    {
      StoreOnce(a, out, c, adv, p, s0, out0, hi);
      StoreOnce(a, out + adv, c, adv, p, s0, out0, hi);
      out, len := out + 2 * adv, len - 2 * adv;
    }
    while len >= CHUNK
      invariant out0 <= out && out + len == hi && 0 <= len
      invariant Copied(a[..], s0, out0, |p|, out - out0, hi) && EndsWith(a[..], out, p)
    {
      StoreOnce(a, out, c, adv, p, s0, out0, hi);
      out, len := out + adv, len - adv;
    }
    if len > 0 {
      ghost var s1 := a[..];
      StoreTail(a, out, c, len);
      RepeatsLess(c, p, len);
      PatternStored(a[..], s1, out, p, c[..len]);
      CopiedMore(a[..], s1, s0, out0, |p|, out - out0, len, hi, hi);
    }
  }

  lemma PatternSize(s: seq<nat>, out: nat, p: seq<nat>)
    requires EndsWith(s, out, p)
    ensures 1 <= |p| <= out <= |s|
  {
  }

  /** CHUNKMEMSET_SAFE: at most left bytes, and nothing is written past them. addr is the address of the buffer. */
  method ChunkMemsetSafe(a: array<nat>, out0: nat, from0: nat, len0: nat, left0: nat, addr: nat) returns (n: nat)
    requires from0 < out0 && out0 + left0 <= a.Length
    modifies a
    ensures n == (if len0 < left0 then len0 else left0)
    ensures Copied(a[..], old(a[..]), out0, out0 - from0, n, out0 + left0)
  {
    hide Copied;
    n := if len0 < left0 then len0 else left0;
    ghost var s0, hi, dist := a[..], out0 + left0, out0 - from0;
    var out, from, len, left := out0, from0, n, left0;
    CopiedNothing(s0, out0, dist, hi);
    while (addr + out) % 8 != 0 && len > 0
      invariant 0 <= len <= left && out + left == hi && out - out0 + len == n && out - from == dist && out0 <= out &&
        from0 <= from
      invariant Copied(a[..], s0, out0, dist, out - out0, hi)
      decreases len
    {
      ghost var s1 := a[..];
      CopyBytes(a, out, from, 1);
      CopiedWider(a[..], s1, out, dist, 1, out + 1, hi);
      CopiedMore(a[..], s1, s0, out0, dist, out - out0, 1, hi, hi);
      out, from, len, left := out + 1, from + 1, len - 1, left - 1;
    }
    if len > 0 {
      ghost var s1 := a[..];
      if left < CHUNK {
        CopyBytes(a, out, from, len);
        CopiedWider(a[..], s1, out, dist, len, out + len, hi);
      } else {
        ChunkMemset(a, out, from, len);
        CopiedWider(a[..], s1, out, dist, len, out + Max(len, CHUNK), hi);
      }
      CopiedMore(a[..], s1, s0, out0, dist, out - out0, len, hi, hi);
    }
  }

  /** CHUNKCOPY_SAFE inside of the buffer that ends at safe. */
  method ChunkCopySafe(a: array<nat>, out: nat, from: nat, len0: nat, safe: nat)
    requires from < out && 0 < len0 && out + len0 <= safe <= a.Length
    modifies a
    ensures Copied(a[..], old(a[..]), out, out - from, len0, safe)
  {
    hide Copied;
    var safelen := safe - out;
    if safe - from < CHUNK || safelen < CHUNK {
      CopyBytes(a, out, from, len0);
      CopiedWider(a[..], old(a[..]), out, out - from, len0, out + len0, safe);
    } else {
      ChunkMemset(a, out, from, len0);
      CopiedWider(a[..], old(a[..]), out, out - from, len0, out + Max(len0, CHUNK), safe);
    }
  }

  // ---- doubling the distance ----

  /** From lo on, s repeats at distance d up to hi. */
  ghost predicate Periodic(s: seq<nat>, lo: nat, d: nat, hi: nat)
  {
    1 <= d && lo + d <= hi <= |s| && forall j :: lo + d <= j < hi ==> s[j] == s[j - d]
  }

  lemma PeriodMultiple(s: seq<nat>, lo: nat, d: nat, hi: nat, x: nat, y: nat)
    requires Periodic(s, lo, d, hi) && lo <= x <= y < hi && (y - x) % d == 0
    ensures s[x] == s[y]
    decreases y
  {
    if x < y {
      if y - x < d { ModSmall(y - x, d); }
      ModBack(y - x, d);
      PeriodMultiple(s, lo, d, hi, x, y - d);
    }
  }

  /** What is copied at a multiple of the period that reaches back to its start goes on with the period. */
  lemma {:induction false} PeriodGoesOn(s: seq<nat>, lo: nat, d: nat, out: nat, hi: nat)
    requires Periodic(s, lo, d, out) && (out - lo) % d == 0 && out <= hi <= |s|
    requires forall j :: out <= j < hi ==> s[j] == s[j - (out - lo)]
    ensures Periodic(s, lo, d, hi)
    decreases hi
  {
    if out < hi {
      PeriodGoesOn(s, lo, d, out, hi - 1);
      var j, dist := hi - 1, out - lo;
      assert s[j] == s[j - dist];
      if j - d >= out {
        assert s[j - dist] == s[j - dist - d] == s[j - d];
      } else {
        ModBack(dist, d);
        PeriodMultiple(s, lo, d, out, j - dist, j - d);
      }
    }
  }

  /** A copy at a multiple of the distance, back to where the copy started, goes on with it. */
  lemma CopiedOn(s: seq<nat>, s1: seq<nat>, s0: seq<nat>, out0: nat, d: nat, m: nat, hi: nat, out: nat, n: nat,
                 hi': nat)
    requires Copied(s1, s0, out0, d, m, hi) && out == out0 + m && (m + d) % d == 0 && hi <= hi'
    requires Copied(s, s1, out, m + d, n, hi')
    ensures Copied(s, s0, out0, d, m + n, hi')
  {
    var lo := out0 - d;
    forall j | lo + d <= j < out
      ensures s[j] == s[j - d]
    {
      assert s[j] == s1[j] == s1[j - d] == s[j - d];
    }
    PeriodGoesOn(s, lo, d, out, out + n);
    forall j | 0 <= j < out0
      ensures s[j] == s0[j]
    {
      assert s[j] == s1[j];
    }
    forall j | hi' <= j < |s|
      ensures s[j] == s0[j]
    {
      assert s[j] == s1[j];
    }
  }

  /** CHUNKUNROLL: short copies, until the distance is at least a chunk or all that is left to copy. */
  method ChunkUnroll(a: array<nat>, out0: nat, dist0: nat, len0: nat) returns (out: nat, dist: nat, len: nat)
    requires 1 <= dist0 <= out0 && len0 > 0 && out0 - dist0 + 2 * CHUNK <= a.Length && out0 + len0 <= a.Length
    modifies a
    ensures out + len == out0 + len0 && len > 0 && out0 <= out && out - out0 + dist0 == dist && dist % dist0 == 0
    ensures dist >= len || dist >= CHUNK
    ensures Copied(a[..], old(a[..]), out0, dist0, out - out0, Max(out, out0 - dist0 + 2 * CHUNK))
  {
    hide Copied, Stored;
    ghost var s0, hi := a[..], Max(out0, out0 - dist0 + 2 * CHUNK);
    var from := out0 - dist0;
    out, dist, len := out0, dist0, len0;
    CopiedNothing(s0, out0, dist0, hi);
    ModIs(1, 0, dist0);
    while dist < len && dist < CHUNK
      invariant out + len == out0 + len0 && len > 0 && out0 <= out && out - out0 + dist0 == dist && dist % dist0 == 0
      invariant out == out0 || out <= from + 2 * CHUNK
      invariant Copied(a[..], s0, out0, dist0, out - out0, hi)
      decreases len
    {
      ghost var s1 := a[..];
      Store(a, out, a[from..from + CHUNK]);
      LoadStored(a[..], s1, out, from, dist);
      CopiedWider(a[..], s1, out, dist, dist, out + CHUNK, hi);
      CopiedOn(a[..], s1, s0, out0, dist0, out - out0, hi, out, dist, hi);
      ModSum(dist, dist, dist0);
      out, len, dist := out + dist, len - dist, dist + dist;
    }
  }

  // ---- chunkcopy_safe ----

  /** At most dist bytes, in pieces that do not overlap their source. */
  method CopyBlock(a: array<nat>, out0: nat, from0: nat, n: nat)
    requires from0 < out0 && n <= out0 - from0 && out0 + n <= a.Length
    modifies a
    ensures Copied(a[..], old(a[..]), out0, out0 - from0, n, out0 + n)
  {
    hide Copied;
    ghost var s0, hi, dist := a[..], out0 + n, out0 - from0;
    var out, from, tocopy := out0, from0, n;
    CopiedNothing(s0, out0, dist, hi);
    while tocopy >= 16
      invariant 0 <= tocopy && out + tocopy == hi && out - from == dist && out0 <= out && from0 <= from
      invariant Copied(a[..], s0, out0, dist, out - out0, hi)
    {
      MemcpyOn(a, out, from, 16, s0, out0, hi);
      out, from, tocopy := out + 16, from + 16, tocopy - 16;
    }
    if tocopy >= 8 {
      MemcpyOn(a, out, from, 8, s0, out0, hi);
      out, from, tocopy := out + 8, from + 8, tocopy - 8;
    }
    if tocopy >= 4 {
      MemcpyOn(a, out, from, 4, s0, out0, hi);
      out, from, tocopy := out + 4, from + 4, tocopy - 4;
    }
    ghost var s1 := a[..];
    CopyBytes(a, out, from, tocopy);
    CopiedMore(a[..], s1, s0, out0, dist, out - out0, tocopy, hi, hi);
  }

  method MemcpyOn(a: array<nat>, out: nat, from: nat, n: nat, ghost s0: seq<nat>, ghost out0: nat, ghost hi: nat)
    requires from < out && from + n <= out && out0 <= out && out + n <= hi <= a.Length
    requires Copied(a[..], s0, out0, out - from, out - out0, hi)
    modifies a
    ensures Copied(a[..], s0, out0, out - from, out + n - out0, hi)
  {
    hide Copied;
    ghost var s1 := a[..];
    Memcpy(a, out, from, n);
    CopiedWider(a[..], s1, out, out - from, n, out + n, hi);
    CopiedMore(a[..], s1, s0, out0, out - from, out - out0, n, hi, hi);
  }

  /** chunkcopy_safe inside of the buffer that ends at safe: blocks of the distance. */
  method CopySafe(a: array<nat>, out0: nat, from0: nat, len0: nat, safe: nat) returns (n: nat)
    requires from0 < out0 <= safe <= a.Length
    modifies a
    ensures n == (if len0 < safe - out0 then len0 else safe - out0)
    ensures Copied(a[..], old(a[..]), out0, out0 - from0, n, out0 + n)
  {
    hide Copied;
    n := if len0 < safe - out0 then len0 else safe - out0;
    var dist := out0 - from0;
    if n <= dist {
      Memcpy(a, out0, from0, n);
      return;
    }
    ghost var s0, hi := a[..], out0 + n;
    var out, from, len := out0, from0, n;
    CopiedNothing(s0, out0, dist, hi);
    while len > 0
      invariant 0 <= len && out + len == hi && out - from == dist && out0 <= out && from0 <= from
      invariant Copied(a[..], s0, out0, dist, out - out0, hi)
    {
      var tocopy := if dist < len then dist else len;
      ghost var s1 := a[..];
      CopyBlock(a, out, from, tocopy);
      CopiedWider(a[..], s1, out, dist, tocopy, out + tocopy, hi);
      CopiedMore(a[..], s1, s0, out0, dist, out - out0, tocopy, hi, hi);
      out, from, len := out + tocopy, from + tocopy, len - tocopy;
    }
  }

  // ---- from another buffer ----

  /** n bytes of src from from on have been put at out; nothing before out or from hi on has changed. */
  ghost predicate Brought(s: seq<nat>, s0: seq<nat>, out: nat, src: seq<nat>, from: nat, n: nat, hi: nat)
  {
    |s| == |s0| && out + n <= hi <= |s| && from + n <= |src| && (forall j :: 0 <= j < out ==> s[j] == s0[j]) &&
    (forall j :: out <= j < out + n ==> s[j] == src[j - out + from]) && (forall j :: hi <= j < |s| ==> s[j] == s0[j])
  }

  /** loadchunk from a window, behind which there are 64 bytes of padding of no particular value. */
  function LoadPadded(s: seq<nat>, from: nat): (c: seq<nat>)
    requires from <= |s|
    ensures |c| == CHUNK
  {
    if from + CHUNK <= |s| then s[from..from + CHUNK] else s[from..] + seq(from + CHUNK - |s|, i => 0)
  }

  lemma LoadBrought(s: seq<nat>, s0: seq<nat>, out: nat, src: seq<nat>, from: nat, n: nat)
    requires from + n <= |src| && n <= CHUNK && Stored(s, s0, out, LoadPadded(src, from))
    ensures Brought(s, s0, out, src, from, n, out + CHUNK)
  {
    var c := LoadPadded(src, from);
    forall j | out <= j < out + n
      ensures s[j] == src[j - out + from]
    {
      assert s[j] == c[j - out];
      if from + CHUNK <= |src| {
        assert c[j - out] == src[from..from + CHUNK][j - out];
      } else {
        assert c[j - out] == src[from..][j - out];
      }
    }
  }

  lemma BroughtWider(s: seq<nat>, s0: seq<nat>, out: nat, src: seq<nat>, from: nat, n: nat, hi: nat, hi': nat)
    requires Brought(s, s0, out, src, from, n, hi) && hi <= hi' <= |s|
    ensures Brought(s, s0, out, src, from, n, hi')
  {
  }

  lemma BroughtMore(s: seq<nat>, s1: seq<nat>, s0: seq<nat>, out: nat, src: seq<nat>, from: nat, m: nat, n: nat,
                    hi: nat)
    requires Brought(s1, s0, out, src, from, m, hi) && Brought(s, s1, out + m, src, from + m, n, hi)
    ensures Brought(s, s0, out, src, from, m + n, hi)
  {
    forall j | 0 <= j < out + m
      ensures s[j] == if j < out then s0[j] else src[j - out + from]
    {
      assert s[j] == s1[j];
    }
    forall j | hi <= j < |s|
      ensures s[j] == s0[j]
    {
      assert s[j] == s1[j];
    }
  }

  /** CHUNKCOPY between two buffers. */
  method ChunkCopyAcross(src: array<nat>, from0: nat, a: array<nat>, out0: nat, len0: nat)
    requires src != a && len0 > 0 && from0 + len0 <= src.Length && out0 + Max(len0, CHUNK) <= a.Length
    modifies a
    ensures Brought(a[..], old(a[..]), out0, src[..], from0, len0, out0 + Max(len0, CHUNK))
  {
    hide Brought, Stored, LoadPadded;
    var align := First(len0);
    ghost var s0, hi := a[..], out0 + Max(len0, CHUNK);
    Store(a, out0, LoadPadded(src[..], from0));
    LoadBrought(a[..], s0, out0, src[..], from0, align);
    BroughtWider(a[..], s0, out0, src[..], from0, align, out0 + CHUNK, hi);
    var out, from := out0 + align, from0 + align;
    var len: nat := len0 - align;
    while len > 0
      invariant out + len == out0 + len0 && out - out0 == from - from0 && out0 <= out && from0 <= from &&
        len % CHUNK == 0
      invariant Brought(a[..], s0, out0, src[..], from0, out - out0, hi)
    {
      ghost var s1 := a[..];
      Store(a, out, LoadPadded(src[..], from));
      LoadBrought(a[..], s1, out, src[..], from, CHUNK);
      BroughtWider(a[..], s1, out, src[..], from, CHUNK, out + CHUNK, hi);
      BroughtMore(a[..], s1, s0, out0, src[..], from0, out - out0, CHUNK, hi);
      out, from, len := out + CHUNK, from + CHUNK, len - CHUNK;
    }
  }

  /** A memcpy between two buffers, which is what chunkcopy_safe is there. */
  method MemcpyAcross(src: array<nat>, from: nat, a: array<nat>, out: nat, len: nat)
    requires src != a && from + len <= src.Length && out + len <= a.Length
    modifies a
    ensures Brought(a[..], old(a[..]), out, src[..], from, len, out + len)
  {
    hide Brought;
    BroughtNothing(a[..], out, src[..], from, out + len);
    for i := 0 to len
      invariant Brought(a[..], old(a[..]), out, src[..], from, i, out + len)
    {
      ghost var s1 := a[..];
      a[out + i] := src[from + i];
      BroughtOne(a[..], s1, out + i, src[..], from + i, out + len);
      BroughtMore(a[..], s1, old(a[..]), out, src[..], from, i, 1, out + len);
    }
  }

  lemma BroughtNothing(s: seq<nat>, out: nat, src: seq<nat>, from: nat, hi: nat)
    requires out <= hi <= |s| && from <= |src|
    ensures Brought(s, s, out, src, from, 0, hi)
  {
  }

  lemma BroughtOne(s: seq<nat>, s1: seq<nat>, out: nat, src: seq<nat>, from: nat, hi: nat)
    requires out < hi <= |s1| && from < |src| && s == s1[out := src[from]]
    ensures Brought(s, s1, out, src, from, 1, hi)
  {
  }

  /** CHUNKCOPY_SAFE between two buffers, whose addresses decide whether it copies byte by byte. */
  method ChunkCopySafeAcross(src: array<nat>, from: nat, a: array<nat>, out: nat, len: nat, safe: nat, near: bool)
    requires src != a && 0 < len && from + len <= src.Length && out + len <= safe <= a.Length
    modifies a
    ensures Brought(a[..], old(a[..]), out, src[..], from, len, safe)
  {
    hide Brought;
    if near || safe - out < CHUNK {
      MemcpyAcross(src, from, a, out, len);
      BroughtWider(a[..], old(a[..]), out, src[..], from, len, out + len, safe);
    } else {
      ChunkCopyAcross(src, from, a, out, len);
      BroughtWider(a[..], old(a[..]), out, src[..], from, len, out + Max(len, CHUNK), safe);
    }
  }
}
