/** How inflate() and inflate_fast() copy the bytes of a match: from the circular window, in one or two pieces, and from
    the output, with the copy functions of chunkset_tpl.h and inflate_p.h. */
module MatchCopy {
  import opened Decoding
  import opened Window
  import opened ChunkCopy

  /** Bytes that repeat what is dist places before them are what a match copies. */
  lemma {:induction false} CopyIs(out: seq<nat>, s: seq<nat>, dist: nat)
    requires 1 <= dist <= |out| && forall j :: 0 <= j < |s| ==> s[j] == (out + s)[|out| + j - dist]
    ensures CopyMatch(out, dist, |s|) == out + s
    decreases |s|
  {
    if |s| == 0 {
      assert out + s == out;
    } else {
      var b, s' := out[|out| - dist], s[1..];
      assert s[0] == b;
      assert out + [b] + s' == out + s;
      forall j | 0 <= j < |s'|
        ensures s'[j] == (out + [b] + s')[|out + [b]| + j - dist]
      {
        assert s'[j] == s[j + 1] == (out + s)[|out| + (j + 1) - dist];
      }
      CopyIs(out + [b], s', dist);
    }
  }

  /** Where the window holds the bytes that a distance past the start of the buffer refers to. */
  function WindowFrom(wnext: nat, back: nat): (from: int)
  {
    if back > wnext then WSIZE - (back - wnext) else wnext - back
  }

  /** How many of them are in one piece. */
  function WindowRun(wnext: nat, back: nat): (n: nat) { if back > wnext then back - wnext else back }

  lemma WindowBytes(w: seq<nat>, wnext: nat, whave: nat, total: seq<nat>, back: nat, j: nat)
    requires RingHolds(w, wnext, whave, total) && 1 <= back <= whave && j < WindowRun(wnext, back)
    ensures 0 <= WindowFrom(wnext, back) + j < WSIZE && back <= |total|
    ensures w[WindowFrom(wnext, back) + j] == total[|total| - back + j]
  {
    var i := back - 1 - j;
    assert Back(wnext, i) == WindowFrom(wnext, back) + j;
  }

  /** The copy from the window is a match. */
  lemma WindowCopy(w: seq<nat>, wnext: nat, whave: nat, total: seq<nat>, old0: seq<nat>, offset: nat, n: nat)
    requires RingHolds(w, wnext, whave, total) && |old0| < offset && offset - |old0| <= whave &&
      n <= WindowRun(wnext, offset - |old0|)
    ensures var from := WindowFrom(wnext, offset - |old0|);
      0 <= from <= from + n <= WSIZE == |w| && offset <= |total| + |old0| &&
      CopyMatch(total + old0, offset, n) == total + old0 + w[from..from + n]
  {
    hide RingHolds, CopyMatch;
    var back := offset - |old0|;
    var from := WindowFrom(wnext, back);
    RingParts(w, wnext, whave, total);
    var s := w[from..from + n];
    var out := total + old0;
    forall j | 0 <= j < |s|
      ensures s[j] == (out + s)[|out| + j - offset]
    {
      WindowBytes(w, wnext, whave, total, back, j);
      assert (out + s)[|out| + j - offset] == total[|total| - back + j];
    }
    CopyIs(out, s, offset);
  }

  /** The copy within the output is a match. */
  lemma OutputCopy(total: seq<nat>, b: seq<nat>, put: nat, dist: nat)
    requires 1 <= dist <= put <= |b| && forall j :: put <= j < |b| ==> b[j] == b[j - dist]
    ensures CopyMatch(total + b[..put], dist, |b| - put) == total + b
  {
    hide CopyMatch;
    var out, s := total + b[..put], b[put..];
    assert out + s == total + b;
    forall j | 0 <= j < |s|
      ensures s[j] == (out + s)[|out| + j - dist]
    {
      assert s[j] == b[put + j] == b[put + j - dist] == (total + b)[|total| + put + j - dist];
    }
    CopyIs(out, s, dist);
  }

  lemma WindowReach(whave: nat, total: seq<nat>, put: nat, offset: nat)
    requires whave == Least(|total|, WSIZE) && put < offset <= WSIZE
    ensures offset - put > whave <==> offset > |total| + put
  {
  }

  lemma {:induction false} CopyTwice(out: seq<nat>, dist: nat, m: nat, n: nat)
    requires 1 <= dist <= |out|
    ensures |CopyMatch(out, dist, m)| == |out| + m
    ensures CopyMatch(CopyMatch(out, dist, m), dist, n) == CopyMatch(out, dist, m + n)
    decreases m
  {
    CopyLength(out, dist, m);
    if m > 0 { CopyTwice(out + [out[|out| - dist]], dist, m - 1, n); }
  }

  /** n bytes of a match at distance dist have been written behind the output b. */
  ghost predicate Extends(total: seq<nat>, b: seq<nat>, b': seq<nat>, dist: nat, n: nat)
  {
    |b'| == |b| + n && b <= b' && total + b' == CopyMatch(total + b, dist, n)
  }

  lemma ExtendsTwice(total: seq<nat>, b: seq<nat>, b1: seq<nat>, b2: seq<nat>, dist: nat, m: nat, n: nat)
    requires 1 <= dist <= |total| + |b| && Extends(total, b, b1, dist, m) && Extends(total, b1, b2, dist, n)
    ensures Extends(total, b, b2, dist, m + n)
  {
    hide CopyMatch;
    CopyTwice(total + b, dist, m, n);
  }

  /** A copy within the output. */
  lemma CopiedExtends(s: seq<nat>, s0: seq<nat>, total: seq<nat>, put: nat, dist: nat, n: nat, hi: nat)
    requires Copied(s, s0, put, dist, n, hi)
    ensures Extends(total, s0[..put], s[..put + n], dist, n)
  {
    hide CopyMatch;
    var b := s[..put + n];
    assert b[..put] == s0[..put];
    forall j | put <= j < |b|
      ensures b[j] == b[j - dist]
    {
      assert s[j] == s[j - dist];
    }
    OutputCopy(total, b, put, dist);
  }

  /** A copy from the window. */
  lemma BroughtExtends(s: seq<nat>, s0: seq<nat>, w: seq<nat>, wnext: nat, whave: nat, total: seq<nat>, put: nat,
                       dist: nat, n: nat, hi: nat)
    requires RingHolds(w, wnext, whave, total) && put < dist && dist - put <= whave &&
      n <= WindowRun(wnext, dist - put) && put <= |s0|
    requires 0 <= WindowFrom(wnext, dist - put) && Brought(s, s0, put, w, WindowFrom(wnext, dist - put), n, hi)
    ensures Extends(total, s0[..put], s[..put + n], dist, n)
  {
    hide CopyMatch, RingHolds, WindowFrom, WindowRun;
    var b, from := s0[..put], WindowFrom(wnext, dist - put);
    WindowCopy(w, wnext, whave, total, b, dist, n);
    assert s[..put + n] == b + w[from..from + n];
    assert total + b + w[from..from + n] == total + (b + w[from..from + n]);
  }

  /** Copy n bytes from the window, with whole chunks or not. */
  method WindowPiece(win: Window, out: array<nat>, put: nat, dist: nat, n: nat, wide: bool, near: bool,
                     ghost total: seq<nat>)
    requires out != win.window && win.Valid(total) && put < dist && dist - put <= win.whave && put + n <= out.Length
    requires 1 <= n <= WindowRun(win.wnext, dist - put)
    modifies out
    ensures Extends(total, old(out[..put]), out[..put + n], dist, n)
  {
    hide Extends, RingHolds, Brought, WindowFrom, WindowRun;
    var from := WindowStart(win, dist - put, n, total);
    ghost var s0 := out[..];
    if wide {
      ChunkCopySafeAcross(win.window, from, out, put, n, out.Length, near);
      BroughtExtends(out[..], s0, win.window[..], win.wnext, win.whave, total, put, dist, n, out.Length);
    } else {
      MemcpyAcross(win.window, from, out, put, n);
      BroughtExtends(out[..], s0, win.window[..], win.wnext, win.whave, total, put, dist, n, put + n);
    }
    assert s0[..put] == old(out[..put]);
  }

  method WindowStart(win: Window, back: nat, n: nat, ghost total: seq<nat>) returns (from: nat)
    requires win.Valid(total) && 1 <= back <= win.whave && n <= WindowRun(win.wnext, back)
    ensures from == WindowFrom(win.wnext, back) && from + n <= win.window.Length
  {
    hide RingHolds;
    RingParts(win.window[..], win.wnext, win.whave, total);
    from := if back > win.wnext then WSIZE - (back - win.wnext) else win.wnext - back;
  }

  /** MATCH copies within the output: chunkmemset_safe. */
  method OutputPiece(out: array<nat>, put: nat, dist: nat, len: nat, addr: nat, ghost total: seq<nat>) returns (n: nat)
    requires 1 <= dist <= put <= out.Length
    modifies out
    ensures n == (if len < out.Length - put then len else out.Length - put)
    ensures Extends(total, old(out[..put]), out[..put + n], dist, n)
  {
    hide Extends, Copied;
    ghost var s0 := out[..];
    n := ChunkMemsetSafe(out, put, put - dist, len, out.Length - put, addr);
    CopiedExtends(out[..], s0, total, put, dist, n, out.Length);
    assert s0[..put] == old(out[..put]);
  }

  /** inflate_fast copies within the output: CHUNKCOPY, CHUNKMEMSET or chunkcopy_safe. */
  method OutputMatch(safe: bool, out: array<nat>, put: nat, dist: nat, len: nat, ghost total: seq<nat>)
    requires 1 <= dist <= put && 1 <= len && put + len <= out.Length && (!safe ==> put + CHUNK <= out.Length)
    modifies out
    ensures Extends(total, old(out[..put]), out[..put + len], dist, len)
  {
    hide Extends, Copied;
    ghost var s0 := out[..];
    if safe {
      var n := CopySafe(out, put, put - dist, len, out.Length);
      CopiedExtends(out[..], s0, total, put, dist, len, put + len);
    } else {
      if dist >= len || dist > CHUNK {
        ChunkCopy.ChunkCopy(out, put, put - dist, len);
      } else {
        ChunkMemset(out, put, put - dist, len);
      }
      CopiedExtends(out[..], s0, total, put, dist, len, put + Max(len, CHUNK));
    }
    assert s0[..put] == old(out[..put]);
  }

  /** The rest of a match behind what came from the window: CHUNKUNROLL and CHUNKCOPY_SAFE, or chunkcopy_safe. */
  method OutputRest(safe: bool, out: array<nat>, put: nat, dist: nat, len: nat, ghost total: seq<nat>)
    requires 1 <= dist <= put && 1 <= len && put + len <= out.Length && (!safe ==> put - dist + 2 * CHUNK <= out.Length)
    modifies out
    ensures Extends(total, old(out[..put]), out[..put + len], dist, len)
  {
    hide Extends, Copied;
    ghost var s0 := out[..];
    if safe {
      var n := CopySafe(out, put, put - dist, len, out.Length);
      CopiedExtends(out[..], s0, total, put, dist, len, put + len);
    } else {
      var at, dist', len' := ChunkUnroll(out, put, dist, len);
      ghost var s1, m := out[..], at - put;
      CopiedWider(s1, s0, put, dist, m, Max(at, put - dist + 2 * CHUNK), out.Length);
      ChunkCopySafe(out, at, at - dist', len', out.Length);
      CopiedOn(out[..], s1, s0, put, dist, m, out.Length, at, len', out.Length);
      CopiedExtends(out[..], s0, total, put, dist, len, out.Length);
    }
    assert s0[..put] == old(out[..put]);
  }

  /** The copy of a whole match in inflate_fast: from the end of the window, its start, and the output. */
  method CopyAll(safe: bool, len: nat, dist: nat, out: array<nat>, put: nat, win: Window, near: bool,
                 ghost total: seq<nat>)
    requires 1 <= len && put + len <= out.Length && (!safe ==> put + 2 * CHUNK <= out.Length)
    requires out != win.window && win.Valid(total) && 1 <= dist && (dist > put ==> dist - put <= win.whave)
    modifies out
    ensures Extends(total, old(out[..put]), out[..put + len], dist, len)
  {
    hide Extends, RingHolds;
    if dist <= put {
      OutputMatch(safe, out, put, dist, len, total);
      return;
    }
    ghost var b := out[..put];
    Reachable(win, dist - put, total);
    var op := WindowRun(win.wnext, dist - put);
    if 0 != win.wnext < dist - put && op < len {
      WindowPiece(win, out, put, dist, op, true, near, total);
      ghost var b1 := out[..put + op];
      FromWindowOn(safe, out, put + op, dist, len - op, win.wnext, win, near, total);
      ExtendsTwice(total, b, b1, out[..put + len], dist, op, len - op);
    } else {
      FromWindowOn(safe, out, put, dist, len, op, win, near, total);
    }
  }

  lemma Reachable(win: Window, back: nat, total: seq<nat>)
    requires win.Valid(total) && 1 <= back <= win.whave
    ensures back <= |total|
  {
    hide RingHolds;
    RingParts(win.window[..], win.wnext, win.whave, total);
  }

  /** The next op bytes of the window, and then the output. */
  method FromWindowOn(safe: bool, out: array<nat>, put: nat, dist: nat, len: nat, op: nat, win: Window, near: bool,
                      ghost total: seq<nat>)
    requires 1 <= len && put + len <= out.Length && (!safe ==> 2 * CHUNK <= out.Length) && out != win.window &&
      win.Valid(total)
    requires put < dist && dist - put <= win.whave && op == WindowRun(win.wnext, dist - put) &&
      (op < len ==> put + op == dist)
    modifies out
    ensures Extends(total, old(out[..put]), out[..put + len], dist, len)
  {
    hide Extends, RingHolds;
    ghost var b := out[..put];
    if op < len {
      Reachable(win, dist - put, total);
      WindowPiece(win, out, put, dist, op, !safe, near, total);
      ghost var b1 := out[..put + op];
      OutputRest(safe, out, put + op, dist, len - op, total);
      ExtendsTwice(total, b, b1, out[..put + len], dist, op, len - op);
    } else {
      WindowPiece(win, out, put, dist, len, !safe, near, total);
    }
  }
}
