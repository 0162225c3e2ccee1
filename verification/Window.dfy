/** inflate.c updatewindow: the circular window that holds the last 32768 bytes of output between calls. */
module Window {

  const WSIZE: nat := 32768

  /** The place p places after base in the ring. */
  function Place(base: nat, p: nat): (k: nat) { if base + p >= WSIZE then base + p - WSIZE else base + p }

  /** The place of the byte i places before the end, if the next one will be written at base. */
  function Back(base: nat, i: nat): (k: nat) { if i < WSIZE then Place(base, WSIZE - 1 - i) else 0 }

  function Least(a: nat, b: nat): (m: nat) { if a < b then a else b }

  /** The byte i places before the end of total is i places before wnext in the ring. */
  ghost predicate RingHolds(w: seq<nat>, wnext: nat, whave: nat, total: seq<nat>)
  {
    |w| == WSIZE && wnext < WSIZE && whave == Least(|total|, WSIZE) && (whave < WSIZE ==> wnext == whave) &&
    forall i :: 0 <= i < whave ==> w[Back(wnext, i)] == total[|total| - 1 - i]
  }

  /** Bytes data have been written from place wnext on, and nothing else has changed. */
  ghost predicate Written(w: seq<nat>, w': seq<nat>, wnext: nat, data: seq<nat>)
  {
    |w| == |w'| == WSIZE && wnext < WSIZE && |data| < WSIZE &&
    (forall p :: 0 <= p < |data| ==> w'[Place(wnext, p)] == data[p]) &&
    (forall q :: |data| <= q < WSIZE ==> w'[Place(wnext, q)] == w[Place(wnext, q)])
  }

  lemma RingAppend(w: seq<nat>, w': seq<nat>, wnext: nat, whave: nat, total: seq<nat>, data: seq<nat>)
    requires RingHolds(w, wnext, whave, total) && Written(w, w', wnext, data)
    ensures RingHolds(w', Place(wnext, |data|), Least(|total| + |data|, WSIZE), total + data)
  {
    var n, t' := |data|, total + data;
    var wnext', whave' := Place(wnext, n), Least(|t'|, WSIZE);
    forall i | 0 <= i < whave'
      ensures w'[Back(wnext', i)] == t'[|t'| - 1 - i]
    {
      if i < n {
        assert Back(wnext', i) == Place(wnext, n - 1 - i);
      } else {
        assert Back(wnext', i) == Place(wnext, WSIZE - 1 - (i - n)) == Back(wnext, i - n);
        assert t'[|t'| - 1 - i] == total[|total| - 1 - (i - n)];
      }
    }
  }

  /** A full window of new bytes replaces everything. */
  lemma RingFill(w: seq<nat>, total: seq<nat>)
    requires |w| == WSIZE <= |total| && w == total[|total| - WSIZE..]
    ensures RingHolds(w, 0, WSIZE, total)
  {
    forall i | 0 <= i < WSIZE
      ensures w[Back(0, i)] == total[|total| - 1 - i]
    {
      assert Back(0, i) == WSIZE - 1 - i;
    }
  }

  /** w with s stored from index at on. */
  function Splice(w: seq<nat>, at: nat, s: seq<nat>): (r: seq<nat>)
    requires at + |s| <= |w|
    ensures |r| == |w|
  {
    w[..at] + s + w[at + |s|..]
  }

  lemma SpliceNone(w: seq<nat>, at: nat, s: seq<nat>, from: nat)
    requires at <= |w| && from <= |s|
    ensures Splice(w, at, s[from..from]) == w
  {
  }

  lemma SpliceStep(w: seq<nat>, at: nat, s: seq<nat>, from: nat, i: nat)
    requires at + i < |w| && from + i < |s|
    ensures Splice(w, at, s[from..from + i])[at + i := s[from + i]] == Splice(w, at, s[from..from + i + 1])
  {
  }

  class Window {
    const window: array<nat>
    var wsize: nat
    var wnext: nat
    var whave: nat

    constructor ()
      ensures Valid([]) && fresh(window)
    {
      window := new nat[WSIZE](_ => 0);
      wsize, wnext, whave := 0, 0, 0;
    }

    /** The window holds the last bytes of total. */
    ghost predicate Valid(total: seq<nat>)
      reads this, window
    {
      window.Length == WSIZE && (wsize == 0 || wsize == WSIZE) && (wsize == 0 ==> total == []) &&
      RingHolds(window[..], wnext, whave, total)
    }

    /** memcpy into the window. */
    method CopyIn(at: nat, src: array<nat>, from: nat, n: nat)
      requires src != window && at + n <= window.Length && from + n <= src.Length
      modifies window
      ensures window[..] == Splice(old(window[..]), at, src[from..from + n])
    {
      hide Splice;
      SpliceNone(window[..], at, src[..], from);
      for i := 0 to n
        invariant window[..] == Splice(old(window[..]), at, src[from..from + i])
      {
        SpliceStep(old(window[..]), at, src[..], from, i);
        window[at + i] := src[from + i];
      }
    }

    /** updatewindow, for the len bytes of output that end at index end of src. */
    method Update(src: array<nat>, end: nat, len0: nat, ghost total: seq<nat>)
      requires Valid(total) && src != window && len0 <= end <= src.Length
      modifies this, window
      ensures Valid(total + src[end - len0..end]) && wsize == WSIZE
    {
      hide RingHolds, Splice;
      if wsize == 0 {
        wsize := WSIZE;
      }
      if len0 >= wsize {
        CopyIn(0, src, end - wsize, wsize);
        Latest(total, src[..end], len0);
        WholeCopy(old(window[..]), src[..], end, window[..]);
        RingFill(window[..], total + src[end - len0..end]);
        wnext, whave := 0, wsize;
      } else {
        UpdateRing(src, end, len0, total);
      }
    }

    /** Fewer bytes than the window holds. */
    method UpdateRing(src: array<nat>, end: nat, len0: nat, ghost total: seq<nat>)
      requires window.Length == WSIZE && wsize == WSIZE && RingHolds(window[..], wnext, whave, total)
      requires src != window && len0 <= end <= src.Length && len0 < WSIZE
      modifies this`wnext, this`whave, window
      ensures RingHolds(window[..], wnext, whave, total + src[end - len0..end])
    {
      hide RingHolds, Written;
      ghost var w := window[..];
      RingParts(w, wnext, whave, total);
      var dist := PutRing(src, end, len0);
      RingAppend(w, window[..], wnext, whave, total, src[end - len0..end]);
      var len := len0 - dist;
      if len != 0 {
        wnext, whave := len, wsize;
      } else {
        wnext := wnext + dist;
        if wnext == wsize {
          wnext := 0;
        }
        if whave < wsize {
          whave := whave + dist;
        }
      }
    }

    /** The copies of updatewindow, in one piece or two. */
    method PutRing(src: array<nat>, end: nat, len0: nat) returns (dist: nat)
      requires window.Length == WSIZE == wsize && wnext < WSIZE && src != window && len0 <= end <= src.Length &&
        len0 < WSIZE
      modifies window
      ensures Written(old(window[..]), window[..], wnext, src[end - len0..end])
      ensures dist == Least(WSIZE - wnext, len0)
    {
      hide Written, Splice;
      ghost var w, data := window[..], src[end - len0..end];
      dist := wsize - wnext;
      dist := if dist < len0 then dist else len0;
      CopyIn(wnext, src, end - len0, dist);
      ghost var w1 := window[..];
      Pieces(src[..], end, len0, dist);
      var len := len0 - dist;
      if len != 0 {
        CopyIn(0, src, end - len, len);
        TwoPieces(w, w1, window[..], wnext, data, dist);
      } else {
        OnePiece(w, w1, wnext, data);
      }
    }
  }

  lemma Pieces(s: seq<nat>, end: nat, n: nat, k: nat)
    requires k <= n <= end <= |s|
    ensures s[end - n..end - n + k] == s[end - n..end][..k] && s[end - (n - k)..end] == s[end - n..end][k..]
    ensures k == n ==> s[end - n..end][..k] == s[end - n..end]
  {
  }

  lemma WholeCopy(w: seq<nat>, s: seq<nat>, end: nat, w': seq<nat>)
    requires |w| == WSIZE <= end <= |s| && w' == Splice(w, 0, s[end - WSIZE..end - WSIZE + WSIZE])
    ensures w' == s[..end][end - WSIZE..]
  {
  }

  lemma Latest(total: seq<nat>, s: seq<nat>, n: nat)
    requires WSIZE <= n <= |s|
    ensures (total + s[|s| - n..])[|total| + n - WSIZE..] == s[|s| - WSIZE..]
  {
  }

  lemma RingParts(w: seq<nat>, wnext: nat, whave: nat, total: seq<nat>)
    requires RingHolds(w, wnext, whave, total)
    ensures wnext < WSIZE && whave == Least(|total|, WSIZE) && (whave < WSIZE ==> wnext == whave) && |w| == WSIZE
  {
  }

  lemma OnePiece(w: seq<nat>, w': seq<nat>, wnext: nat, data: seq<nat>)
    requires |w| == WSIZE && wnext < WSIZE && |data| < WSIZE && wnext + |data| <= WSIZE
    requires w' == Splice(w, wnext, data)
    ensures Written(w, w', wnext, data)
  {
    forall q | |data| <= q < WSIZE
      ensures w'[Place(wnext, q)] == w[Place(wnext, q)]
    {
    }
  }

  lemma TwoPieces(w: seq<nat>, w1: seq<nat>, w': seq<nat>, wnext: nat, data: seq<nat>, dist: nat)
    requires |w| == WSIZE && wnext < WSIZE && |data| < WSIZE && dist == WSIZE - wnext < |data|
    requires w1 == Splice(w, wnext, data[..dist]) && w' == Splice(w1, 0, data[dist..])
    ensures Written(w, w', wnext, data)
  {
    forall p | 0 <= p < |data|
      ensures w'[Place(wnext, p)] == data[p]
    {
    }
    forall q | |data| <= q < WSIZE
      ensures w'[Place(wnext, q)] == w[Place(wnext, q)]
    {
    }
  }
}
