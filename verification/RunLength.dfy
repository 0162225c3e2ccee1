/** The run-length code for code lengths, section 3.2.7 of RFC 1951: the symbols that trees.c scan_tree counts and
    send_tree emits, and the repeat rules that inflate() applies in its CODELENS mode. */
module RunLength {
  import opened Counting

  const REP_3_6: nat := 16
  const REPZ_3_10: nat := 17
  const REPZ_11_138: nat := 18
  const BL_CODES: nat := 19

  /** A symbol of the code length alphabet with the value of its extra bits. */
  datatype ClSym = ClSym(code: nat, extra: nat)

  /** extra_blbits. */
  function ExtraBits(code: nat): (n: nat)
  {
    if code == REP_3_6 then 2 else if code == REPZ_3_10 then 3 else if code == REPZ_11_138 then 7 else 0
  }

  /** A length that no symbol has: the guard after the last length, and the previous length of the first. */
  const GUARD: nat := 0xffff

  function NextLen(lens: seq<nat>, n: nat): (l: nat) { if n < |lens| then lens[n] else GUARD }

  function MaxCount(next: nat, cur: nat): (m: nat) { if next == 0 then 138 else if cur == next then 6 else 7 }

  function MinCount(next: nat, cur: nat): (m: nat) { if next == 0 || cur == next then 3 else 4 }

  function Literals(cur: nat, n: nat): (s: seq<ClSym>)
  {
    if n == 0 then [] else [ClSym(cur, 0)] + Literals(cur, n - 1)
  }

  /** What is sent for a run of count lengths cur after a length prev. */
  function Emit(cur: nat, prev: nat, count: nat): (s: seq<ClSym>)
  {
    if count < MinCount(cur, prev) then Literals(cur, count)
    else if cur != 0 then
      if cur != prev then [ClSym(cur, 0), ClSym(REP_3_6, count - 1 - 3)] else [ClSym(REP_3_6, count - 3)]
    else if count <= 10 then [ClSym(REPZ_3_10, count - 3)]
    else [ClSym(REPZ_11_138, count - 11)]
  }

  /** The loop of scan_tree and send_tree from element n on: count elements of the current run have been passed and prev
      is the length sent last, or GUARD. */
  function RleFrom(lens: seq<nat>, n: nat, prev: nat, count: nat): (s: seq<ClSym>)
    requires n <= |lens|
    decreases |lens| - n
  {
    if n == |lens| then []
    else
      var cur, next := lens[n], NextLen(lens, n + 1);
      if count + 1 < MaxCount(cur, prev) && cur == next then RleFrom(lens, n + 1, prev, count + 1)
      else Emit(cur, prev, count + 1) + RleFrom(lens, n + 1, cur, 0)
  }

  /** The symbols sent for one tree. */
  function Rle(lens: seq<nat>): (s: seq<ClSym>) { RleFrom(lens, 0, GUARD, 0) }

  // ---- decoding ----

  datatype Decoded = Lens(lens: seq<nat>) | BadRepeat

  /** One symbol as CODELENS treats it: acc holds the lengths read so far, limit how many there must be. */
  function Apply(sym: ClSym, acc: seq<nat>, limit: nat): (r: Decoded)
  {
    if sym.code < 16 then Lens(acc + [sym.code])
    else if sym.code == 16 && |acc| == 0 then BadRepeat
    else
      var len := if sym.code == 16 then acc[|acc| - 1] else 0;
      var copy := sym.extra + (if sym.code == 18 then 11 else 3);
      if |acc| + copy > limit then BadRepeat else Lens(acc + Repeat(len, copy))
  }

  function Unrle(syms: seq<ClSym>, acc: seq<nat>, limit: nat): (r: Decoded)
  {
    if syms == [] then Lens(acc)
    else match Apply(syms[0], acc, limit)
      case BadRepeat => BadRepeat
      case Lens(acc') => Unrle(syms[1..], acc', limit)
  }

  lemma {:induction false} UnrleLiterals(cur: nat, n: nat, rest: seq<ClSym>, acc: seq<nat>, limit: nat)
    requires cur < 16
    ensures Unrle(Literals(cur, n) + rest, acc, limit) == Unrle(rest, acc + Repeat(cur, n), limit)
  {
    if n == 0 {
      assert Literals(cur, 0) + rest == rest && acc + Repeat(cur, 0) == acc;
    } else {
      assert (Literals(cur, n) + rest)[1..] == Literals(cur, n - 1) + rest;
      UnrleLiterals(cur, n - 1, rest, acc + [cur], limit);
      assert acc + [cur] + Repeat(cur, n - 1) == acc + Repeat(cur, n);
    }
  }

  lemma UnrleOne(sym: ClSym, rest: seq<ClSym>, acc: seq<nat>, limit: nat)
    ensures Unrle([sym] + rest, acc, limit) ==
      match Apply(sym, acc, limit) case BadRepeat => BadRepeat case Lens(a) => Unrle(rest, a, limit)
  {
    assert ([sym] + rest)[1..] == rest;
  }

  /** A run is decoded to what it stands for. */
  lemma UnrleEmit(cur: nat, prev: nat, count: nat, rest: seq<ClSym>, acc: seq<nat>, limit: nat)
    requires cur < 16 && 0 < count <= MaxCount(cur, prev) && |acc| + count <= limit
    requires prev == GUARD || (|acc| > 0 && acc[|acc| - 1] == prev)
    ensures Unrle(Emit(cur, prev, count) + rest, acc, limit) ==
            Unrle(rest, acc + Repeat(cur, count), limit)
  {
    hide Unrle;
    if count < MinCount(cur, prev) {
      UnrleLiterals(cur, count, rest, acc, limit);
    } else if cur != 0 && cur != prev {
      var a, b := ClSym(cur, 0), ClSym(REP_3_6, count - 4);
      assert [a, b] + rest == [a] + ([b] + rest);
      UnrleOne(a, [b] + rest, acc, limit);
      UnrleOne(b, rest, acc + [cur], limit);
      assert acc + [cur] + Repeat(cur, count - 1) == acc + Repeat(cur, count);
    } else {
      UnrleOne(Emit(cur, prev, count)[0], rest, acc, limit);
    }
  }

  lemma RunAt(lens: seq<nat>, n: nat, count: nat, cur: nat)
    requires count <= n < |lens| && lens[n] == cur && forall i :: n - count <= i < n ==> lens[i] == cur
    ensures lens[..n + 1] == lens[..n - count] + Repeat(cur, count + 1)
  {
  }

  lemma {:induction false} UnrleFrom(lens: seq<nat>, n: nat, prev: nat, count: nat, base: seq<nat>, rest: seq<ClSym>,
                                     limit: nat)
    requires count <= n <= |lens| && forall i :: 0 <= i < |lens| ==> lens[i] < 16
    requires count > 0 ==> n < |lens| && forall i :: n - count <= i < n ==> lens[i] == lens[n]
    requires count > 0 ==> count < MaxCount(NextLen(lens, n), prev)
    requires |base| + |lens| <= limit
    requires prev == GUARD || (n - count > 0 && lens[n - count - 1] == prev)
    ensures Unrle(RleFrom(lens, n, prev, count) + rest, base + lens[..n - count], limit) ==
            Unrle(rest, base + lens, limit)
    decreases |lens| - n
  {
    hide Unrle, Emit;
    if n == |lens| {
      assert [] + rest == rest && lens[..n] == lens;
    } else {
      var cur, next := lens[n], NextLen(lens, n + 1);
      if count + 1 < MaxCount(cur, prev) && cur == next {
        UnrleFrom(lens, n + 1, prev, count + 1, base, rest, limit);
      } else {
        var acc := base + lens[..n - count];
        var tail := RleFrom(lens, n + 1, cur, 0) + rest;
        UnrleEmit(cur, prev, count + 1, tail, acc, limit);
        RunAt(lens, n, count, cur);
        assert acc + Repeat(cur, count + 1) == base + (lens[..n - count] + Repeat(cur, count + 1)) ==
          base + lens[..n + 1 - 0];
        UnrleFrom(lens, n + 1, cur, 0, base, rest, limit);
        assert RleFrom(lens, n, prev, count) + rest == Emit(cur, prev, count + 1) + tail;
      }
    }
  }

  /** The literal/length and distance lengths survive the run-length code, whatever runs they have. */
  lemma RoundTrip(llens: seq<nat>, dlens: seq<nat>)
    requires forall i :: 0 <= i < |llens| ==> llens[i] < 16
    requires forall i :: 0 <= i < |dlens| ==> dlens[i] < 16
    ensures Unrle(Rle(llens) + Rle(dlens), [], |llens| + |dlens|) == Lens(llens + dlens)
  {
    hide Unrle, RleFrom;
    var limit := |llens| + |dlens|;
    assert [] + llens[..0] == [] && [] + llens == llens && llens + dlens[..0] == llens;
    UnrleFrom(llens, 0, GUARD, 0, [], Rle(dlens), limit);
    UnrleFrom(dlens, 0, GUARD, 0, llens, [], limit);
    assert Rle(dlens) + [] == Rle(dlens);
    assert Unrle([], llens + dlens, limit) == Lens(llens + dlens) by { UnrleNone(llens + dlens, limit); }
  }

  lemma UnrleNone(acc: seq<nat>, limit: nat)
    ensures Unrle([], acc, limit) == Lens(acc)
  {
  }
}
