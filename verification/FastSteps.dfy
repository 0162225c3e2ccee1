/** What the entries that the fast loop finds mean for the decoder over bits. */
module FastSteps {
  import opened Bits
  import opened TableSpec
  import opened Tokens
  import opened MatchCodes
  import opened InflateSpec
  import opened InflateRun
  import opened Decoding
  import opened TableLookup
  import opened InflateModes
  import opened InflateCodes
  import opened InflateOutput

  ghost predicate Leads(a: State, b: State) { exists k: nat :: Reaches(a, b, k) }

  lemma LeadsBy(a: State, b: State, k: nat)
    requires Reaches(a, b, k)
    ensures Leads(a, b)
  {
  }

  lemma LeadsTrans(a: State, b: State, c: State)
    requires Leads(a, b) && Leads(b, c)
    ensures Leads(a, c)
  {
    hide Reaches;
    var j: nat :| Reaches(a, b, j);
    var k: nat :| Reaches(b, c, k);
    ReachesTrans(a, b, c, j, k);
  }

  lemma LeadsKeeps(a: State, b: State)
    requires Leads(a, b) && WellFormed(a.d)
    ensures WellFormed(b.d)
  {
    hide Reaches, WellFormed;
    var k: nat :| Reaches(a, b, k);
    ReachesRun(a, b, k);
  }

  lemma LeadsMoved(a: State, b: State)
    requires Leads(a, b) && a != b
    ensures Moved(a, b, false)
  {
    hide Reaches;
    var k: nat :| Reaches(a, b, k);
    if k == 0 { NoSteps(a, b); }
  }

  lemma NoSteps(a: State, b: State)
    requires Reaches(a, b, 0)
    ensures a == b
  {
  }

  /** One step that reads n bits. */
  lemma LeadsOne(d: Dec, u: Bits, out: seq<nat>, room: nat, d': Dec, n: nat)
    requires Reads(d.mode) && Act(d, u, [], 0) == Go(d', n, [])
    ensures n <= |u| && Leads(State(d, u, out, room), State(d', u[n..], out, room))
  {
    hide Act, Reaches;
    AnyRoom(d, u, out, room);
    assert u == u[..n] + u[n..] && out + [] == out;
    OneStep(d, u[..n], u[n..], out, room, d', []);
    LeadsBy(State(d, u, out, room), State(d', u[n..], out, room), 1);
  }

  // ---- symbols ----

  lemma LenLeads(d: Dec, u: Bits, out: seq<nat>, room: nat, e: Entry, n0: nat)
    requires d.mode.LEN? && |d.ll| <= 288 && Recognized(LENS, d.ll, u, e, n0)
    ensures n0 + CodeBitsOf(e) <= |u|
    ensures Leads(State(d, u, out, room), State(LenResult(d, e), u[n0 + CodeBitsOf(e)..], out, room))
  {
    hide Act, Recognized, Leads, LenResult, CodeBitsOf;
    LenGo(d, u, e, n0);
    LeadsOne(d, u, out, room, LenResult(d, e), n0 + CodeBitsOf(e));
  }

  lemma DistLeads(d: Dec, u: Bits, out: seq<nat>, room: nat, e: Entry, n0: nat)
    requires d.mode.DIST? && |d.dl| <= 32 && Recognized(DISTS, d.dl, u, e, n0)
    ensures n0 + CodeBitsOf(e) <= |u|
    ensures Leads(State(d, u, out, room), State(DistResult(d, e), u[n0 + CodeBitsOf(e)..], out, room))
  {
    hide Act, Recognized, Leads, DistResult, CodeBitsOf;
    DistGo(d, u, e, n0);
    LeadsOne(d, u, out, room, DistResult(d, e), n0 + CodeBitsOf(e));
  }

  lemma PlainOp(e: Entry)
    requires e.op == 0 || e.op / 32 % 2 == 1 || e.op / 64 % 2 == 1
    requires e.op / 16 % 2 == 0
    ensures CodeBitsOf(e) == e.bits
  {
  }

  /** A literal: its code is dropped and its byte written. */
  lemma LitLeads(d: Dec, u: Bits, out: seq<nat>, room: nat, e: Entry, n0: nat)
    requires d.mode.LEN? && |d.ll| <= 288 && Recognized(LENS, d.ll, u, e, n0) && e.op == 0 && room >= 1
    ensures n0 + e.bits <= |u|
    ensures Leads(State(d, u, out, room),
                  State(d.(length := e.val, toks := d.toks + [Lit(e.val)]), u[n0 + e.bits..], out + [e.val], room - 1))
  {
    hide Act, Recognized, Leads, Reaches;
    LenLeads(d, u, out, room, e, n0);
    PlainOp(e);
    var d1, u1 := LenResult(d, e), u[n0 + e.bits..];
    ActLitIs(d1, u1, out, room);
    var d2 := d.(length := e.val, toks := d.toks + [Lit(e.val)]);
    assert [] + u1 == u1;
    OneStep(d1, [], u1, out, room, d2, [e.val]);
    LeadsBy(State(d1, u1, out, room), State(d2, u1, out + [e.val], room - 1), 1);
    LeadsTrans(State(d, u, out, room), State(d1, u1, out, room), State(d2, u1, out + [e.val], room - 1));
  }

  /** Code and extra bits of a length or distance are dropped together. */
  lemma ExtLeads(d: Dec, u: Bits, out: seq<nat>, room: nat)
    requires (d.mode.LENEXT? || d.mode.DISTEXT?) && d.extra <= |u|
    ensures Act(d, u, [], 0).Go?
    ensures var x := Field(u, 0, d.extra);
      (d.mode.LENEXT? ==> Leads(State(d, u, out, room),
        State(d.(mode := DIST, length := d.length + x), u[d.extra..], out, room))) &&
      (d.mode.DISTEXT? ==>
        Leads(State(d, u, out, room), State(d.(mode := MATCH, offset := d.offset + x, toks := Act(d, u, [], 0).d.toks),
          u[d.extra..], out, room)))
  {
    hide Leads, Field;
    ExtGo(d, u);
    hide Act;
    var d' := Act(d, u, [], 0).d;
    LeadsOne(d, u, out, room, d', d.extra);
  }

  predicate IsBase(e: Entry) { e.op / 16 % 2 == 1 && e.op < 32 && e.op % 16 <= e.bits }

  lemma BaseBits(e: Entry)
    requires IsBase(e)
    ensures CodeBitsOf(e) == e.op % 16 && CodeExtraOf(e) == e.bits - e.op % 16 && e.op != 0
    ensures e.op / 32 % 2 == 0 && e.op / 64 % 2 == 0
  {
  }

  lemma FieldBehind(u: Bits, n0: nat, a: nat, n: nat)
    requires n0 + a + n <= |u|
    ensures Field(u[n0 + a..], 0, n) == Field(u[n0..], a, n) && u[n0 + a..][n..] == u[n0 + a + n..]
  {
    assert u[n0 + a..][0..0 + n] == u[n0..][a..a + n];
  }

  /** The state after a length, from its base and its extra bits. */
  function AfterLength(d: Dec, e: Entry, x: nat): (d': Dec)
  {
    d.(mode := DIST, length := e.val + x, extra := CodeExtraOf(e))
  }

  lemma LengthLeads(d: Dec, u: Bits, out: seq<nat>, room: nat, e: Entry, n0: nat)
    requires d.mode.LEN? && |d.ll| <= 288 && Recognized(LENS, d.ll, u, e, n0) && IsBase(e) && n0 + e.bits <= |u|
    ensures Leads(State(d, u, out, room),
                  State(AfterLength(d, e, Field(u[n0..], e.op % 16, e.bits - e.op % 16)), u[n0 + e.bits..], out, room))
  {
    hide Act, Recognized, Leads, Field, IsBase;
    LenLeads(d, u, out, room, e, n0);
    BaseBits(e);
    hide CodeBitsOf, CodeExtraOf;
    var a, n := e.op % 16, e.bits - e.op % 16;
    var d1 := d.(mode := LENEXT, length := e.val, extra := n);
    assert LenResult(d, e) == d1;
    FieldBehind(u, n0, a, n);
    ExtLeads(d1, u[n0 + a..], out, room);
    LeadsTrans(State(d, u, out, room), State(d1, u[n0 + a..], out, room),
               State(AfterLength(d, e, Field(u[n0..], a, n)), u[n0 + e.bits..], out, room));
  }

  /** The state after a distance, before the match is copied. */
  ghost predicate AfterDistance(d: Dec, d': Dec, dist: nat)
  {
    d'.mode.MATCH? && d'.length == d.length && d'.offset == dist && d'.ll == d.ll && d'.dl == d.dl && d'.last == d.last
  }

  lemma DistanceLeads(d: Dec, u: Bits, out: seq<nat>, room: nat, e: Entry, n0: nat) returns (d': Dec)
    requires d.mode.DIST? && |d.dl| <= 32 && Recognized(DISTS, d.dl, u, e, n0) && IsBase(e) && n0 + e.bits <= |u|
    ensures AfterDistance(d, d', e.val + Field(u[n0..], e.op % 16, e.bits - e.op % 16))
    ensures Leads(State(d, u, out, room), State(d', u[n0 + e.bits..], out, room))
  {
    hide Act, Recognized, Leads, Field, IsBase;
    DistLeads(d, u, out, room, e, n0);
    BaseBits(e);
    hide CodeBitsOf, CodeExtraOf;
    var a, n := e.op % 16, e.bits - e.op % 16;
    var d1 := d.(mode := DISTEXT, offset := e.val, extra := n);
    assert DistResult(d, e) == d1;
    FieldBehind(u, n0, a, n);
    ExtLeads(d1, u[n0 + a..], out, room);
    d' := d1.(mode := MATCH, offset := d1.offset + Field(u[n0 + a..], 0, n),
      toks := Act(d1, u[n0 + a..], [], 0).d.toks);
    LeadsTrans(State(d, u, out, room), State(d1, u[n0 + a..], out, room), State(d', u[n0 + e.bits..], out, room));
  }

  // ---- sizes of entries ----

  /** How many bits a literal/length entry takes. */
  lemma LenEntrySize(ll: seq<nat>, u: Bits, e: Entry, n0: nat)
    requires |ll| <= 288 && Recognized(LENS, ll, u, e, n0)
    ensures e.op == 0 || e.op / 32 % 2 == 1 || e.op / 64 % 2 == 1 || IsBase(e)
    ensures n0 + e.bits <= 30 && (IsBase(e) ==> n0 + e.bits <= 20 && 1 <= e.val && e.val + Pow2(CodeExtraOf(e)) <= 259)
    ensures (e.op == 0 || e.op / 64 % 2 == 1) ==> e.op / 16 % 2 == 0
    ensures e.op / 32 % 2 == 1 ==> e.op / 64 % 2 == 1
    ensures e.op == 0 ==> Lookup(LENS, ll, u).Sym? && n0 + e.bits == Lookup(LENS, ll, u).n
  {
    hide Lookup, Pow2, EntryFor, InflateSpec.Need, CodeBitsOf;
    var f := Lookup(LENS, ll, u);
    if f.Sym? { LenForm(f.s, f.n - n0); }
  }

  /** What is known of the entry of a literal/length symbol in n bits. */
  predicate LenShape(e: Entry, n: nat)
  {
    (e.op == 0 || e.op / 32 % 2 == 1 || e.op / 64 % 2 == 1 || IsBase(e)) && e.bits <= n + 15 &&
    (IsBase(e) ==> e.bits <= n + 5 && 1 <= e.val && e.val + Pow2(CodeExtraOf(e)) <= 259) &&
    ((e.op == 0 || e.op / 64 % 2 == 1) ==> e.op / 16 % 2 == 0) && (e.op == 0 ==> e.bits == n) &&
    (e.op / 32 % 2 == 1 ==> e.op / 64 % 2 == 1)
  }

  lemma LenForm(s: nat, n: nat)
    requires s < 288 && 1 <= n <= 15
    ensures LenShape(EntryFor(LENS, s, n), n)
  {
    hide Pow2, LenShape, EntryFor;
    if s < 257 { PlainShape(s, n); } else { CodeShape(s - 257, n); }
  }

  lemma CodeShape(k: nat, n: nat)
    requires k < 31 && 1 <= n <= 15
    ensures LenShape(EntryFor(LENS, 257 + k, n), n)
  {
    hide Pow2, LenShape, EntryFor;
    UnusedOps(k);
    if k < 29 {
      LBaseRange(k);
      LengthShape(LEXT[k], LBASE[k], n);
      LengthEntryIs(k, n);
    } else {
      UnusedShape(k, n);
    }
  }

  lemma PlainShape(s: nat, n: nat)
    requires s < 257
    ensures LenShape(EntryFor(LENS, s, n), n)
  {
    hide Pow2;
  }

  lemma LengthEntryIs(k: nat, n: nat)
    requires k < 29 && 16 <= LEXT[k] < 32
    ensures EntryFor(LENS, 257 + k, n) == Entry(n + LEXT[k] % 16, n + 16, LBASE[k])
  {
  }

  lemma LengthShape(op: nat, base: nat, n: nat)
    requires 16 <= op < 32 && n <= 15 && 1 <= base && op % 16 <= 5 && base + Pow2(op % 16) <= 259
    ensures LenShape(Entry(n + op % 16, n + 16, base), n)
  {
    hide Pow2;
    OpBits(op, n);
  }

  lemma UnusedShape(k: nat, n: nat)
    requires 29 <= k < 31 && (k == 29 ==> LEXT[k] == 199) && (k == 30 ==> LEXT[k] == 75)
    ensures LenShape(EntryFor(LENS, 257 + k, n), n)
  {
    hide Pow2;
  }

  lemma LBaseRange(k: nat)
    requires k < 29
    ensures 1 <= LBASE[k] && LEXT[k] % 16 <= 5 && LBASE[k] + Pow2(LEXT[k] % 16) <= 259
  {
    if k < 28 {
      LTable(k);
      BaseLStep(k);
      Ends();
      if k < 27 { BaseLMono(k + 1, 28); }
      SmallExtraL(k);
    } else {
      Pow2Table();
    }
  }

  lemma SmallExtraL(k: nat)
    requires k < 28
    ensures ExtraL(k) <= 5 && (16 + ExtraL(k)) % 16 == ExtraL(k)
  {
  }

  lemma DistEntrySize(dl: seq<nat>, u: Bits, e: Entry, n0: nat)
    requires |dl| <= 32 && Recognized(DISTS, dl, u, e, n0)
    ensures e.op / 64 % 2 == 1 || IsBase(e)
    ensures n0 + e.bits <= 28 && (e.op / 64 % 2 == 1 ==> e.op / 16 % 2 == 0)
    ensures IsBase(e) ==> e.val >= 1 && CodeExtraOf(e) <= 15 && e.val + Pow2(CodeExtraOf(e)) <= 32769
  {
    hide Lookup, Pow2, EntryFor, IsBase, CodeExtraOf, INVALID, Need, CodeBitsOf;
    var f := Lookup(DISTS, dl, u);
    if f.Sym? {
      DistForm(f.s, f.n - n0);
      DistValue(f.s, f.n - n0);
    } else {
      InvalidDistance();
    }
  }

  lemma InvalidDistance()
    ensures INVALID.op / 64 % 2 == 1 && INVALID.bits == 1 && INVALID.op / 16 % 2 == 0 && !IsBase(INVALID)
  {
  }

  lemma DistForm(s: nat, n: nat)
    requires s < 32 && 1 <= n <= 15
    ensures var e := EntryFor(DISTS, s, n);
      (e.op / 64 % 2 == 1 || IsBase(e)) && e.bits <= n + 13 && (e.op / 64 % 2 == 1 ==> e.op / 16 % 2 == 0) &&
      (IsBase(e) ==> e.op / 64 % 2 == 0)
  {
    DExtRange(s);
    OpBits(DEXT[s], n);
    if DEXT[s] != 64 {
      UsedDistance(s);
      DistSpan(s);
    }
  }
}
