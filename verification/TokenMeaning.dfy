/** What the tokens and blocks produced so far stand for: exactly the input that has been compressed. */
module TokenMeaning {
  import opened Bits
  import opened Slices
  import opened Tokens
  import opened FlushBlock
  import opened Decoding
  import opened BlockRoundTrip
  import opened MatchCopy
  import opened MatchFinder

  // ---- one more token ----

  lemma {:induction false} ExpandSnoc(out: seq<nat>, toks: seq<Token>, t: Token)
    ensures Expand(out, toks + [t]) == ExpandOne(Expand(out, toks), t)
    ensures Within(out, toks + [t]) <==> Within(out, toks) && (t.Match? ==> t.dist <= |Expand(out, toks)|)
    decreases |toks|
  {
    hide ExpandOne;
    if |toks| == 0 {
      assert (toks + [t])[1..] == [];
      assert Expand(ExpandOne(out, t), []) == ExpandOne(out, t);
    } else {
      assert (toks + [t])[1..] == toks[1..] + [t] && (toks + [t])[0] == toks[0];
      ExpandSnoc(ExpandOne(out, toks[0]), toks[1..], t);
    }
  }

  /** The tokens since place b of the input expand to the input up to place p. */
  ghost predicate Means(toks: seq<Token>, input: seq<nat>, b: int, p: int)
  {
    0 <= b <= p <= |input| && Within(input[..b], toks) && Expand(input[..b], toks) == input[..p]
  }

  lemma MeansNothing(input: seq<nat>, p: nat)
    requires p <= |input|
    ensures Means([], input, p, p)
  {
  }

  lemma MeansLit(toks: seq<Token>, input: seq<nat>, b: int, p: int)
    requires Means(toks, input, b, p) && p < |input|
    ensures Means(toks + [Lit(input[p])], input, b, p + 1)
  {
    hide Expand, Within;
    ExpandSnoc(input[..b], toks, Lit(input[p]));
    assert input[..p + 1] == input[..p] + [input[p]];
  }

  /** len bytes at p repeat what is dist places before them. */
  ghost predicate Repeats(input: seq<nat>, p: int, dist: nat, len: nat)
  {
    1 <= dist <= p && p + len <= |input| && input[p - dist..p - dist + len] == input[p..p + len]
  }

  lemma MeansMatch(toks: seq<Token>, input: seq<nat>, b: int, p: int, dist: nat, len: nat)
    requires Means(toks, input, b, p) && Repeats(input, p, dist, len) && len >= 3
    ensures Means(toks + [Match(len - 3, dist)], input, b, p + len)
  {
    hide Expand, Within, CopyMatch;
    ExpandSnoc(input[..b], toks, Match(len - 3, dist));
    var out, s := input[..p], input[p..p + len];
    assert out + s == input[..p + len];
    forall j | 0 <= j < |s|
      ensures s[j] == (out + s)[|out| + j - dist]
    {
      assert s[j] == input[p - dist..p - dist + len][j];
    }
    CopyIs(out, s, dist);
  }

  lemma MeansMore(toks: seq<Token>, input: seq<nat>, b: int, p: int, input': seq<nat>)
    requires Means(toks, input, b, p) && input <= input'
    ensures Means(toks, input', b, p)
  {
    assert input'[..b] == input[..b] && input'[..p] == input[..p];
  }

  /** A match found in the window is a repeat in the input. */
  lemma WindowRepeats(w: seq<nat>, input: seq<nat>, base: nat, end: nat, start: nat, strstart: nat, len: nat)
    requires end <= |w| && |input| == base + end && w[..end] == input[base..] && start < strstart &&
      strstart + len <= end
    requires Same(w, start, strstart, len)
    ensures Repeats(input, base + strstart, strstart - start, len)
  {
    assert input[base..] == input[base..base + end];
    SubSlice(input, base, base + end, start, start + len);
    SubSlice(input, base, base + end, strstart, strstart + len);
    SubSlice(w, 0, end, start, start + len);
    SubSlice(w, 0, end, strstart, strstart + len);
  }

  // ---- one more block ----

  /** The stream after the blocks bs, none of which is the last one. */
  function Unfinished(s: Bits, bs: seq<Block>): (r: Bits)
    decreases |bs|
  {
    if |bs| == 0 then s else Unfinished(WithBlock(s, bs[0], false), bs[1..])
  }

  lemma {:induction false} UnfinishedSnoc(s: Bits, bs: seq<Block>, b: Block)
    ensures Unfinished(s, bs + [b]) == WithBlock(Unfinished(s, bs), b, false)
    ensures StreamOf(s, bs + [b]) == Align(WithBlock(Unfinished(s, bs), b, true))
    decreases |bs|
  {
    hide WithBlock;
    if |bs| == 0 {
      assert (bs + [b])[1..] == [];
      assert Unfinished(WithBlock(s, b, false), []) == WithBlock(s, b, false);
      assert StreamOf(WithBlock(s, b, true), []) == Align(WithBlock(s, b, true));
    } else {
      assert (bs + [b])[1..] == bs[1..] + [b] && (bs + [b])[0] == bs[0];
      UnfinishedSnoc(WithBlock(s, bs[0], false), bs[1..], b);
    }
  }

  lemma {:induction false} ContentsSnoc(out: seq<nat>, bs: seq<Block>, b: Block)
    ensures Contents(out, bs + [b]) == Content(Contents(out, bs), b)
    ensures AllSendable(out, bs + [b]) <==> AllSendable(out, bs) && Sendable(Contents(out, bs), b)
    decreases |bs|
  {
    hide Content, Sendable;
    if |bs| == 0 {
      assert (bs + [b])[1..] == [];
      assert Contents(Content(out, b), []) == Content(out, b);
    } else {
      assert (bs + [b])[1..] == bs[1..] + [b] && (bs + [b])[0] == bs[0];
      ContentsSnoc(Content(out, bs[0]), bs[1..], b);
    }
  }

  /** The blocks stand for the input up to place b, and the tokens for what follows up to place p. */
  ghost predicate Tracks(blocks: seq<Block>, toks: seq<Token>, input: seq<nat>, b: int, p: int)
  {
    Means(toks, input, b, p) && AreBytes(input) && AllSendable([], blocks) && Contents([], blocks) == input[..b]
  }

  /** Flushing the current block moves its tokens, or the bytes they stand for, into a block. */
  lemma TracksFlush(blocks: seq<Block>, toks: seq<Token>, input: seq<nat>, b: int, p: int, block: Block,
                    buf: Option<seq<nat>>)
    requires Tracks(blocks, toks, input, b, p) && GoodBlock(block, toks, buf)
    requires buf.Some? ==> buf.value == input[b..p] && p - b <= 65535
    ensures Tracks(blocks + [block], [], input, p, p)
  {
    hide Expand, Within, AllSendable, Contents, GoodDynamic;
    ContentsSnoc([], blocks, block);
    MeansNothing(input, p);
    assert input[..b] + input[b..p] == input[..p];
  }
}
