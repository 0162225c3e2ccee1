# A verified model of a DEFLATE codec

This project models the generic C path (little-endian, 64-bit, symbols in one buffer) of the zlib-ng DEFLATE codec in Dafny
and proves what its parts promise: that the Huffman coder is optimal and its cost prediction exact, that the decoder's tables
and its fast loop agree with a plain decoder over bits, that cutting a stream into calls does not matter, that the
compression strategies only ever emit what repeats the input, and that what they emit is decoded to the input again.

The bits of a stream, machine words and pending bytes are sequences of booleans, least significant bit first. State that the
program updates in place is a class (`BitWriter`, `BlockState`, `BitReader`, `Window`, `Inflater`, `Lz`, `Deflater`) or an
array; the loops are loops. Five groups of modules build on each other:

- **Huffman coder and bit writer**: `RadixSort`, `SortLeaves`, `TwoQueue`, `MergeNodes`, `Huffman`, `TreeShape`,
  `LengthCounts`, `GenBitLen`, `GenCodes`, `BuildTree` (trees); `RunLength`, `ScanTree`, `TreeHeader`, `DynamicTrees`
  (headers); `MatchCodes`, `MakeTables`, `Tokens`, `CompressBlock`, `BlockCost`, `FixedCodes`, `FlushBlock` (blocks);
  `Overlay` (the shared buffer).
- **Decoder**: `TableSpec` to `InflateTable` (tables); `InflateSpec` and `InflateRun` (the decoder over bits, one step for
  every point at which `inflate()` can stop); `Inflate*` (the modes, refining it); `Reservoir`, `FastSteps`, `InflateFast`
  (the fast loop); `Decoding`, `BlockRoundTrip` (the round trip).
- **Copies**: `ChunkCopy`, `MatchCopy`.
- **LZ77**: `MatchFinder`, `MatchFinderSlow`, `HashChains`, `SlidingWindow`, `ReadLimits`, `Reinserts`, `TokenMeaning`,
  `DeflateState`, `LzSearch`, `MatchRuns`, `FastTurns`, `DeflateFast`, `LoneRuns`, `StaleLink`, `LazyTurns`, `DeflateSlow`,
  `Fizzle`, `MediumTurns`, `DeflateMedium`; `EndToEnd` joins them
  with the decoder.
- **Checksums**: `AdlerSpec`, `Adler32`, `CrcPoly`, `Crc32`, `CrcPeriod`.

`dafny verify dfyconfig.toml` checks everything.

## Findings

Where the code and its comments disagree, the model follows the code.

- `state->bits < 8` on entry of `inflate_fast` (inffast_tpl.h:27) does not hold: a call that ran out of input inside of a
  code leaves more bits, and the next call enters with them. `EntryBits.EightBitsReached` gives an input, and
  `EntryBits.EightBitsLeft` the exact condition. The loop is correct all the same: the first code needs more bits than were
  left over, so returning unused bytes never goes back past the input of the call (`InflateFast.FastLoop`).
- `fill_window` inserts the strings that were left over, and the one before them, when there is more input
  (deflate.c:1313-1335). Some of them may have been inserted before, with bytes behind them that were not input yet: by an
  earlier refill of one byte (deflate.c:1325-1331), or behind a match that ends with the input (deflate_fast.c:82).
  Inserting them again overwrites their links, and what is behind them in the old chains is lost to the search; only the
  choice of matches is affected. `StaleLink.StaleRun` is such a run of deflate_fast, `Reinserts.RefillKeeps` the exact
  condition, and `Reinserts.NoneLost` a condition on the state before the refill. deflate_fast meets it until a flush has
  made it go on to the end of the input (`Reinserts.Unflushed`, kept by `DeflateFast.DeflateFast`), so that without
  flushes no refill loses the link of a string to which a chain leads (`DeflateFast.Fill`).
- `build_tree` may force the leaf 2, not only 0 and 1 as its comment says; this is harmless because code 2 has no extra bits.
- The two unused symbols 286 and 287 of the fixed code are recognized only with 15 and 19 bits at hand, because the low
  nibble of their op field is added to the code length.
- A code length code without any code is accepted, and every bit is then read as a length of zero.
- The maxima ENOUGH_LENS and ENOUGH_DISTS, which come from an exhaustive search, are proved here for all complete codes.
- The read loop of `fill_window` never reads twice; `--chain_length` in `longest_match` wraps around from 0.
- `x2nmodp` indexes its table with `k & 31`, which is right because x^(2^32) is x modulo the polynomial.

## Model

| member | source | states |
|---|---|---|
| `RadixSort.RadixPass` | trees.c:137-144 | one counting pass moves every packed leaf to the place that its byte and its position give it: the pass is stable and loses nothing |
| `SortLeaves.ScanLeaves` | trees.c:183-195 | the leaves are the packed symbols that occur, in symbol order, and the two histograms count their low and high frequency bytes |
| `SortLeaves.SortEntries` | trees.c:213-234 | two passes, or one if every frequency fits a byte, or the swap of two leaves, give the same leaves in ascending order of frequency and, within one frequency, of symbol |
| `MergeNodes.PqTake` | trees.c:150-155 | the node taken is the front of the leaves or of the internal queue, whichever is the smaller, and of two equal ones the leaf |
| `TwoQueue.MergeTwo` | trees.c:236-262 | with both queues ascending, the two nodes taken are the two smallest of all live nodes, and appending their sum keeps the internal queue ascending and the total on the way to the optimum |
| `MergeNodes.MergeAll` | trees.c:236-262 | the merge builds one tree over all leaves in which every father weighs as much as its two sons; the internal weights add up to the cost of Huffman's construction; nothing else in the tree array changes |
| `Huffman.LowerBound` | trees.c:185-262 | no assignment of lengths that meets the Kraft inequality costs less than Huffman's construction, whatever the weights |
| `TreeShape.WeightedDepth` | trees.c:301-334 | the weighted depths of the leaves add up to the weights of the internal nodes |
| `TreeShape.Excess` | trees.c:301-334 | clipping depths at max_length exceeds the Kraft sum by half the number of clipped nodes, which is what gen_bitlen calls overflow |
| `TreeShape.LeafOrder` | trees.c:301-334 | a leaf that is taken later from the queue, and so has no smaller frequency, is not deeper |
| `LengthCounts.Repair` | trees.c:341-353 | the repair loop ends, never takes a count below zero, keeps the number of leaves, leaves a Kraft sum of exactly 1, and lengthens the longest codes first: no count of a shorter length changes as long as the longer ones suffice |
| `GenBitLen.GenBitLen` | trees.c:283-373 | the lengths are at most max_length, their Kraft sum is exactly 1 and bl_count counts them; they are the depths if these fit; otherwise the deepest leaves above the limit are lengthened first, so that every leaf keeps its depth as long as the deeper ones suffice, and no less frequent leaf gets a shorter code; opt_len and static_len become the exact bit totals |
| `GenCodes.GenCodes` | trees.c:383-415 | every coded symbol up to max_code gets its canonical code, first transmitted bit lowest; all else stays as it was |
| `GenCodes.BiReverseIsMsb` | deflate_p.h:148-153 | bi_reverse of a code that fits is the code read with its first transmitted bit lowest |
| `Canonical.PrefixFree` | trees.c:383-415 | under the Kraft bound no canonical code starts another one |
| `Canonical.Covered` | trees.c:383-415 | if the Kraft sum is 1, every string of fifteen bits starts with the code of some symbol |
| `BuildTree.BuildTree` | trees.c:165-271 | the result is a complete prefix code of at most max_length bits with a code for every symbol that occurs; the depths before limiting are the cheapest of all prefix codes and are used as they are if they fit; if not, a symbol keeps its depth as its length as long as the symbols of greater depth can make the room; a less frequent symbol never has a shorter code; opt_len and static_len are the exact costs, the forced leaves cancelling. Holds for frequencies that sum to at most 65535 with at least two symbols, or 65534 with fewer |
| `RunLength.RoundTrip` | trees.c:469-529 | for every pair of length arrays, the symbols of the two trees run through the repeat rules of CODELENS give back both arrays with no repeat error |
| `ScanTree.ScanTree` | trees.c:421-463 | bl_tree counts exactly the symbols of the run-length code of the tree's lengths; only the guard behind max_code is written |
| `ScanTree.SendTree` | trees.c:469-529 | exactly the bits of those symbols, with their repeat counts, are sent |
| `TreeHeader.OrderShape` | trees.h:30-31 | bl_order is the order of section 3.2.7 of RFC 1951: the repeats and 0, and then 8, 7, 9, 6 and so on outwards |
| `TreeHeader.LastRank` | trees.c:548-555 | the last rank in bl_order with a nonzero length, never below 3 |
| `DynamicTrees.BuildBlTree` | trees.c:535-561 | the code length code is complete, of at most 7 bits, covers all symbols that both trees need, and the bits added to opt_len are exactly those of the block header |
| `TreeHeader.SendAllTrees` | trees.c:568-597 | exactly the header bits: the three counts, the code length code in bl_order, and both trees |
| `DynamicTrees.BuildTrees` | trees.c:652-665 | opt_len is exactly the size of the dynamic header and body, and static_len that of the fixed body, for every tallied sequence of symbols |
| `BlockCost.BodyLength` | trees.c:317-334 | the bits of a block body are the sum over symbols of frequency times code length plus extra bits |
| `MakeTables.MakeLengthCode` | utils/maketrees.c:45-57 | the table gives for every length the code in whose range it lies, 258 its own |
| `MakeTables.MakeDistCode` | utils/maketrees.c:59-75 | the 512-entry table gives for every distance the code in whose range it lies |
| `MatchCodes.LengthDecodes` | trees_emit.h:156-172 | base and extra bits of the length code, read with the decoder's base table, give back the length |
| `MatchCodes.DistDecodes` | trees_emit.h:174-190 | base and extra bits of the distance code give back the distance |
| `CompressBlock.AssembleDist` | trees_emit.h:148-194 | one word of at most 48 bits holds the length code, its extra bits, the distance code and its extra bits, in this order |
| `CompressBlock.CompressBlock` | trees.c:725-813 | the stream grows by exactly the bits of all symbols, with up to three literals merged at a time, and the end-of-block code |
| `BitWriter.BitWriter.SendBits` | trees_emit.h:43-64 | the low bits of the value are appended to the stream, also when the buffer spills and when nothing was in it |
| `BitWriter.BitWriter.SendBitsMerge` | trees_emit.h:66-74 | the bits are appended without a flush |
| `BitWriter.BitWriter.SendBitsFlush` | trees_emit.h:76-85 | complete bytes move to the pending output, at most seven bits stay, and the stream is the same |
| `BitWriter.BitWriter.FlushBits` | trees.c:857-878 | the stream is the same after zng_tr_flush_bits |
| `BitWriter.BitWriter.Windup` | trees_emit.h:112-133 | the stream is filled up with zero bits to a whole byte |
| `FixedCodes.MakeStaticL` | utils/maketrees.c:77-88 | the static literal tree holds the canonical codes of the lengths of section 3.2.6 of RFC 1951 |
| `FixedCodes.FixedTable` | utils/maketrees.c:77-88 | the lengths and codes of all 288 symbols are those in the table of section 3.2.6 of RFC 1951 |
| `FixedCodes.MakeStaticD` | utils/maketrees.c:90-94 | the static distance tree holds the 30 codes of five bits |
| `FlushBlock.BlockState.TallyLit` | deflate_p.h:64-88 | the literal joins the tokens of the block, in the buffer and in the frequencies; the result says whether one slot is left |
| `FlushBlock.BlockState.TallyDist` | deflate_p.h:90-117 | the same for a match |
| `FlushBlock.BlockState.StoredBlock` | trees.c:602-619 | header, alignment, both length fields and the bytes |
| `FlushBlock.BlockState.FlushBlock` | trees.c:635-713 | one block that stands for the tokens or the bytes is appended; a coded block takes exactly the predicted bits; at a level above 0 the fixed form is sent unless the dynamic one takes fewer bytes (or always, if only fixed codes are allowed), but the stored one if it takes no more; so no form that is allowed is smaller; the tokens are reset |
| `Overlay.SendSymbols` | trees.c:742-804 | in one buffer that holds the symbols and receives the output, from an empty pending buffer and at most ten bits on, every symbol is read as it was tallied, exactly their bits are written, and every eight-byte store stays inside of the allocation, if no symbol takes more than 31 bits and there are at least 128 slots |
| `Overlay.Behind` | deflate.c:340-372 | with k symbols read, an eight-byte store at pending ends at or before the first unread symbol |
| `Overlay.SendFixed` | deflate.c:340-391 | so for every sequence of symbols in a fixed block |
| `Overlay.FixedShortTokens` | deflate.c:344-347 | no symbol of a fixed block takes more than 31 bits |
| `TablePrep.CheckLengths` | inftrees.c:235-243 | left is negative exactly for an over-subscribed set and zero exactly for a complete one |
| `InflateTable.InflateTable` | inftrees.c:145-421 | -1 exactly for the over-subscribed and the incomplete sets that are not accepted; on 0, for every coded symbol and every continuation of its code, the one- or two-step lookup gives its entry and consumes its length, and every other index gives the invalid entry; 1 never for the sizes that inflate() uses |
| `TableEnough.EnoughLens` | inftrees.h:41-51 | 1332 entries suffice for every complete literal/length code with a root of 10 bits |
| `TableEnough.EnoughDists` | inftrees.h:41-51 | 592 entries suffice for every complete distance code with a root of 9 bits |
| `TableLookup.FirstLevel` | inflate.c:945-951 | with only b bits at hand and zeros above them, the entry found is either longer than b and the code is undecided, or it is what the code says, or a link |
| `TableLookup.SecondLevel` | inflate.c:952-964 | the same behind a link |
| `InflateModes.TypeMode` | inflate.c:721-759 | a step of the decoder over bits, or a stop for lack of input with nothing changed |
| `InflateModes.StoredMode` | inflate.c:761-776 | a step of the decoder over bits: alignment, and both length fields checked |
| `InflateModes.TableMode` | inflate.c:801-819 | a step: the three counts, and too many symbols rejected |
| `InflateLens.LenLensMode` | inflate.c:821-841 | a step: the code length code in its order, and its table |
| `InflateLens.CodeLensMode` | inflate.c:843-920 | a step: one length or repeat, or at the end both tables, or a rejection |
| `InflateCodes.LenMode` | inflate.c:930-994 | a step: a literal, a length, the end of the block or an invalid code |
| `InflateModes.ExtMode` | inflate.c:996-1007 | a step: the extra bits of a length or a distance |
| `InflateCodes.DistMode` | inflate.c:1009-1040 | a step: a distance code |
| `InflateOutput.CopyMode` | inflate.c:777-799 | steps that copy as many stored bytes as input and room allow |
| `InflateOutput.MatchMode` | inflate.c:1060-1108 | steps that copy a part of a match from the window or the output, or reject a distance that is too far |
| `InflateOutput.LitMode` | inflate.c:1110-1116 | a step that writes a literal |
| `Window.Window.Update` | inflate.c:327-380 | afterwards the ring holds the last 32768 bytes of all output, or all of it |
| `Inflate.Inflater.Inflate` | inflate.c:721-1189 | one call leaves exactly the state, the unread bits and the output of running the decoder over bits on the same input and room to its end, whether or not the fast loop is entered |
| `InflateRun.CallsStayOnRun` | inflate.c:454-470 | however calls cut the input and the room, they stay on the one run that has all of the input |
| `InflateRun.SplitInvariance` | inflate.c:454-470 | two ways of cutting that both come to an end agree on DONE or BAD, on the output and on the input left over |
| `BlockRoundTrip.FixedSteps` | trees.c:693-696 | a fixed block is decoded to exactly its tokens and their expansion |
| `BlockRoundTrip.DynamicSteps` | trees.c:697-702 | the decoder accepts the tables of a dynamic block and decodes it to exactly its tokens and their expansion |
| `BlockRoundTrip.BlockSteps` | trees.c:635-713 | any block, at any bit position, is decoded to its content, and the decoder is ready for the next one |
| `BlockRoundTrip.StreamRoundTrip` | inflate.c:721-1116 | a whole stream of blocks is decoded to their content and ends in DONE, leaving what follows it |
| `EndToEnd.DeflateInflate` | deflate_p.h:205-220 | the stream of a finished strategy is decoded to the input it has read |
| `EndToEnd.AnyCalls` | inflate.c:454-470 | for any cut into calls, also of a part of the stream: the output is a prefix of the data, no call fails, and with all of the stream and room to spare all of it is there and the mode is DONE |
| `EndToEnd.RoundTrip` | inflate.c:721-1189 | the same for inflate() itself, called on any pieces with any buffers |
| `Reservoir.Refill` | inflate_p.h:103-108 | the low bits of hold stay the stream, the bits above `bits` a part of it; 56 bits or more are valid and the eight-byte load lies inside of the input |
| `Reservoir.GiveBack` | inffast_tpl.h:325-342 | returning whole bytes leaves exactly the unread bits, and never goes back past the input of the call |
| `MatchCopy.CopyAll` | inffast_tpl.h:222-302 | a match copied from the end of the window, its start and the output, with the wide copies of either variant, is the byte-by-byte match |
| `InflateFast.FastLoop` | inffast_tpl.h:140-323 | the loop makes steps of the decoder over bits, at least one, with enough valid bits at every lookup, and afterwards the unread bits start less than a byte before the input |
| `InflateFast.InflateFast` | inffast_tpl.h:1-342 | both variants do what steps of the decoder over bits do, from any state that inflate() can be in |
| `EntryBits.EightBitsLeft` | inffast_tpl.h:21-27 | a stopped call can leave eight or more bits in LEN exactly if some symbol needs more than eight bits to be recognized |
| `EntryBits.EightBitsLeftDynamic` | inffast_tpl.h:27 | for the codes of dynamic blocks: exactly if some code is longer than eight bits |
| `EntryBits.EightBitsReached` | inffast_tpl.h:325-327 | seven bytes of input after which inflate() stops in LEN with eight bits in the accumulator |
| `ChunkCopy.ChunkCopy` | chunkset_tpl.h:24-41 | the bytes asked for are those of the one-byte-at-a-time copy; only if fewer than eight are asked for are bytes behind them overwritten, up to eight |
| `ChunkCopy.ChunkUnroll` | chunkset_tpl.h:52-63 | short copies that double the distance leave the same bytes, and what is left can be copied at the new distance |
| `ChunkCopy.Magazine` | chunkset_tpl.h:65-85 | the chunk repeats the pattern, and what can be advanced by is a multiple of the distance |
| `ChunkCopy.ChunkMemset` | chunkset_tpl.h:111-274 | as CHUNKCOPY, for every distance and length |
| `ChunkCopy.ChunkMemsetSafe` | chunkset_tpl.h:276-308 | the same for any alignment, with nothing written at or past out + left |
| `ChunkCopy.ChunkCopySafe` | chunkset_tpl.h:310-330 | the same, with nothing written at or past safe |
| `ChunkCopy.CopySafe` | inflate_p.h:221-282 | chunkcopy_safe leaves the bytes of the one-byte-at-a-time copy, every memcpy in it is free of overlap, and nothing past the copied bytes is written |
| `MatchFinder.Compare256` | arch/generic/compare256_c.c:43-63 | the number of equal bytes, up to 256 |
| `MatchFinder.LongestMatch` | match_tpl.h:26-297 | it ends; a result above the entry length is a repeat of that length at match_start, within lookahead and max_dist and not at window index 0, as long as every link is below the bound, and begins with one of the strings of the chain that have been tried; no string among the first m of the chain repeats more bytes; and it stops after m strings only if the chain ends there, if m is as many as chain_length allows, or if the match reaches nice_match or the end of the input |
| `MatchFinderSlow.LongestMatchSlow` | match_tpl.h:26-297 | the same for the slow form, over all the chains that it walks: the first one begins farthest back of those of the strings inside of the match to beat, and after a better match that does not reach the current string the search turns to the chain that leads back farthest from inside of that match; it also stops if such a chain leads too far back |
| `HashChains.InsertKnuth` | insert_string_p.h:36-82 | exactly one head and one link change: the string becomes the head and links to the head before it, unless it is the head already; every other string in reach keeps its link |
| `HashChains.InsertKnuthBatch` | insert_string_p.h:141-162 | its exact effect on all heads and links, the strings being inserted one by one under the hashes of their four bytes; every string before the batch keeps its link, and no link reaches the bound |
| `HashChains.InsertRollBatch` | insert_string_p.h:257-276 | the same under the rolling hashes, with the hash that is carried on |
| `HashFunctions.RollThree` | insert_string_p.h:20-33 | after three bytes nothing is left of the rolling hash before them, so that equal strings of three bytes have equal hashes |
| `HashFunctions.KnuthSpread` | insert_string_p.h:10-13 | every hash is that of exactly 65536 values of four bytes, which multiplying by the inverse of the multiplier gives |
| `HashChains.InsertStepped` | insert_string_p.h:169-209 | exactly the strings at the spread places are inserted, one by one; the last one is the last string of the match; every string before it keeps its link |
| `HashChains.SpreadExact` | insert_string_p.h:164-209 | the fixed-point steps lose nothing: place i of n lies i parts of n - 1 along the way from the first string to the last |
| `HashChains.InsertSpread` | insert_string_p.h:216-236 | the same, or every string if there are few |
| `HashChains.InsertTail` | insert_string_p.h:286-316 | exactly the strings of the tail are inserted; skipped strings end their chains; every string before the batch keeps its link |
| `HashChains.TurnKeeps` | deflate.c:1319-1334 | a string of a batch keeps the link that it had before exactly if, when its turn comes, it heads the chain of its hash or that head is what it links to already |
| `SlidingWindow.Lz.InitHash` | deflate.c:1313-1335 | its exact effect on all heads and links: from the string before the first one left over on, one by one under their hashes, up to the current one or, if a single byte follows, the one before it; and the rolling hash is then what the current string needs |
| `HashChains.SlideHash` | arch/generic/slide_hash_c.c:17-33 | every head and every link is lowered by the slide or becomes 0, and the bound is lowered with it |
| `SlidingWindow.Lz.Slide` | deflate.c:1274-1299 | the parts moved do not overlap; every position keeps its place in the input; at least MAX_DIST bytes of history stay; the read limit keeps its place; every string that may still be matched keeps its link, lowered by the slide |
| `SlidingWindow.Lz.ZeroAhead` | deflate.c:1339-1370 | exactly the bytes behind the data that lie above the high water mark become zero, up to 258 of them, and the mark moves behind them |
| `SlidingWindow.Lz.FillWindow` | deflate.c:1255-1373 | the window stays a contiguous part of the input; the read limit moves on by one window exactly when the string reaches it; what is read is all there is or up to the limit; enough lookahead or no input is left; heads and links are exactly the old ones, lowered by the slide, with the strings that were left over inserted again; the 258 bytes behind the data, as far as there are any, have been written |
| `Reinserts.RefillKeeps` | deflate.c:1313-1335 | a refill keeps the links of all strings in reach exactly if nothing is read or each string that it inserts again finds, when its turn comes, itself or its link at the head of the chain of the hash that it has with the new input |
| `Reinserts.NoneLost` | deflate.c:1313-1335 | every string in reach to which a chain leads keeps its link if none of those that are inserted again has been inserted before all bytes of its hash were input, and if the string before the current one, once its four bytes are input, heads its chain |
| `Reinserts.RefillFiles` | deflate.c:1319-1334 | that string heads its chain after every refill that reads, and after one that does not if it did before |
| `ReadLimits.RunBoth` | deflate.h:352-355 | windows of different sizes that are consumed alike read the same bytes at the same places, namely what a function of the input, the window size and the steps says, so any of them reads what a buffer of two windows reads, for strategies that look ahead and for those that do not |
| `LzSearch.Continues` | deflate_p.h:192-199 | the number of equal bytes at the distance, up to 258, or 0 if they are fewer than 8 |
| `TokenMeaning.MeansMatch` | deflate_p.h:90-117 | tokens that stand for a part of the input stand for more of it with a match that repeats it |
| `TokenMeaning.TracksFlush` | deflate_p.h:205-220 | flushing the block moves the tokens, or the bytes they stand for, into a block |
| `DeflateState.FlushPending` | deflate_p.h:125-143 | the output space that is taken up is what has been delivered, and afterwards either no space or no complete byte of the stream is left |
| `DeflateFast.Fill` | deflate_fast.c:35-42 | the refills of deflate_fast: none of them changes the link of a string in reach to which a chain leads, until a flush has made it go on to the end of the input |
| `DeflateFast.FastTurn` | deflate_fast.c:44-126 | exactly what a turn tallies and inserts: the longest match along the chain of the string, if it has four bytes, with all its continuations at the same distance, and otherwise the literal; no string before the turn loses its link, and the last string of the turn heads its chain; it stops only if the output is full; with no chain to follow it is a literal |
| `DeflateFast.DeflateFast` | deflate_fast.c:21-137 | the symbols are exactly those of its turns; need_more is returned only if the output is full or, without a flush, at the end of the input, and Z_FINISH with output space left gives finish_done with all complete bytes delivered; at every return the blocks and the tokens stand for exactly the input up to strstart, on finish_done the stream for all of it; the string before the current one heads its chain; a call with a flush on a few bytes without repeats has the stated effect on the chains |
| `StaleLink.StaleRun` | deflate.c:1313-1335 | a run of deflate_fast that loses a link, for every window size and all settings: three flushed calls on the bytes 0abc0ab, c and d (0 being the byte of that value); before the third, the chain of the hash of abc0 leads from string 5 to string 1, after it the chain still leads to string 5 and ends there |
| `LazyTurns.LazyRule` | deflate_slow.c:83-86 | a match that waits is adopted exactly if no string that has been tried at the current position gives a longer one, or one long enough not to be discarded |
| `DeflateSlow.SlowTurn` | deflate_slow.c:46-151 | exactly what a turn tallies and inserts: it appends the match that waits exactly if none of the strings tried is better, and otherwise the byte before, if it waits; then the match that waits afterwards is strictly longer; every string is searched and inserted under the hash of its own bytes, also when hashes roll on across matches, skipped strings and refills |
| `DeflateSlow.DeflateSlow` | deflate_slow.c:17-166 | the symbols are those of its turns, each of which begins where the one before has ended, and at the end of the input the byte that waits; the same return values; blocks, tokens and stream stand for the input as in deflate_fast, up to the one byte that waits, across slides |
| `Fizzle.FindBest` | deflate_medium_tpl.h:43-82 | the longest match along the chain, if it has four bytes and begins before the string, and otherwise a literal; it is a genuine repeat within lookahead and 32768 |
| `Fizzle.FizzleMatches` | deflate_medium_tpl.h:100-167 | the second match takes over all but one byte of the first, or all of it, exactly if the bytes before it are the same and the limits on its length, distance and start allow it; together they cover the same bytes at the same distance, no match is longer than 258 or starts before window index 1 |
| `Fizzle.InsertMatch` | deflate_medium_tpl.h:14-40 | exactly the strings that do not repeat what is in the table are inserted, all or spread, or just the last one |
| `DeflateMedium.LookAhead` | deflate_medium_tpl.h:227-252 | the match found ahead is the best one for the string behind the current match, is genuine in the window, and starts where the current one ends, also after fizzling |
| `DeflateMedium.MediumTurn` | deflate_medium_tpl.h:199-323 | exactly what a turn searches, tallies and inserts: the match left by the turn before or the best one, the match ahead, what fizzling makes of both, and the continuations of a match of the maximum length; it stops only if the output is full |
| `DeflateMedium.DeflateMedium` | deflate_medium_tpl.h:170-335 | with and without the search ahead: it ends, its symbols are exactly those of its turns, each of which begins where the one before has ended with the match that it has left, every match tallied repeats the input within the valid lookahead, the return values are as in deflate_fast, and at every return blocks and tokens stand for exactly the input up to strstart |
| `AdlerSpec.UpdateIsPlain` | adler32_p.h:19-26 | the sums of section 8.2 of RFC 1950, reduced with every byte, are the plain sums reduced once |
| `AdlerSpec.OneByte` | adler32_p.h:11 | a sum that reaches 65521 starts again at 0 |
| `Adler32.LanesFit` | adler32_p.h:62 | within 23 groups of eight bytes no 16-bit lane overflows, of the sums or of the prefix sums |
| `Adler32.SumsFit` | adler32_p.h:13-15 | 5552 bytes added to sums of 16 bits never exceed 32 bits |
| `Adler32.Swar` | adler32_p.h:67-133 | the masks, lane sums and multiply-shifts give exactly both sums of the chunk, with no carry between lanes and no wrap-around |
| `Adler32.Adler32C` | arch/generic/adler32_c.c:14-59 | the RFC 1950 checksum for every buffer, alignment and start value; every eight-byte load is aligned |
| `Adler32.Combine` | adler32.c:40-62 | the reduced combination, 0xffffffff for a negative length |
| `Adler32.CombineConcat` | adler32.c:40-62 | which is the checksum of the concatenation |
| `CrcPoly.ProductTimes` | crc32_braid_comb_p.h:4-7 | multiplying by x^n is the product with x^n modulo the CRC polynomial |
| `Crc32.MultModP` | crc32_braid_comb_p.h:8-23 | it ends for a nonzero first factor and gives the product modulo the polynomial |
| `Crc32.X2nModP` | crc32_braid_comb_p.h:29-40 | the power of x whose exponent is the sum of the table entries used |
| `CrcPeriod.TableWraps` | crc32_braid_comb_p.h:35 | x2n_table[k & 31] is x^(2^k) for every k, since x^(2^32) is x |
| `CrcPeriod.ExponentPower` | crc32_braid_comb_p.h:25-40 | so x2nmodp gives x^(n * 2^k) for all n and k |
| `Crc32.MakeCrcTable` | utils/makecrct.c:61-72 | every entry is its index times x^8 |
| `Crc32.MakeX2n` | utils/makecrct.c:74-79 | every entry is x^(2^k) |
| `Crc32.MakeBraid` | utils/makecrct.c:85-97 | entry i of row k is the byte i moved on by all that follows it in its word and by four words |
| `Crc32.TableByte` | crc32_p.h:13 | the table step of section 8 of RFC 1952 is eight steps of the shift register |
| `Crc32.CrcWord` | arch/generic/crc32_braid_c.c:50-55 | the register after the eight bytes of a word that the register was added to |
| `Crc32.BraidWord` | arch/generic/crc32_braid_c.c:124-180 | the CRC of a braid after its word and four words of zeros |
| `Crc32.CombNext` | arch/generic/crc32_braid_c.c:182-198 | combining the braids after one more block is the CRC of all blocks so far |
| `Crc32.CrcBraid` | arch/generic/crc32_braid_c.c:68-211 | the byte-at-a-time CRC for every start value, buffer, length and alignment: the register is the bitwise complement of the start value, and the result the bitwise complement of the register; every word load is aligned |
| `Crc32.Combine` | crc32_braid_comb.c:15-19 | the first checksum times the power of x, plus the second; 0 for a negative length |
| `CrcPeriod.CombineConcat` | crc32_braid_comb.c:15-19 | which is the checksum of the concatenation, for every length; a checksum is the bitwise complement of the register that started with all bits set |
| `CrcPeriod.ZeroByte` | arch/generic/crc32_braid_c.c:68-211 | the checksum of a single zero byte is 0xd202ef8d |

## Left out

- SIMD and hardware variants, run-time dispatch, big-endian code, and the builds with LIT_MEM or masked stores.
- The zlib and gzip wrappers, dictionaries, `deflatePrime`, `inflatePrime`, `deflateParams`, `deflateTune`, copying of states
  and memory allocation: they widen the state without new arithmetic.
- The strategies `deflate_stored`, `deflate_quick`, `deflate_rle` and `deflate_huff`, and `infback.c`: easier cases of the
  same properties.
- Full flushes, which clear the hash table, and sync markers (`zng_tr_align`).
- INFLATE_STRICT, the builds that allow invalid distances, and inflate with windows below 32768 bytes.
- The Chorba CRC: very large unrolled text of another algorithm for the same checksum.
- The overlay of symbols and output for dynamic blocks with symbols of more than 31 bits: the comment gives an average over
  the block, not a bound for every prefix of it.
- `deflate()` around the strategies: `strm->avail_out` is a number that flushing lowers, and pending output is not moved out
  of the stream, so that a block always finds an empty pending buffer.
- The decoder's table space `codes[]` as one array: the two tables are arrays of their own, and the fixed tables are built
  by `InflateTable` (their unused entries print as 64 in the generated header and behave the same).
- The bit reversal instruction in `bi_reverse` and counting zero bits in comparisons: given by what they mean.
- GenCodes.GenCodes: takes bl_count as consistent with the lengths and within the Kraft bound, as every caller has it.
- Reinserts.NoneLost: that the string before the current one heads its chain is proved to be kept by deflate_fast; for the
  other strategies it is a condition on the state.
- HashChains.InsertKnuth: does not say that a chain holds all strings of its hash, which `insert_skip` and the spread
  inserts give up on purpose.
- FlushBlock.BlockState.FlushBlock: is stated for stored data of at most 65535 bytes, which the window size guarantees.
- ChunkCopy.ChunkMemset: is stated for a source before the destination in one buffer, or for two buffers; the source ahead of
  the destination in one buffer does not occur in inflate.
- Adler32.Adler32C: the copying variants are left out, as they add a memcpy.
