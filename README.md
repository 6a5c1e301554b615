# MD5 digest engine, modelled in Dafny

A model of the MD5 engine in `md5.c`: the function `md5`, which returns the
128-bit digest packed into the two 64-bit words of `hash_t`, and `md5_64`,
which folds those two words into one with exclusive or.

The model has three modules.

- `rfc1321.dfy` (module `Rfc1321`) is the reference definition of MD5 as
  pure functions. It covers:
  - the tables `r[]` (`R`, typed so that every amount is in 4..23) and `k[]` (`K`);
  - the initial buffer (RFC 1321 section 3.3);
  - the padded stream (sections 3.1 and 3.2), as the concatenation `Pad` and,
    byte by byte, as `PadByte`;
  - the little-endian reading of a block as sixteen words;
  - the round functions F, G, H and I, the message-word schedule and the 64
    steps (section 3.4);
  - the chaining of the blocks (`Chain`) and the final `Digest`.
- `chunking.dfy` (module `Md5Chunking`) models only the counters of the
  pre-processing loop of `md5` (md5.c:95-123). These are the chunk position
  `i` and the stream position `input_index`. The model has two zero fills:
  - the one as written, bounded by `min(64, padded_len - input_index)`;
  - a corrected one, bounded by the room left in the chunk.
  It proves that the corrected loop, and the loop as written for every length
  that does not overrun, fills exactly one chunk per pass and makes one pass
  per block of the padded stream. It also proves what the loop as written
  does for the lengths that overrun (see Findings).
- `md5.dfy` (module `Md5`) is the engine itself, written imperatively:
  - `Md5` has the accumulators `a0..d0`, the `while` loop over `input_index`
    and a fresh 64-byte `chunk` array per pass;
  - `FillChunk` and `PreprocessStep` fill the chunk in place through `Memcpy`,
    `Memset` and single-byte writes;
  - `RunRounds` is the 64-step loop, with the choice of auxiliary function
    and message word written as `Mix` and `MsgIndex`;
  - `Pack` is the packing into `hash_t`, and `Md5_64` is the fold.

  `Md5` is proved to return `Pack(Digest(input))` for every input of fewer
  than 2^28 bytes. `Md5_64` is proved to return the exclusive or of A with C
  in its low half, and of B with D in its high half.

The host is taken to be little-endian. This is the byte order in which the C
code reads the chunk as words and writes the bytes of its 32-bit bit count.

RFC 1321 pads every length. `md5.c` does so only for lengths whose last block
does not hold 56..62 bytes (see Findings). `Md5` uses the corrected zero fill,
and `Md5Chunking` models the fill as written. For every other length the two
fills take the same steps (`ClampAgrees`), and `PreprocessStep` and
`FillChunk` state that the engine's counters follow the loop as written.

`md5.c` also writes a 32-bit bit count followed by four zero bytes, where
RFC 1321 has a 64-bit count. `LengthFieldMatches` shows that these agree for
every length below 2^28. `LengthFieldTruncated` shows that no 32-bit count
can agree for any length from 2^29 up to 2^61 bytes. At 2^61 bytes the
RFC bit count wraps to 0 and agrees again (`LengthFieldWraps`).

## Model

| member | source | states |
|---|---|---|
| Rfc1321.StepTables | md5.c:45-72 | `r[]` and `k[]` hold one entry per step, and every shift amount is strictly between 0 and 32, so both shifts of LEFT_ROTATE are defined |
| Rfc1321.InitBytes | md5.c:77-80 | the initial `a0..d0` are, in memory, the bytes `01 23 45 67 89 ab cd ef fe dc ba 98 76 54 32 10` of RFC 1321 section 3.3 |
| Rfc1321.Le32Bytes | md5.c:112 | the bytes of a 32-bit value in memory are four bytes |
| Rfc1321.Le32RoundTrip | md5.c:126 | reading four bytes as a little-endian word and writing the word back are inverse, in both orders |
| Rfc1321.PaddedLen | md5.c:85 | `padded_len + 8` is a multiple of 64, at least `len + 9` and below `len + 73`: the shortest whole number of blocks holding the data, 0x80 and the length field |
| Rfc1321.Zeros | md5.c:119 | the zero fill has the requested length and holds only zeros |
| Rfc1321.LengthBytes | md5.c:110-112 | the length field of RFC 1321 section 3.2 is eight bytes |
| Rfc1321.Pad | md5.c:84-85 | the padded stream is `padded_len + 8` bytes, a whole number of 64-byte blocks |
| Rfc1321.PadLayout | md5.c:95-123 | every byte of the padded stream is given by its position: the input below `len`, 0x80 at `len`, zeros up to `padded_len`, then the bit count |
| Rfc1321.PadPrefix | md5.c:97-103 | the padded stream begins with the input bytes themselves |
| Rfc1321.Words | md5.c:126 | a block of 64 bytes gives sixteen words |
| Rfc1321.WordsAt | md5.c:126 | word `w` of the chunk is bytes `4w..4w+3`, least significant first |
| Rfc1321.F | md5.c:139-142 | F takes each bit from `c` where `b` has a 1 and from `d` where `b` has a 0 |
| Rfc1321.G | md5.c:144-147 | G takes each bit from `b` where `d` has a 1 and from `c` where `d` has a 0 |
| Rfc1321.H | md5.c:151 | H, together with `b`, `c` and `d`, has even parity in every bit |
| Rfc1321.I | md5.c:156 | I is `b` xor `c` where `d` has a 1, and the complement of `c` where `d` has a 0 |
| Rfc1321.MsgIndex | md5.c:136-158 | the message-word index `g` of every step is below 16 |
| Rfc1321.MsgSlot | md5.c:136-158 | the inverse schedule names a step inside the group |
| Rfc1321.SlotOfIndexRound2 | md5.c:146 | `(5j+1) % 16` over steps 16..31 is undone by `MsgSlot(1, .)` |
| Rfc1321.SlotOfIndexRound3 | md5.c:151 | `(3j+5) % 16` over steps 32..47 is undone by `MsgSlot(2, .)` |
| Rfc1321.SlotOfIndexRound4 | md5.c:156 | `7j % 16` over steps 48..63 is undone by `MsgSlot(3, .)` |
| Rfc1321.IndexOfSlotRound2 | md5.c:146 | every word index 0..15 is read by the step `MsgSlot(1, g)` of steps 16..31 |
| Rfc1321.IndexOfSlotRound3 | md5.c:151 | every word index 0..15 is read by the step `MsgSlot(2, g)` of steps 32..47 |
| Rfc1321.IndexOfSlotRound4 | md5.c:156 | every word index 0..15 is read by the step `MsgSlot(3, g)` of steps 48..63 |
| Rfc1321.MsgIndexPermutes | md5.c:136-158 | within each group of sixteen steps the index `g` visits every word 0..15 exactly once: the schedule and `MsgSlot` are inverse bijections |
| Rfc1321.Blocks | md5.c:90 | a stream of `64n` bytes is cut into `n` blocks |
| Rfc1321.BlockAt | md5.c:90-123 | block `i` is bytes `64i..64i+63` of the stream |
| Rfc1321.RoundsWindow | md5.c:160-164 | after three or more steps, `c`, `d` and `a` hold the values `b` had one, two and three steps earlier |
| Rfc1321.ChainStep | md5.c:90-171 | absorbing the blocks from `k` on is compressing block `k` and then absorbing the rest |
| Rfc1321.ChainAppend | md5.c:90-171 | absorbing two runs of blocks is absorbing the first and continuing from its accumulators |
| Rfc1321.DigestStreams | md5.c:90-171 | the blocks that lie wholly inside the input are the input's own bytes, and the digest is those blocks absorbed from the initial buffer, then the rest of the padded stream |
| Rfc1321.DigestBytes | md5.c:173 | the digest of RFC 1321 section 3.5 is sixteen bytes |
| Md5Chunking.StepSize | md5.c:97-122 | every iteration of the pre-processing loop writes at least one byte, in every branch |
| Md5Chunking.Advance | md5.c:101-121 | the two counters advance together, by at least one |
| Md5Chunking.Fill | md5.c:95 | the pre-processing loop stops with `i >= 64`, having advanced `i` and `input_index` by the same amount |
| Md5Chunking.Passes | md5.c:90 | the outer loop makes no pass once `input_index` has reached `padded_len`, and otherwise at most one pass per started 64 bytes still to go |
| Md5Chunking.PaddedLenFromBlockStart | md5.c:85 | `padded_len` is 56 bytes past the start of the block holding the end of the data when that block holds at most 55 bytes, and 120 bytes past it otherwise |
| Md5Chunking.AdvanceInPass | md5.c:95-123 | with the clamped fill, or for a length that does not overrun, one iteration never moves `i` past 64 and keeps the pass invariant |
| Md5Chunking.ClampAgrees | md5.c:118 | for a length that does not overrun, the zero fill as written and the clamped one write the same number of bytes everywhere in a pass |
| Md5Chunking.FillCompletes | md5.c:95-123 | under the same condition every pass ends with `i == 64` and `input_index` 64 bytes further on |
| Md5Chunking.PassesFrom | md5.c:90-123 | under the same condition, from a block boundary the outer loop makes one pass per remaining block |
| Md5Chunking.PassesCoverPadding | md5.c:90-123 | under the same condition the outer loop makes exactly as many passes as `Pad(msg)` has 64-byte blocks, one per block of the padded stream |
| Md5Chunking.OverrunAsWritten | md5.c:116-122 | as written, for a length with 56..62 bytes in its last block, the pass holding the end of the data ends with `i == 120` and `input_index == padded_len` |
| Md5Chunking.PassesBeforeOverrun | md5.c:90-123 | as written, for such a length, there is one pass per whole data block left and then the overrunning pass |
| Md5Chunking.DropsLengthBlock | md5.c:90-123 | as written, for such a length, the loop makes `len / 64 + 1` passes while the padded stream has `len / 64 + 2` blocks: the block with the length field is never compressed |
| Md5.ShiftOrRange | md5.c:34 | the shift-and-or of LEFT_ROTATE is the left rotation, for amounts in a range of five |
| Md5.ShiftOrIsRotation | md5.c:34 | the shift-and-or of LEFT_ROTATE is the left rotation for every amount from 4 to 23 |
| Md5.LeftRotate | md5.c:34 | `LEFT_ROTATE(x, s)` is `x` rotated left by `s` bits for every amount the shift table holds, none of which is 0 or 32 |
| Md5.Pack | md5.c:173 | the low and high halves of `data[0]` are `a0` and `b0`, and those of `data[1]` are `c0` and `d0` |
| Md5.PackUnpack | md5.c:173 | every `hash_t` is the packing of the accumulators read back from it, so packing loses nothing |
| Md5.Le64Bytes | md5.c:173 | a 64-bit half occupies eight bytes in memory |
| Md5.HashBytesAreDigest | md5.c:173 | on a little-endian host the sixteen bytes of the returned `hash_t` are the MD5 digest of RFC 1321 section 3.5 |
| Md5.LengthFieldMatches | md5.c:110-112 | below 2^28 bytes, the 32-bit bit count followed by four zeros is the 64-bit length field of RFC 1321 |
| Md5.LengthFieldTruncated | md5.c:88 | for every length from 2^29 up to 2^61 bytes, no 32-bit count followed by four zeros is the 64-bit length field |
| Md5.LengthFieldWraps | md5.c:88 | at 2^61 bytes the 64-bit bit count wraps to 0, so a zero 32-bit count followed by four zeros matches it: the upper bound of `LengthFieldTruncated` is needed |
| Md5.HighWordShows | md5.c:110-112 | eight bytes whose high word is not zero are not a 32-bit value followed by four zeros |
| Md5.StreamIsPadded | md5.c:95-123 | below 2^28 bytes, the stream the chunks are filled from is the padded stream of RFC 1321, byte for byte |
| Md5.Memcpy | md5.c:100 | the copied bytes land at the chunk offset and the rest of the chunk is unchanged |
| Md5.Memset | md5.c:119 | the filled bytes hold the value and the rest of the chunk is unchanged |
| Md5.PreprocessStep | md5.c:97-122 | one iteration keeps the chunk holding the stream bytes from the pass start up to the new `i`. It advances the counters as the clamped fill does, and, inside a pass of a length that does not overrun, as the iteration as written does |
| Md5.FillChunk | md5.c:95-123 | one pass fills all 64 bytes of the chunk with the stream bytes from the pass start and advances `input_index` by 64; for a length that does not overrun, the loop as written ends at the same position |
| Md5.RunRounds | md5.c:129-164 | the 64-step loop leaves the registers at the 64 steps of RFC 1321 section 3.4 from the chunk's starting accumulators |
| Md5.ChunkIsBlock | md5.c:126 | a chunk filled from a block boundary is that block of the padded stream |
| Md5.Md5 | md5.c:74-174 | `md5` returns the MD5 digest of its input, packed into `hash_t` |
| Md5.Md5_64 | md5.c:176-180 | `md5_64` is the exclusive or of the two halves of `md5`'s result; its low half is A xor C and its high half is B xor D of the digest |
| Md5.FoldHalves | md5.c:179 | the exclusive or of the two halves of a packed `hash_t` pairs A with C and B with D |

## Left out

- Md5.Md5: requires fewer than 2^28 input bytes. Above that, `8 * (int)len` at md5.c:88 overflows a signed `int`, which C leaves undefined. The `(int)len` casts at md5.c:85 and md5.c:97 go wrong only near 2^31 bytes. `LengthFieldTruncated` states what goes wrong from 2^29 up to 2^61 bytes; above that the RFC bit count wraps modulo 2^64, which the lemma does not cover.
- Md5.Md5_64: requires fewer than 2^28 input bytes, for the same reason.
- Md5.Md5: uses the clamped zero fill. For the lengths that overrun, the code as written writes past the chunk, which is undefined behaviour in C. The model keeps only the counters of that loop (`Md5Chunking`), not the bytes written past the chunk.
- The `void *` input is a `seq` of bytes. `memcpy` and `memset` are small methods on the chunk array. The `(uint32_t *)chunk` view is `Words`, read little-endian.
- A big-endian host is not modelled.
- The derivation of `k[]` from sines is not modelled. The 64 constants are taken as literals.
- Known-answer values (the empty string, `"abc"`) are not proved. They would need the 64 steps evaluated on concrete data.
- Cryptographic properties such as the avalanche effect are not modelled. They are statistical, not invariants.
- `Rotl`, the reference rotation, is written as one case per amount and is defined only for the amounts 4..23, the range `r[]` holds.
- Md5.PreprocessStep: its zero fill is bounded by the room left in the chunk, `64 - i`, where md5.c:118 bounds it by 64. Its counters are stated equal to those of the iteration as written only inside a pass of a length that does not overrun. For the other lengths the iteration as written writes past the chunk, which an array cannot hold.
- Md5.FillChunk: built on that step, so it fills exactly 64 bytes per pass for every length. The loop as written does so only for lengths that do not overrun, and only for those is it stated to end where the loop as written ends.
- The body of `md5` is split into the methods `FillChunk`, `PreprocessStep` and `RunRounds`. Each is one loop or one loop body of `md5`.
- `Accumulate`, `Compress`, `Step`, `Rounds` and `Chain` are definitions with no contract of their own. What is proved about them is stated by `RoundsWindow`, `ChainStep`, `ChainAppend`, `DigestStreams`, `RunRounds` and `Md5`.
- Concurrency and reentrancy need no model. The code has no shared mutable state.

## Findings

| source | as written | input that shows it | evidently intended | confidence | as-written member | corrected member |
|---|---|---|---|---|---|---|
| md5.c:118 | the zero fill size is `max(min(64, padded_len - input_index), 1)`, bounded by the whole chunk size instead of the room left in it | any input whose length leaves 56..62 bytes in its last block, e.g. a 56-byte input: after the 0x80 byte at chunk position 56 the fill writes 63 bytes, up to `i == 120`, and the outer loop stops with the length block never compressed | bound the fill by `64 - i`, so that each pass writes exactly the 64 bytes of the chunk | high; not executed | Md5Chunking.DropsLengthBlock | Md5Chunking.PassesCoverPadding |
