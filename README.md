# TDM demultiplexer benchmarks, modelled in Dafny

The benchmarks take one operation and implement it many ways: demultiplexing a
time-division-multiplexed (TDM) byte stream.
- The source is `NUM_TIMESLOTS * DST_SIZE` = 32 × 64 bytes, laid out row by row: byte
  `p * 32 + n` is byte `p` of channel `n`.
- Every `demux` class writes channel `n` into its own 64-byte buffer `dst[n]`, so that
  `dst[n][p] == src[p * 32 + n]`.

The classes differ only in how they do it:
- a single pass with a wrapping cursor (`Reference`);
- source-major and destination-major loop nests;
- macro- and template-unrolled loops;
- word-at-a-time packing with `make_32` / `make_64` / `byte0..3`;
- SSE register transposes: a 4×4 byte transpose in one register (`transpose_4x4`), a
  4×4 transpose of 32-bit lanes across four registers (`transpose_4x4_dwords`), and a
  16×16 byte transpose built from both.

A self-check compares every class with `Reference`.

The model works as follows:
- The stream is a `seq<bv8>`.
- The buffer set is a `seq<array<bv8>>` of 32 distinct 64-byte arrays (`Tdm.ValidDst`).
- A register is its 16-byte memory image (`Sse.Reg`; 32-bit lane `k` is bytes `4k .. 4k+3`).
- Word loads and stores use the little-endian x86 byte order (`Words.Bytes32`, `Words.Bytes64`).

Every demultiplexer is an imperative method over the buffers. Its postcondition ties
the new buffer contents to one specification function:
- `Tdm.Demultiplex(src)` for the classes that assert `src_length == 32 * 64`;
- `Tdm.Fill(old contents, src)` for the ones that write only `src_length / 32` rows;
- `Tdm.Demultiplex(src[..SRC_SIZE])` for `Unrolled_3` of e1.cpp, which asserts only
  `src_length % 32 == 0`, and `Dst_First_3` of e1-2.cpp, which asserts nothing. Both read
  64 rows whatever the length, so they require `SRC_SIZE <= src_length` and ignore the bytes after the first 2048.

`Multiplex` is the partner of `Demultiplex`, and the two are proved mutually inverse.
The macro bodies of the source are members of their own:
- MOVE16, MOVE128, MOVE256 and the STOREREG stores are methods whose contracts say which
  block of which channels they fill and that every other byte of those channels is kept
  (`E1New.Move16`, `E1New.Move128`, `E1New.Move256`, `E1New.StoreRuns`).
- LOAD16, LOAD32 and the LOADREG loads only load registers; their contracts say which tile
  or channel column each register holds (`E1New.Load16`, `E1New.Load32`, `E1New.Load256`). The register operations of `sse.h` are
pure functions with lemmas about the lanes they move.

Files and modules:
- `tdm.dfy` (`Tdm`): constants, buffer set, specification functions and bridge lemmas.
- `reference.dfy` (`Reference`): the cursor demultiplexer shared by e1-new.cpp, e1.cpp and e1-template.cpp.
- `words.dfy` (`Words`): `make_32`, `make_64`, `byte0..3`, and word loads and stores.
- `sse.dfy` (`Sse`): shuffles, `transpose_4x4` and `transpose_4x4_dwords`.
- `e1new.dfy` (`E1New`): the word-at-a-time and SSE classes of e1-new.cpp.
- `e1.dfy` (`E1`), `e1template.dfy` (`E1Template`), `e1_2.dfy` (`E1Simplified`) and `e1_3.dfy` (`E1Copies`): the scalar classes of the other sources.
- `check.dfy` (`Check`): the self-check of e1-new.cpp.

`transpose_4x4_dwords` is called at e1-new.cpp:276, 325, 330, 379, 384, 412-415,
432-435, 493-496 and 513-516, but neither sse.h nor e1-new.cpp defines it.
`Sse.TransposeDwords` is therefore a reconstruction: the usual two rounds of
`_128i_shuffle` (`_mm_shuffle_ps`). Its 4×4 lane-transpose property is proved about that
reconstruction, not assumed.

## Model

| member | source | states |
|---|---|---|
| Tdm.MultiplexDemultiplex | e1.cpp:85-96 | multiplexing the demultiplexed channels gives the stream back: dst[i % 32][i / 32] = src[i] loses nothing |
| Tdm.DemultiplexMultiplex | e1.cpp:70-83 | every rectangular channel set is the demultiplexing of its multiplexing, so the maps (n, p) ↦ p·32+n and i ↦ (i % 32, i / 32) are inverse bijections |
| Tdm.StreamIndex | e1.cpp:92-94 | (p·32 + n) % 32 == n and (p·32 + n) / 32 == p for every channel n < 32 |
| Tdm.FillAtStreamIndex | e1-new.cpp:51-56 | within the whole rows, stream byte i lands in channel i % 32 at position i / 32 |
| Tdm.FillWhole | e1-2.cpp:36-40 | when the buffers are exactly as long as the stream has rows, filling overwrites everything and gives the demultiplexing |
| Tdm.FillIgnoresTail | e1-3.cpp:37-38 | only whole rows are read: the trailing src_length % 32 bytes do not change the result |
| Reference.Advance | e1-new.cpp:53-56 | one cursor step keeps the channel below 32 and moves the stream index pos·32 + num on by exactly one |
| Reference.CursorAfter | e1-new.cpp:51-56 | after k bytes the cursor has channel < 32 and stream index pos·32 + num == k (the recursion needs Advance's contract) |
| Reference.CursorAt | e1-template.cpp:38-46 | after k bytes the cursor is (k % 32, k / 32): the channel resets and the position steps once every 32 bytes |
| Reference.Demux | e1-new.cpp:45-58 | given src_length % 32 == 0 and src_length ≤ 32·64, buffers = Fill(old buffers, src), and dst[i % 32][i / 32] == src[i] for every i < src_length |
| Words.Byte0 | e1-new.cpp:124-127 | byte0; specified by Words.Make32 and Words.Make32OfBytes |
| Words.Byte1 | e1-new.cpp:129-132 | byte1; specified by Words.Make32 and Words.Make32OfBytes |
| Words.Byte2 | e1-new.cpp:134-137 | byte2; specified by Words.Make32 and Words.Make32OfBytes |
| Words.Byte3 | e1-new.cpp:139-142 | byte3; specified by Words.Make32 and Words.Make32OfBytes |
| Words.Make32 | e1-new.cpp:61-67 | byteK(make_32(b0, b1, b2, b3)) == bK for K = 0..3, and its little-endian image is [b0, b1, b2, b3] |
| Words.Make32OfBytes | e1-new.cpp:124-142 | make_32(byte0(x), byte1(x), byte2(x), byte3(x)) == x: bK sits at bits 8K .. 8K+7 |
| Words.Bytes32Injective | e1-new.cpp:159-162 | two 32-bit words with the same memory image are equal |
| Words.Halves | e1-new.cpp:90-97 | the low and high 32-bit halves of lo \| hi << 32 are lo and hi |
| Words.WidenHigh | e1-new.cpp:93-96 | b4..b7 shifted to bits 32..63 are make_32(b4..b7) shifted by 32 |
| Words.Make64Halves | e1-new.cpp:90-97 | the halves of make_64's expression are the low word and make_32(b4..b7) |
| Words.Make64 | e1-new.cpp:90-97 | make_64's low 32 bits are make_32(b0..b3), its high 32 bits make_32(b4..b7), its image [b0..b7] |
| Words.LoadWord32 | e1-new.cpp:159-162 | the type-punned 32-bit load at src[pos] is the word whose little-endian image is src[pos .. pos+4] |
| Words.Store | e1-new.cpp:84 | a word store at d[pos] writes the word's image there and changes no other byte of d |
| Sse.Combine2_4bits | sse.h:15-21 | for n0, n1 < 16: result < 256, low nibble n0, high nibble n1 |
| Sse.Combine4_2bits | sse.h:23-31 | for n0..n3 < 4: result < 256 and its K-th 2-bit field is nK |
| Sse.DivMod | sse.h:31 | a + k·q splits back into digit a and rest q for the field widths 4, 16 and 64 |
| Sse.Shuffle128i | sse.h:35-53 | lanes of the result are x[n0], x[n1], y[n2], y[n3]: positions 0, 1 only from x, 2, 3 only from y |
| Sse.TransposeMaskMoves | sse.h:69-72 | the PSHUFB mask {0,4,8,12,1,5,9,13,2,6,10,14,3,7,11,15} moves byte 4c+r to 4r+c, one by one |
| Sse.Transpose4x4 | sse.h:57-72 | transpose_4x4 as PSHUFB with the transpose mask; specified by Sse.Transpose4x4Lanes, Sse.Transpose4x4Involution and Sse.Transpose4x4Diagonal |
| Sse.Transpose4x4Lanes | sse.h:57-72 | transpose_4x4: byte r of lane c of the result is byte c of lane r of the input |
| Sse.Transpose4x4Involution | sse.h:57-71 | transpose_4x4 applied twice gives the input back (so it is a byte permutation) |
| Sse.Transpose4x4Diagonal | sse.h:57-71 | transpose_4x4 keeps bytes 0, 5, 10 and 15 in place |
| Sse.SetrEpi32 | e1-new.cpp:236 | _mm_setr_epi32(w0..w3) has the image of wK in lane K |
| Sse.ExtractEpi32 | e1-new.cpp:238-241 | _mm_extract_epi32(m, k) is the word whose image is lane k |
| Sse.ExtractSetr | e1-new.cpp:236-241 | extracting lane k of _mm_setr_epi32(w0..w3) gives wK back |
| Sse.TransposeLane | sse.h:57-72 | lane c of transpose_4x4(m) is byte c of lanes 0..3 of m, in order |
| Sse.TransposeWordsLane | e1-new.cpp:236-237 | lane c of transpose_4x4(_mm_setr_epi32(w0..w3)) is byte c of w0..w3 |
| Sse.TransposeWords | e1-new.cpp:236-241 | lane K of transpose_4x4(_mm_setr_epi32(w0..w3)) is make_32(byteK(w0), .., byteK(w3)): Read4_Write4_SSE stores what Read4_Write4 stores |
| Sse.SetrEpi64 | e1-new.cpp:312-313 | _mm_setr_epi64(w0, w1) has w0's halves in lanes 0, 1 and w1's in lanes 2, 3 |
| Sse.TransposeDwords | e1-new.cpp:276 | transpose_4x4_dwords, reconstructed from two rounds of _128i_shuffle; gives four registers and is specified by Sse.TransposeDwordsLanes |
| Sse.TransposeDwordsLanes | e1-new.cpp:276 | transpose_4x4_dwords: lane j of result i is lane i of input j |
| Sse.RegOfLanes | e1-new.cpp:276-280 | a register is determined by its four lanes |
| Sse.DwordsThenBytes | e1-new.cpp:412-431 | after transpose_4x4_dwords then transpose_4x4, lane c of result k is column 4k+c of the four input rows |
| E1New.Gathered4 | e1-new.cpp:80-84 | the four bytes read at one channel from four consecutive rows are that channel's next four bytes |
| E1New.Gathered8 | e1-new.cpp:110-118 | the same for eight rows |
| E1New.Write4 | e1-new.cpp:69-88 | Write4 leaves Demultiplex(src) in the buffers |
| E1New.Write8 | e1-new.cpp:99-122 | Write8 leaves Demultiplex(src) in the buffers |
| E1New.GatherColumn | e1-new.cpp:159-166 | byte c of four consecutive rows read from channel n on is four bytes of channel n + c |
| E1New.GatherTile | e1-new.cpp:159-166 | the same for all four columns of the 4×4 tile |
| E1New.GatherBytes | e1-new.cpp:159-166 | byteK of the four loaded words is four bytes of channel dst_num + K, from dst_pos on |
| E1New.RunsMoved4 | e1-new.cpp:163-166 | four channels holding their own bytes at [p0, p1) are moved there |
| E1New.KeptOutside4 | e1-new.cpp:163-166 | four channels whose slices outside [p0, p1) kept their bytes kept every such byte |
| E1New.RunMoved | e1-new.cpp:467 | one channel holding its own bytes at [p0, p1) is moved there |
| E1New.KeptOutside | e1-new.cpp:467 | a buffer whose slices outside [p0, p1) are unchanged kept every byte outside it |
| E1New.StoreRuns | e1-new.cpp:474-477 | storing run i of channel n0+i at p0 moves channels n0.. at [p0, p0+w) and keeps all their other bytes |
| E1New.Move16 | e1-new.cpp:186-195 | MOVE16 moves the 4×4 block (channels dst_num..+3, positions dst_pos..+3) and keeps every other byte of those channels |
| E1New.Read4Write4 | e1-new.cpp:144-170 | Read4_Write4 leaves Demultiplex(src) in the buffers |
| E1New.Read4Write4Unroll | e1-new.cpp:172-215 | Read4_Write4_Unroll leaves Demultiplex(src) in the buffers |
| E1New.TransposeTile | e1-new.cpp:236-237 | transpose_4x4 of four row words holds the tile: lane c is four bytes of channel n + c |
| E1New.TilesToRuns | e1-new.cpp:276-280 | transpose_4x4_dwords of four tiles at p, p+4, p+8, p+12 gives sixteen consecutive bytes of each channel |
| E1New.Read4Write4SseStep | e1-new.cpp:231-242 | one inner step of Read4_Write4_SSE moves its 4×4 block and keeps everything else of those channels |
| E1New.Read4Write4Sse | e1-new.cpp:217-245 | Read4_Write4_SSE leaves Demultiplex(src) in the buffers |
| E1New.Load16 | e1-new.cpp:262-268 | LOAD16 yields a register whose lane c is channel dst_num + c at dst_pos .. dst_pos+4 |
| E1New.StoreTiles | e1-new.cpp:276-280 | transpose_4x4_dwords and four 16-byte stores move the 4×16 block and keep the rest of those channels |
| E1New.Read4Write16SseStep | e1-new.cpp:270-280 | one inner step of Read4_Write16_SSE moves its 4×16 block and keeps everything else |
| E1New.Read4Write16Sse | e1-new.cpp:247-285 | Read4_Write16_SSE leaves Demultiplex(src) in the buffers |
| E1New.RowHalves | e1-new.cpp:308-311 | an 8-byte row load is the two 4-byte loads at pos and pos + 4 |
| E1New.Load32 | e1-new.cpp:307-318 | LOAD32: m0 holds the tile of channels dst_num..+3 and m1 that of dst_num+4..+7 |
| E1New.Move128 | e1-new.cpp:373-389 | MOVE128 moves the 8×16 block and keeps every other byte of those channels |
| E1New.Read8Write16Sse | e1-new.cpp:287-339 | Read8_Write16_SSE leaves Demultiplex(src) in the buffers |
| E1New.Read8Write16SseUnroll | e1-new.cpp:341-399 | Read8_Write16_SSE_Unroll leaves Demultiplex(src) in the buffers |
| E1New.ColumnOfRows | e1-new.cpp:412-415 | column j of rows lo..lo+3 is the matching slice of column j of all sixteen rows |
| E1New.FirstRoundLanes | e1-new.cpp:412-431 | after the first two rounds, lane c of transpose_4x4 of result k of group lo is column 4k+c of rows lo..lo+3 |
| E1New.LastRound | e1-new.cpp:416-435 | for output group k: transpose_4x4 of result k of each first-round group, then transpose_4x4_dwords; four registers, specified by E1New.LastRoundColumn |
| E1New.LastRounds | e1-new.cpp:416-435 | the four last-round groups side by side, sixteen registers; specified by E1New.LastRoundsColumns |
| E1New.LastRoundColumn | e1-new.cpp:432-435 | the last transpose_4x4_dwords puts the four lane slices of a column into one output register |
| E1New.LastRoundsColumns | e1-new.cpp:432-435 | the last round outputs register i == column i of the input |
| E1New.Transpose16x16 | e1-new.cpp:401-436 | transpose_16x16 (and _transpose_16x16): byte j of output register i is byte i of input register j |
| E1New.RowColumns | e1-new.cpp:466 | column i of the sixteen loaded rows is sixteen bytes of channel n + i |
| E1New.Load256 | e1-new.cpp:549-551 | the sixteen LOADREG loads: column i of the registers is channel dst_num + i at dst_pos..+16 |
| E1New.Move256 | e1-new.cpp:549-559 | MOVE256 moves the 16×16 block and keeps every other byte of those channels |
| E1New.Read16Write16Sse | e1-new.cpp:438-483 | Read16_Write16_SSE leaves Demultiplex(src) in the buffers |
| E1New.Read16Write16SseUnroll | e1-new.cpp:519-570 | Read16_Write16_SSE_Unroll leaves Demultiplex(src) in the buffers |
| E1.SrcFirst1 | e1.cpp:52-68 | src_pos == dst_pos·32 at each outer pass; result Fill(old buffers, src) |
| E1.SrcFirst2 | e1.cpp:70-83 | result Fill(old buffers, src) |
| E1.SrcFirst3 | e1.cpp:85-96 | result Fill(old buffers, src) |
| E1.DstFirst1 | e1.cpp:98-111 | result Fill(old buffers, src) |
| E1.DstFirst2 | e1.cpp:113-130 | src_pos == dst_pos·32 + dst_num in the inner loop; result Fill(old buffers, src) |
| E1.DstFirst3 | e1.cpp:132-145 | given src_length == 32·64, result Demultiplex(src) |
| E1.MoveBytes64 | e1.cpp:147-149 | MOVE_BYTES_64(j) sets d[p] = src[p·32 + j] for all 64 positions |
| E1.MoveTimeslot | e1.cpp:151-154 | MOVE_TIMESLOT(j) fills all of dst[j] and modifies no other buffer |
| E1.Unrolled1 | e1.cpp:156-169 | Unrolled_1 leaves Demultiplex(src) in the buffers |
| E1.Unrolled1By | e1.cpp:171-228 | Unrolled_1_2/4/8/16 leave Demultiplex(src) in the buffers |
| E1.Unrolled2Full | e1.cpp:232-243 | Unrolled_2_Full leaves Demultiplex(src) in the buffers |
| E1.Unrolled3 | e1.cpp:245-274 | Unrolled_3 needs src_length ≥ 32·64 and leaves Demultiplex of the first 2048 bytes |
| E1.Unrolled4 | e1.cpp:276-298 | Unrolled_4 (demux_0 for every channel) leaves Demultiplex(src) in the buffers |
| E1Template.MoveBytes | e1-template.cpp:50-56 | move_bytes<N> sets d[k] = src[j + k·32] for k < N and leaves d[N..] unchanged |
| E1Template.MoveTimeslot | e1-template.cpp:58-61 | move_timeslot fills all of dst[j] and modifies no other buffer |
| E1Template.Unrolled1 | e1-template.cpp:63-74 | Unrolled_1 leaves Demultiplex(src) in the buffers |
| E1Template.MoveTimeslots | e1-template.cpp:76-82 | move_timeslots<N> fills exactly channels j .. j+N-1 |
| Tdm.StepFits | e1-template.cpp:91-93 | when F divides 32, a step of F channels from a multiple of F below 32 stays inside the buffer set |
| E1Template.Unrolled1F | e1-template.cpp:84-95 | Unrolled_1_F<F> for any F dividing 32 leaves Demultiplex(src) in the buffers |
| E1Template.Unrolled2Full | e1-template.cpp:97-106 | move_timeslots<32> from 0 leaves Demultiplex(src) in the buffers |
| E1Simplified.DstFirst1 | e1-2.cpp:31-42 | with no assertion, result Fill(old buffers, src): whole rows written, the rest kept, the tail unread |
| E1Simplified.DstFirst3 | e1-2.cpp:44-55 | with no assertion, needs src_length ≥ 32·64 and leaves Demultiplex of the first 2048 bytes |
| E1Simplified.VariantsAgree | e1-2.cpp:90 | at src_length == SRC_SIZE both variants leave the same contents, whatever the buffers held |
| E1Copies.DstFirst1 | e1-3.cpp:31-42 | every Dst_First_1<N> gives Fill(old buffers, src), independent of N |
| Check.Run | e1-new.cpp:803 | the virtual demux call: every modelled class leaves Demultiplex(src) in the buffers |
| Check.AllocateDst | e1-new.cpp:779-787 | 32 fresh, distinct, zero-filled 64-byte buffers |
| Check.FirstMismatch | e1-new.cpp:805-810 | None exactly when the buffer sets are equal; otherwise the first channel whose 64 bytes differ |
| Check.Check | e1-new.cpp:797-814 | for every source and every modelled class, the check finds no mismatching channel |

## Left out

- Timing and output: `measure`, `currentTimeMillis`, `main`, `cout` and `typeid` printing. These are benchmark I/O.
- `generate`: it uses `srand` / `rand`. The check takes the source as a parameter, so it holds for every source.
- `delete_dst`, `_mm_malloc` alignment and `_mm_free`: memory management has no counterpart here.
- The `exit(1)` of `check`: the first mismatching channel is returned instead.
- The AVX classes `Read4_Write32_AVX`, `Read8_Write32_AVX` and `Read8_Write32_AVX_Unroll`. Their helpers `_256i_combine_lo_hi`, `transpose_avx_4x4_dwords` and `_256i_store` are defined in neither sse.h nor e1-new.cpp.
- `combine_2_4bits` only serves those AVX permutes; it is modelled on its own.
- `transpose_4x4_dwords` is defined in neither sse.h nor e1-new.cpp, so `Sse.TransposeDwords` is a reconstruction.
- `_128i_load` and `_128i_store` are defined in neither sse.h nor e1-new.cpp. They, and the type-punned word and `__m64` loads, are modelled as plain little-endian copies of 4, 8 or 16 bytes, without alignment or strict aliasing.
- The self-checks of e1.cpp and e1-template.cpp are not modelled; only the e1-new.cpp one is (`Check`).
  - Their classes carry the postconditions `Check.Run` builds on. The fixed-length classes carry `Demultiplex(src)`, and the permissive ones (`Reference.Demux`, `E1.SrcFirst1` .. `E1.DstFirst2`) carry `Fill(old contents, src)`.
  - At `src_length == 32 * 64`, `Tdm.FillWhole` turns `Fill` into `Demultiplex`, as `Check.Run` does for `Reference`.
  - e1.cpp's `allocate_dst` does not zero the buffers, unlike e1-new.cpp's. That does not matter at full length, because `FillWhole` holds whatever the buffers held before.
- Reference.Demux, E1.SrcFirst1, E1.SrcFirst2, E1.SrcFirst3, E1.DstFirst1 and E1.DstFirst2 require `src_length ≤ 32 * 64`, which the source does not assert. A longer source makes those loops write past the 64-byte buffers, so no behaviour is promised for it.
- `unsigned` / `size_t` wrap-around: every index stays below 2048, so none can wrap.
- Unrolling is modelled as counted loops or comprehensions, with the same stores in the same order per channel. This covers the `DUP_*` / `DUP2_*` macros, the spelled-out `MOVE16` / `MOVE128` / `MOVE256` sequences and the sixteen `LOADREG` / `STOREREG` lines.
- Template recursion is modelled as recursion on a parameter.
- Unrolled_3's thirty-two specialised `demux_0` .. `demux_31` and Unrolled_4's shared `demux_0` are the same `E1.MoveBytes64`. This shows they write the same bytes, but not that they are separate functions.
- E1New.Transpose16x16: the source overwrites its sixteen by-reference registers, and the model returns them.
- The asserts on the constants (`DST_SIZE % 4 == 0`, `NUM_TIMESLOTS % 16 == 0`, …) are checked as `assert`s on the fixed constants. They are not parameters.
- `Unrolled_1_F<F>` is proved for every F dividing 32, a superset of the instances 2, 4, 8 and 16.
