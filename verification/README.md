# qreverse in Dafny

A model of qreverse, a library that reverses an array in place, with proofs
about the model. Its vector code (SSSE3, AVX2) and scalar byte swaps take
whole chunks from both ends of the array and exchange them reversed. The
routine comes in two versions, and both are modelled:

- `qreverse_imp(Values, Start, End)` and `qreverse(Values, Size)`, in
  `qreverse.hpp`. These reverse the inclusive span `[Start, End]` of an
  array of `sizeof(Type)`-byte elements.
  - A switch on the element size picks a cascade of tier loops. There is
    one cascade each for 8-, 4-, 2- and 1-byte elements; 16-byte elements
    get no cascade.
  - Each tier loop moves one quantum per round from each end of the span.
    A quantum is the number of elements in one register, or in two for the
    512-bit 8-byte tier, which moves a pair of 256-bit registers.
  - A serial `std::swap` loop finishes the middle.
- `qReverse<ElementSize>(Array, Count)`, in `include/qreverse.hpp`. This is
  a generic element-wise swap loop, plus a 1-byte specialisation.
  - The specialisation walks a single offset `i` inward through five tiers:
    AVX2, SSSE3, BSWAP64, BSWAP32 and BSWAP16.
  - Each tier has its own loop counter `j`.
  - Naive byte swaps finish the middle.

Modules:

- `Seqs` (seqs.dfy): sequence reversal, in-place stores into a sequence, and
  the concatenation and splitting that relate a run of elements to the bytes
  of a register.
- `ByteSwap` (byteswap.dfy): the portable `Swap16/32/64`, with the source's
  masks and shifts on `bv16/bv32/bv64`, and the little-endian integer loads
  and stores of the BSWAP tiers.
- `Simd` (simd.dfy): the intrinsics the tiers use, each a pure function on a
  register's bytes in memory order:
  - `_mm_shuffle_epi8`, `_mm256_shuffle_epi8`;
  - `_mm256_permute2f128_si256`, `_mm256_permute4x64_epi64`;
  - `_mm_shuffle_epi32`, `_mm256_permutevar8x32_epi32`;
  - `_mm_alignr_epi8`;
  - `_mm_set_epi8`, `_mm256_set_epi8`, `_mm256_setr_epi32`, `_MM_SHUFFLE`.
- `Tiers` (tiers.dfy): the register transform of each tier, built from those
  intrinsics and the source's constant operands. Each is proved to reverse
  the register's elements while keeping the bytes inside every element in
  order.
- `Span` (span.dfy): the invariant every loop keeps. After the outer
  elements of the segment have been exchanged, they hold their mirrors'
  original values, the remaining span is untouched, and nothing outside the
  segment changes. The module also defines the exchange of two reversed end
  chunks, which every round performs.
- `QReverseImp` (qreverse_imp.dfy): `qreverse_imp` and `qreverse`.
  - An element is a sequence of `sizeof(Type)` bytes.
  - `std::size_t` arithmetic (`End - Start + 1`, `Size - 1`) is written out
    modulo 2^64.
- `QReverseN` (qreverse_n.dfy): `qReverse<N>` and `qReverse<1>`, with the
  loop counters exactly as written.

Each operation on memory takes the array as a value and returns the new
contents. A tier round loads, permutes and stores. The proofs show that
every round is the exchange of the reversed end chunks, and that every loop
keeps the span invariant. So the whole routine reverses the segment. The
repository's two checks exercise different versions. `tests/verify.cpp`
calls only `qReverse<ELEMENTSIZE>` (tests/verify.cpp:57) and prints the
result. `main.cpp` calls `qreverse` on an iota array and reports whether
the result is descending (main.cpp:33-45).

## Model

| member | source | states |
|---|---|---|
| ByteSwap.Swap64Bytes | qreverse.hpp:48-60 | byte k of Swap64(x) is byte 7-k of x, for every k |
| ByteSwap.Swap32Bytes | qreverse.hpp:62-70 | byte k of Swap32(x) is byte 3-k of x, for every k |
| ByteSwap.Swap16Bytes | qreverse.hpp:72-78 | Swap16 exchanges the two bytes of its argument |
| ByteSwap.SwapInvolutions | include/qreverse.hpp:41-71 | each of Swap64, Swap32 and Swap16 undoes itself |
| ByteSwap.LoadStoreRoundTrips | include/qreverse.hpp:171-186 | reading 8, 4 or 2 bytes as a little-endian integer and writing it back gives the same bytes |
| ByteSwap.Bswap64Reverses | qreverse.hpp:277-280 | the BSWAP64 tier's little-endian read, Swap64 and write of an 8-byte chunk leaves the chunk's bytes in reverse order |
| ByteSwap.Bswap32Reverses | qreverse.hpp:290-293 | the BSWAP32 tier's read, Swap32 and write of a 4-byte chunk leaves its bytes in reverse order |
| ByteSwap.Bswap16Reverses | qreverse.hpp:303-306 | the BSWAP16 tier's read, Swap16 and write of a 2-byte chunk exchanges its two bytes |
| Tiers.ElementsReversedSplit | qreverse.hpp:100-111 | a register whose e-byte elements are in reverse order, cut into elements, is the reversed sequence of the elements it was loaded from |
| Tiers.ReverseBytes256Reverses | qreverse.hpp:238-248 | the 1-byte AVX2 register transform reverses all 32 bytes: the per-lane shuffle with the 0..15 mask, then the lane exchange |
| Tiers.ReverseBytes128Reverses | qreverse.hpp:260-265 | the 1-byte SSSE3 shuffle with the 0..15 mask reverses all 16 bytes |
| Tiers.ReverseWords256Reverses | qreverse.hpp:195-205 | the 2-byte AVX2 transform reverses the 16 two-byte elements and keeps each element's bytes in order |
| Tiers.ReverseWords128Reverses | qreverse.hpp:217-222 | the 2-byte SSSE3 shuffle reverses the 8 two-byte elements and keeps each element's bytes in order |
| Tiers.ReverseDwords256Reverses | qreverse.hpp:157-164 | _mm256_permutevar8x32_epi32 with index vector 7..0 reverses the 8 four-byte elements |
| Tiers.ReverseDwords128Reverses | qreverse.hpp:178-179 | _mm_shuffle_epi32 with _MM_SHUFFLE(0,1,2,3) reverses the 4 four-byte elements |
| Tiers.ReverseQwords256Reverses | qreverse.hpp:104-107 | _mm256_permute4x64_epi64 with _MM_SHUFFLE(0,1,2,3) reverses the 4 eight-byte elements |
| Tiers.ReverseQwords128Reverses | qreverse.hpp:140-141 | _mm_alignr_epi8(A, A, 8) exchanges the two eight-byte elements |
| QReverseImp.RegisterOpReverses | qreverse.hpp:85-311 | every tier's register transform, in every branch of the switch, reverses the register's elements of that branch's size |
| QReverseImp.SingleRound | qreverse.hpp:116-130 | a one-register round loads a quantum from each end, permutes both and stores each at the opposite end; this exchanges the reversed end chunks and keeps every element sizeof(Type) bytes |
| QReverseImp.PairRound | qreverse.hpp:94-114 | the 512-bit round's four loads, four permutes and four crosswise stores exchange the reversed eight-element end chunks |
| QReverseImp.SpanCount | qreverse.hpp:94 | End - Start + 1 in std::size_t is the span's length whenever the span is a proper one and End is below SIZE_MAX |
| QReverseImp.RoundStep | qreverse.hpp:94-309 | one round of any tier loop body (512-bit pair or single register), followed by Start += Quantum and End -= Quantum, keeps the span invariant and every element sizeof(Type) bytes, given that the span holds two quanta |
| QReverseImp.TierLoop | qreverse.hpp:94-309 | a tier loop keeps the span invariant, only moves Start inward, and stops once half the span is below one quantum |
| QReverseImp.QwordTiers | qreverse.hpp:91-148 | the 8-byte cascade keeps the span invariant and leaves at most 3 elements |
| QReverseImp.DwordTiers | qreverse.hpp:149-186 | the 4-byte cascade keeps the span invariant and leaves at most 7 elements |
| QReverseImp.WordTiers | qreverse.hpp:187-229 | the 2-byte cascade keeps the span invariant and leaves at most 15 elements |
| QReverseImp.ByteTiers | qreverse.hpp:230-311 | the 1-byte cascade (AVX2, SSSE3, BSWAP64/32/16) keeps the span invariant and leaves at most 3 bytes |
| QReverseImp.SerialTail | qreverse.hpp:314-326 | the middle loop completes the reversal of the segment with exactly half the remaining span's length of std::swap calls |
| QReverseImp.QReverseImp | qreverse.hpp:82-327 | for every element size, [Start, End] comes out reversed and everything outside it is unchanged. The middle loop does at most 1 swap for 8- and 1-byte elements, at most 3 for 4-byte, at most 7 for 2-byte, and half the span for any other size |
| QReverseImp.EmptyArrayOverrun | qreverse.hpp:329-333 | as written, qreverse on an empty array passes End = SIZE_MAX. The span length wraps to 0, so no tier runs, but Start < End, so the middle loop swaps an element past the end of the array |
| QReverseImp.QReverse | qreverse.hpp:329-333 | the whole array comes out reversed (an empty array unchanged) |
| Span.ExchangeAdvances | qreverse.hpp:126-129 | exchanging the reversed end chunks of the span, then moving Start up and End down by the quantum, keeps the span invariant |
| Span.QuarterStoresExchange | qreverse.hpp:108-111 | storing the four reversed half-chunks in the 512-bit round's order is the same exchange as one eight-element exchange |
| Span.SwapIsExchange | qreverse.hpp:322 | std::swap of the span ends is the one-element exchange |
| Span.SwapStep | qreverse.hpp:322-324 | one std::swap of the span ends, followed by ++Start and --End, keeps the span invariant |
| Span.SettledFinally | qreverse.hpp:317 | once Start < End fails, the invariant means the whole segment is reversed |
| QReverseN.QReverseGeneric | include/qreverse.hpp:76-95 | swapping element i with element Count-i-1 for every i below Count/2 reverses the array, whatever the element; fewer than two elements are left as they are |
| QReverseN.ChunkOpReverses | include/qreverse.hpp:104-223 | each of the five byte tiers' chunk transforms reverses its chunk: 32, 16, 8, 4 or 2 bytes |
| QReverseN.ByteRound | include/qreverse.hpp:104-137 | one round at offset i swaps the reversed chunks [i, i+Q) and [Count-i-Q, Count-i) and keeps the invariant with i advanced by Q |
| QReverseN.ByteTierLoop | include/qreverse.hpp:104-223 | a loop whose counter j runs from j0 up to (Count/2)/Q keeps the invariant. If it runs at all, i ends at Q*((Count/2)/Q) after (Count/2)/Q - j0 rounds; otherwise i is unchanged |
| QReverseN.WideTiers | include/qreverse.hpp:103-187 | AVX2 runs (Count/2)/32 rounds. SSSE3, its counter starting at i, runs (Count/2)/16 rounds when AVX2 was idle and none once AVX2 has run. BSWAP64 runs (Count/2)/8 rounds when both were idle and none once either has run. The offset stays a multiple of 8 and equals the bytes covered |
| QReverseN.NarrowTiers | include/qreverse.hpp:188-223 | from an offset i that is a multiple of 8, BSWAP32 (counter from i/4) runs (Count/2)/4 - i/4 rounds and takes every whole dword left. BSWAP16 (counter from i/2) then runs ((Count/2) mod 4)/2 rounds, at most one, and i ends within one byte of Count/2 |
| QReverseN.ScheduleCovers | include/qreverse.hpp:103-236 | the closed-form schedule takes exactly Count/2 bytes from each end. Once AVX2 runs, SSSE3 and BSWAP64 are idle, and once SSSE3 runs, BSWAP64 is. The residue of up to 31 bytes goes to at most seven BSWAP32 rounds, with at most one BSWAP16 round and one naive swap |
| QReverseN.StagesFollowSchedule | include/qreverse.hpp:104-207 | stage counts that obey the five loop headers (counters from 0, i, i, i/4 and i/2) are the schedule's counts, whatever Count is |
| QReverseN.ByteTiers | include/qreverse.hpp:103-223 | the five stages run exactly the rounds of the closed-form schedule and leave i within one byte of Count/2, with the bytes covered equal to i |
| QReverseN.NaiveSwaps | include/qreverse.hpp:225-236 | the naive loop finishes the reversal with Count/2 - i swaps |
| QReverseN.QReverse1 | include/qreverse.hpp:98-237 | the bytes come out reversed, and every stage, the naive loop included, runs exactly the rounds of the closed-form schedule for Count. So the stages together take Count/2 bytes from each end, AVX2 runs (Count/2)/32 rounds, the naive loop does at most one swap, and SSSE3 and BSWAP64 run nothing once AVX2 has run |

## Left out

- Preprocessor choices:
  - The `_MSC_VER` and GCC/Clang branches of `Swap16/32/64` call compiler
    byte-swap builtins, which are not modelled. Only the portable shift and
    mask branch is modelled; its byte-level effect is the same reversal.
  - The `VERBOSE` `printf` tracing is output only and is left out.
- Memory:
  - Aliasing, alignment and the `reinterpret_cast` conversions are left out. Memory is a
    sequence of elements, and a vector or integer access reads or writes a
    run of them.
  - Accesses are within bounds by construction, because every round's
    precondition is what the loop guard establishes.
- Element type: `Type` and `ElementSize` enter only through their size.
  `std::swap` on a `PodElement` union moves the element whole, so the
  generic version works on a sequence of any values.
- QReverseImp.QReverseImp: requires `Start <= End + 1` and `End < Size`.
  The routine does not check these, and the model does not describe
  inputs outside them.
  - Memory outside the array is touched in two cases. One is a non-empty
    span that reaches past the array. The other is `Start > End + 1` in
    the 1-, 2-, 4- and 8-byte branches, where the wrapped `End - Start + 1`
    keeps a tier loop running.
  - The other excluded inputs are no-ops. With `Start == End + 1` (as
    integers, so End is below SIZE_MAX) the span count is 0 and
    `Start < End` fails, however far End lies past the array. For 16-byte and
    other unlisted sizes with `Start > End + 1` there is no tier loop, and
    the middle loop's guard is false.
  - The one caller in the repository, `qreverse`, leaves the requires only
    for an empty array (see Findings).
- QReverseImp.TierLoop: does not state how many rounds a tier runs. It
  states only that the loop keeps the invariant, moves Start inward and
  leaves less than two quanta. An exact round count in terms of the
  starting span made the proof too expensive.
- QReverseImp.QReverseImp: the serial-swap bounds for 2- and 4-byte
  elements are 7 and 3. After the last vector tier, half the span is below
  8 (2-byte) or 4 (4-byte) elements, so the middle loop may run that long.
  The bound of one swap holds for the 8- and 1-byte cascades only.
- Performance: timing, cache behaviour, and the benchmark and command-line
  drivers (`tests/benchmark.cpp`, `main.cpp`) are not part of this model.

## Findings

| source | as written | input that shows it | evidently intended | confidence | as-written member | corrected member |
|---|---|---|---|---|---|---|
| qreverse.hpp:329-333 | `qreverse` passes `Size-1` as End, which wraps to SIZE_MAX when Size is 0. `End - Start + 1` then wraps to 0, so no tier runs, but `Start < End` holds, so the middle loop swaps `Values[0]` and `Values[SIZE_MAX]` of an empty array | `qreverse(Values, 0)` | an empty array is left alone | not executed | QReverseImp.EmptyArrayOverrun | QReverseImp.QReverse |
