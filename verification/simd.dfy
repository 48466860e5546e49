/** The SSE/AVX intrinsics the vector tiers use, each as a pure function on
    a register's bytes. A register is its bytes in memory order: byte 0 is
    the byte an unaligned load reads from the lowest address, which on x86
    is also bits [7:0] of the register. Each function follows the
    operation's definition in the Intel Intrinsics Guide. Immediate operands
    are compile-time integers, modelled as `int` in 0..255. */
module Simd {

  /** The byte a `char` argument contributes (two's complement truncation). */
  function CharByte(v: int): bv8
  {
    (v % 256) as bv8
  }

  /** Byte t (little-endian) of a 32-bit integer argument. */
  function IntByte(v: int, t: nat): bv8
    requires t < 4
  {
    var u := v % 0x1_0000_0000;
    var d := if t == 0 then 1 else if t == 1 then 0x100 else if t == 2 then 0x1_0000 else 0x100_0000;
    ((u / d) % 256) as bv8
  }

  /** _mm_set_epi8 and _mm256_set_epi8: the arguments are listed from the
      most significant byte down, so the last argument is byte 0. */
  function SetEpi8(args: seq<int>): (r: seq<bv8>)
    ensures |r| == |args|
  {
    seq(|args|, i requires 0 <= i < |args| => CharByte(args[|args| - 1 - i]))
  }

  /** _mm256_setr_epi32: the arguments are listed from 32-bit lane 0 up. */
  function SetrEpi32(args: seq<int>): (r: seq<bv8>)
    ensures |r| == 4 * |args|
  {
    seq(4 * |args|, i requires 0 <= i < 4 * |args| => IntByte(args[i / 4], i % 4))
  }

  /** _MM_SHUFFLE(fp3, fp2, fp1, fp0): four 2-bit selectors packed into an
      immediate, fp0 in bits [1:0]. */
  function MmShuffle(fp3: int, fp2: int, fp1: int, fp0: int): (imm: int)
    requires 0 <= fp3 < 4 && 0 <= fp2 < 4 && 0 <= fp1 < 4 && 0 <= fp0 < 4
    ensures 0 <= imm < 256
  {
    fp3 * 64 + fp2 * 16 + fp1 * 4 + fp0
  }

  /** The 2-bit selector in bits [2j+1:2j] of an immediate. */
  function Selector(imm: int, j: nat): (s: nat)
    requires 0 <= imm < 256 && j < 4
    ensures s < 4
  {
    var d := if j == 0 then 1 else if j == 1 then 4 else if j == 2 then 16 else 64;
    (imm / d) % 4
  }

  /** _mm_shuffle_epi8: byte i of the result is byte (m[i] & 0x0F) of a,
      or zero when bit 7 of m[i] is set. */
  function ShuffleEpi8(a: seq<bv8>, m: seq<bv8>): (r: seq<bv8>)
    requires |a| == 16 && |m| == 16
    ensures |r| == 16
  {
    seq(16, i requires 0 <= i < 16 =>
      if m[i] & 0x80 != 0 then 0 else a[(m[i] & 0x0F) as int])
  }

  /** _mm256_shuffle_epi8: the same shuffle within each 128-bit lane; no
      byte crosses from one lane to the other. */
  function Shuffle256Epi8(a: seq<bv8>, m: seq<bv8>): (r: seq<bv8>)
    requires |a| == 32 && |m| == 32
    ensures |r| == 32
  {
    seq(32, i requires 0 <= i < 32 =>
      if m[i] & 0x80 != 0 then 0 else a[16 * (i / 16) + (m[i] & 0x0F) as int])
  }

  /** _mm256_permute2f128_si256: each 128-bit half of the result is chosen
      by four bits of the immediate (bits [3:0] for the low half, [7:4] for
      the high half): bit 3 zeroes it, else bits [1:0] pick a.lo, a.hi,
      b.lo or b.hi. */
  function Permute2f128(a: seq<bv8>, b: seq<bv8>, imm: int): (r: seq<bv8>)
    requires |a| == 32 && |b| == 32 && 0 <= imm < 256
    ensures |r| == 32
  {
    seq(32, i requires 0 <= i < 32 =>
      var control := if i < 16 then imm % 16 else imm / 16;
      var src := control % 4;
      if control / 8 == 1 then 0
      else if src < 2 then a[16 * src + i % 16]
      else b[16 * (src - 2) + i % 16])
  }

  /** _mm256_permute4x64_epi64: 64-bit lane j of the result is lane
      Selector(imm, j) of a. */
  function Permute4x64(a: seq<bv8>, imm: int): (r: seq<bv8>)
    requires |a| == 32 && 0 <= imm < 256
    ensures |r| == 32
  {
    seq(32, i requires 0 <= i < 32 => a[8 * Selector(imm, i / 8) + i % 8])
  }

  /** _mm_shuffle_epi32: 32-bit lane j of the result is lane
      Selector(imm, j) of a. */
  function ShuffleEpi32(a: seq<bv8>, imm: int): (r: seq<bv8>)
    requires |a| == 16 && 0 <= imm < 256
    ensures |r| == 16
  {
    seq(16, i requires 0 <= i < 16 => a[4 * Selector(imm, i / 4) + i % 4])
  }

  /** _mm256_permutevar8x32_epi32: 32-bit lane j of the result is the lane
      of a named by bits [2:0] of lane j of idx. Those bits sit in the
      lowest-addressed byte of the lane. */
  function PermuteVar8x32(a: seq<bv8>, idx: seq<bv8>): (r: seq<bv8>)
    requires |a| == 32 && |idx| == 32
    ensures |r| == 32
  {
    seq(32, i requires 0 <= i < 32 => a[4 * (idx[4 * (i / 4)] & 0x07) as int + i % 4])
  }

  /** _mm_alignr_epi8: the 32-byte concatenation with b in the low half and
      a in the high half, shifted right by imm bytes, low 16 bytes kept. */
  function AlignrEpi8(a: seq<bv8>, b: seq<bv8>, imm: int): (r: seq<bv8>)
    requires |a| == 16 && |b| == 16 && 0 <= imm < 256
    ensures |r| == 16
  {
    seq(16, i requires 0 <= i < 16 =>
      var p := i + imm;
      if p < 16 then b[p] else if p < 32 then a[p - 16] else 0)
  }
}
