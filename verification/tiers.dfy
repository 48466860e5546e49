/** The chunk transforms of the accelerated tiers: each loads a chunk of
    elements into a register, permutes the register with the intrinsic and
    the constant operand the source uses, and stores it back. Each is shown
    here to reverse the order of the elements within the chunk while
    keeping the bytes of every element in order. */
module Tiers {
  import opened Seqs
  import opened Simd

  /** Where byte i of a w-byte register lands when the register's e-byte
      elements are put in reverse order: its element moves from i/e to
      w/e-1-i/e, its offset i%e within the element is kept. */
  function RevIndex(w: int, e: int, i: int): int
    requires e > 0
  {
    w - e - i + 2 * (i % e)
  }

  /** r is x with its e-byte elements in reverse order. */
  ghost predicate ElementsReversed(x: seq<bv8>, r: seq<bv8>, e: nat)
    requires e > 0
  {
    |r| == |x| &&
    forall i :: 0 <= i < |x| ==>
      0 <= RevIndex(|x|, e, i) < |x| && r[i] == x[RevIndex(|x|, e, i)]
  }

  /** Byte t of element k sits at offset t within its element. */
  lemma OffsetInElement(e: nat, k: nat, t: nat)
    requires e == 1 || e == 2 || e == 4 || e == 8
    requires t < e
    ensures (e * k + t) % e == t
  {
    if e == 1 {
      assert (k + t) % 1 == 0;
    } else if e == 2 {
      assert e * k + t == 2 * k + t && (2 * k + t) % 2 == t;
    } else if e == 4 {
      assert e * k + t == 4 * k + t && (4 * k + t) % 4 == t;
    } else {
      assert e * k + t == 8 * k + t && (8 * k + t) % 8 == t;
    }
  }

  /** Element k of r is element n-1-k of x. */
  lemma ElementReversedAt(x: seq<bv8>, r: seq<bv8>, e: nat, n: nat, k: nat)
    requires e == 1 || e == 2 || e == 4 || e == 8
    requires |x| == e * n && ElementsReversed(x, r, e) && k < n
    ensures e * k + e <= |x| && e * (n - 1 - k) + e <= |x|
    ensures r[e * k .. e * k + e] == x[e * (n - 1 - k) .. e * (n - 1 - k) + e]
  {
    var p := e * k;
    var q := e * (n - 1 - k);
    BlockInBounds(e, k, n);
    BlockInBounds(e, n - 1 - k, n);
    assert q == e * n - e - p;
    assert |r| == |x| && p + e <= |x| && q + e <= |x|;
    var a := r[p .. p + e];
    var b := x[q .. q + e];
    forall t | 0 <= t < e
      ensures a[t] == b[t]
    {
      OffsetInElement(e, k, t);
      assert RevIndex(|x|, e, p + t) == q + t;
    }
  }

  /** Reversing the e-byte elements of a register, seen as bytes, is
      reversing the sequence of its elements. */
  lemma ElementsReversedSplit(x: seq<bv8>, r: seq<bv8>, e: nat, n: nat)
    requires e == 1 || e == 2 || e == 4 || e == 8
    requires |x| == e * n && ElementsReversed(x, r, e)
    ensures Split(r, e) == Reverse(Split(x, e))
  {
    SplitIndex(x, e, n);
    SplitIndex(r, e, n);
    var sr := Split(r, e);
    var sx := Split(x, e);
    forall k | 0 <= k < n
      ensures sr[k] == sx[n - 1 - k]
    {
      ElementReversedAt(x, r, e, n, k);
      assert sr[k] == r[e * k .. e * k + e];
      assert sx[n - 1 - k] == x[e * (n - 1 - k) .. e * (n - 1 - k) + e];
    }
    assert sr == Reverse(sx);
  }

  /** For 1-byte elements, element reversal is plain reversal. */
  lemma ElementsReversedBytes(x: seq<bv8>, r: seq<bv8>)
    ensures ElementsReversed(x, r, 1) <==> r == Reverse(x)
  {
  }

  // ---------------------------------------------------------------------
  // Shuffle control operands, as the source writes them.

  /** Arguments of the per-lane byte-reversal mask, most significant byte
      first (qreverse.hpp:239-240 and 260, include/qreverse.hpp:107-108 and
      152). The 256-bit mask repeats the 16 arguments for each lane. */
  const ByteLaneArgs: seq<int> := [0, 1, 2, 3, 4, 5, 6, 7, 8, 9, 10, 11, 12, 13, 14, 15]

  /** Arguments of the per-lane 16-bit-element reversal mask
      (qreverse.hpp:196-197 and 217). */
  const WordLaneArgs: seq<int> := [1, 0, 3, 2, 5, 4, 7, 6, 9, 8, 11, 10, 13, 12, 15, 14]

  /** Arguments of the 32-bit lane index vector for _mm256_permutevar8x32_epi32,
      lane 0 first (qreverse.hpp:157-159). */
  const DwordIndexArgs: seq<int> := [7, 6, 5, 4, 3, 2, 1, 0]

  /** The lane byte that reverses e-byte elements within a 16-byte lane. */
  function LaneRev(e: int, p: int): int
    requires e > 0
  {
    RevIndex(16, e, p)
  }

  /** args, most significant byte first, reverses e-byte elements within a
      lane; checked one argument at a time from position k. LaneRev is
      written out here so that Dafny can evaluate this predicate on the
      constant argument lists. */
  predicate LaneArgsFrom(args: seq<int>, e: int, k: nat)
    decreases |args| - k
  {
    k >= |args| ||
    (e > 0 && args[k] == 16 - e - (|args| - 1 - k) + 2 * ((|args| - 1 - k) % e) &&
     LaneArgsFrom(args, e, k + 1))
  }

  lemma {:induction false} LaneArgsAll(args: seq<int>, e: int, k: nat)
    requires e > 0 && LaneArgsFrom(args, e, k)
    ensures forall j :: k <= j < |args| ==> args[j] == LaneRev(e, |args| - 1 - j)
    decreases |args| - k
  {
    if k < |args| {
      LaneArgsAll(args, e, k + 1);
    }
  }

  /** A control byte below 16 selects the byte it names. */
  lemma SmallControl(v: int)
    requires 0 <= v < 16
    ensures CharByte(v) & 0x80 == 0 && (CharByte(v) & 0x0F) as int == v
  {
    assert v % 256 == v;
    var b := v as bv8;
    assert CharByte(v) == b && b < 16;
  }

  /** The byte-reversal and 16-bit-reversal argument lists reverse 1-byte and
      2-byte elements within a lane. */
  lemma ByteLaneArgsReverse()
    ensures LaneArgsFrom(ByteLaneArgs, 1, 0)
  {
  }

  lemma WordLaneArgsReverse()
    ensures LaneArgsFrom(WordLaneArgs, 2, 0)
  {
  }

  /** The control bytes a 16-argument lane mask produces: byte i selects
      lane byte LaneRev(e, i). */
  lemma LaneMask128(args: seq<int>, e: int)
    requires e == 1 || e == 2
    requires |args| == 16 && LaneArgsFrom(args, e, 0)
    ensures forall i :: 0 <= i < 16 ==>
      SetEpi8(args)[i] & 0x80 == 0 && (SetEpi8(args)[i] & 0x0F) as int == LaneRev(e, i)
  {
    LaneArgsAll(args, e, 0);
    forall i | 0 <= i < 16
      ensures SetEpi8(args)[i] & 0x80 == 0 && (SetEpi8(args)[i] & 0x0F) as int == LaneRev(e, i)
    {
      SmallControl(LaneRev(e, i));
    }
  }

  /** The same for the 256-bit mask, whose two lanes repeat the arguments. */
  lemma LaneMask256(args: seq<int>, e: int)
    requires e == 1 || e == 2
    requires |args| == 16 && LaneArgsFrom(args, e, 0)
    ensures forall i :: 0 <= i < 32 ==>
      SetEpi8(args + args)[i] & 0x80 == 0 &&
      (SetEpi8(args + args)[i] & 0x0F) as int == LaneRev(e, i % 16)
  {
    LaneMask128(args, e);
    forall i | 0 <= i < 32
      ensures SetEpi8(args + args)[i] & 0x80 == 0 &&
              (SetEpi8(args + args)[i] & 0x0F) as int == LaneRev(e, i % 16)
    {
      var p := if i < 16 then i else i - 16;
      assert p == i % 16;
      assert (args + args)[31 - i] == args[15 - p];
      assert SetEpi8(args + args)[i] == SetEpi8(args)[p];
    }
  }

  // ---------------------------------------------------------------------
  // The register transforms.

  /** 1-byte elements, 256 bits: per-lane byte reversal, then the lane swap
      _mm256_permute2f128_si256(x, x, 1) (qreverse.hpp:238-248,
      include/qreverse.hpp:106-123). */
  function ReverseBytes256(x: seq<bv8>): seq<bv8>
    requires |x| == 32
  {
    var y := Shuffle256Epi8(x, SetEpi8(ByteLaneArgs + ByteLaneArgs));
    Permute2f128(y, y, 1)
  }

  /** 1-byte elements, 128 bits (qreverse.hpp:260-265,
      include/qreverse.hpp:151-155). */
  function ReverseBytes128(x: seq<bv8>): seq<bv8>
    requires |x| == 16
  {
    ShuffleEpi8(x, SetEpi8(ByteLaneArgs))
  }

  /** 2-byte elements, 256 bits (qreverse.hpp:195-205). */
  function ReverseWords256(x: seq<bv8>): seq<bv8>
    requires |x| == 32
  {
    var y := Shuffle256Epi8(x, SetEpi8(WordLaneArgs + WordLaneArgs));
    Permute2f128(y, y, 1)
  }

  /** 2-byte elements, 128 bits (qreverse.hpp:217-222). */
  function ReverseWords128(x: seq<bv8>): seq<bv8>
    requires |x| == 16
  {
    ShuffleEpi8(x, SetEpi8(WordLaneArgs))
  }

  /** 4-byte elements, 256 bits (qreverse.hpp:157-164). */
  function ReverseDwords256(x: seq<bv8>): seq<bv8>
    requires |x| == 32
  {
    PermuteVar8x32(x, SetrEpi32(DwordIndexArgs))
  }

  /** 4-byte elements, 128 bits: _MM_SHUFFLE(0,1,2,3) (qreverse.hpp:178-179). */
  function ReverseDwords128(x: seq<bv8>): seq<bv8>
    requires |x| == 16
  {
    ShuffleEpi32(x, MmShuffle(0, 1, 2, 3))
  }

  /** 8-byte elements, 256 bits: _MM_SHUFFLE(0,1,2,3) (qreverse.hpp:104-107, 124-125). */
  function ReverseQwords256(x: seq<bv8>): seq<bv8>
    requires |x| == 32
  {
    Permute4x64(x, MmShuffle(0, 1, 2, 3))
  }

  /** 8-byte elements, 128 bits: rotate by 8 bytes (qreverse.hpp:140-141). */
  function ReverseQwords128(x: seq<bv8>): seq<bv8>
    requires |x| == 16
  {
    AlignrEpi8(x, x, 8)
  }

  // ---------------------------------------------------------------------
  // Each transform reverses the elements of its register.

  /** A 256-bit shuffle with a repeated lane mask reverses e-byte elements
      within each lane. */
  lemma Shuffle256Lanes(x: seq<bv8>, args: seq<int>, e: int)
    requires e == 1 || e == 2
    requires |x| == 32 && |args| == 16 && LaneArgsFrom(args, e, 0)
    ensures forall j :: 0 <= j < 32 ==>
      Shuffle256Epi8(x, SetEpi8(args + args))[j] == x[16 * (j / 16) + LaneRev(e, j % 16)]
  {
    LaneMask256(args, e);
  }

  /** _mm256_permute2f128_si256(y, y, 1) exchanges the two 128-bit lanes. */
  lemma SwapLanes(y: seq<bv8>)
    requires |y| == 32
    ensures forall i :: 0 <= i < 16 ==> Permute2f128(y, y, 1)[i] == y[i + 16]
    ensures forall i :: 16 <= i < 32 ==> Permute2f128(y, y, 1)[i] == y[i - 16]
  {
  }

  /** Byte i of the whole register comes from byte j of the other lane,
      which the per-lane reversal took from RevIndex(32, e, i). */
  lemma SwappedLaneIndex(e: int, i: int, j: int)
    requires e == 1 || e == 2
    requires 0 <= i < 32 && j == (if i < 16 then i + 16 else i - 16)
    ensures 0 <= j < 32 && 16 * (j / 16) + LaneRev(e, j % 16) == RevIndex(32, e, i)
    ensures 0 <= RevIndex(32, e, i) < 32
  {
    if i < 16 {
      assert j / 16 == 1 && j % 16 == i;
    } else {
      assert j / 16 == 0 && j % 16 == i - 16;
      assert (i - 16) % e == i % e;
    }
  }

  /** A per-lane reversal of e-byte elements followed by a lane swap
      reverses the e-byte elements of the whole 32-byte register. */
  lemma LaneReversalThenSwap(x: seq<bv8>, y: seq<bv8>, r: seq<bv8>, e: int)
    requires e == 1 || e == 2
    requires |x| == 32 && |y| == 32 && |r| == 32
    requires forall j :: 0 <= j < 32 ==> y[j] == x[16 * (j / 16) + LaneRev(e, j % 16)]
    requires forall i :: 0 <= i < 16 ==> r[i] == y[i + 16]
    requires forall i :: 16 <= i < 32 ==> r[i] == y[i - 16]
    ensures ElementsReversed(x, r, e)
  {
    forall i | 0 <= i < 32
      ensures 0 <= RevIndex(32, e, i) < 32 && r[i] == x[RevIndex(32, e, i)]
    {
      var j := if i < 16 then i + 16 else i - 16;
      SwappedLaneIndex(e, i, j);
      assert r[i] == y[j] == x[16 * (j / 16) + LaneRev(e, j % 16)];
    }
  }

  lemma ReverseBytes256Reverses(x: seq<bv8>)
    requires |x| == 32
    ensures ElementsReversed(x, ReverseBytes256(x), 1)
    ensures ReverseBytes256(x) == Reverse(x)
  {
    ByteLaneArgsReverse();
    Shuffle256Lanes(x, ByteLaneArgs, 1);
    var y := Shuffle256Epi8(x, SetEpi8(ByteLaneArgs + ByteLaneArgs));
    SwapLanes(y);
    LaneReversalThenSwap(x, y, ReverseBytes256(x), 1);
    ElementsReversedBytes(x, ReverseBytes256(x));
  }

  lemma ReverseBytes128Reverses(x: seq<bv8>)
    requires |x| == 16
    ensures ElementsReversed(x, ReverseBytes128(x), 1)
    ensures ReverseBytes128(x) == Reverse(x)
  {
    ByteLaneArgsReverse();
    LaneMask128(ByteLaneArgs, 1);
  }

  lemma ReverseWords256Reverses(x: seq<bv8>)
    requires |x| == 32
    ensures ElementsReversed(x, ReverseWords256(x), 2)
  {
    WordLaneArgsReverse();
    Shuffle256Lanes(x, WordLaneArgs, 2);
    var y := Shuffle256Epi8(x, SetEpi8(WordLaneArgs + WordLaneArgs));
    SwapLanes(y);
    LaneReversalThenSwap(x, y, ReverseWords256(x), 2);
  }

  lemma ReverseWords128Reverses(x: seq<bv8>)
    requires |x| == 16
    ensures ElementsReversed(x, ReverseWords128(x), 2)
  {
    WordLaneArgsReverse();
    LaneMask128(WordLaneArgs, 2);
  }

  /** An index argument below 8 puts its value in bits [2:0] of its lane. */
  lemma SmallIndex(v: int)
    requires 0 <= v < 8
    ensures (IntByte(v, 0) & 0x07) as int == v
  {
  }

  /** Lane j of the index vector names lane 7 - j. */
  lemma DwordIndexMask()
    ensures forall j :: 0 <= j < 8 ==> (SetrEpi32(DwordIndexArgs)[4 * j] & 0x07) as int == 7 - j
  {
    var idx := SetrEpi32(DwordIndexArgs);
    forall j | 0 <= j < 8
      ensures (idx[4 * j] & 0x07) as int == 7 - j
    {
      assert DwordIndexArgs[j] == 7 - j;
      assert idx[4 * j] == IntByte(7 - j, 0);
      SmallIndex(7 - j);
    }
  }

  lemma ReverseDwords256Reverses(x: seq<bv8>)
    requires |x| == 32
    ensures ElementsReversed(x, ReverseDwords256(x), 4)
  {
    DwordIndexMask();
    var r := ReverseDwords256(x);
    forall i | 0 <= i < 32
      ensures r[i] == x[RevIndex(32, 4, i)]
    {
      var j := i / 4;
      assert i == 4 * j + i % 4;
      assert (SetrEpi32(DwordIndexArgs)[4 * j] & 0x07) as int == 7 - j;
      assert r[i] == x[4 * (7 - j) + i % 4];
    }
  }

  lemma ReverseDwords128Reverses(x: seq<bv8>)
    requires |x| == 16
    ensures ElementsReversed(x, ReverseDwords128(x), 4)
  {
  }

  /** _MM_SHUFFLE(0,1,2,3) selects lane 3-j for lane j. */
  lemma ReversingSelectors()
    ensures forall j :: 0 <= j < 4 ==> Selector(MmShuffle(0, 1, 2, 3), j) == 3 - j
  {
    assert MmShuffle(0, 1, 2, 3) == 27;
  }

  lemma ReverseQwords256Reverses(x: seq<bv8>)
    requires |x| == 32
    ensures ElementsReversed(x, ReverseQwords256(x), 8)
  {
    ReversingSelectors();
    var r := ReverseQwords256(x);
    forall i | 0 <= i < 32
      ensures r[i] == x[RevIndex(32, 8, i)]
    {
      assert 8 * (i / 8) == i - i % 8;
    }
  }

  lemma ReverseQwords128Reverses(x: seq<bv8>)
    requires |x| == 16
    ensures ElementsReversed(x, ReverseQwords128(x), 8)
  {
  }
}
