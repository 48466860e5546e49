/** The later version of the routine, `qReverse<ElementSize>`: a generic
    element-wise swap for any element size, and a specialisation for
    1-byte elements that walks a single offset i inward from both ends
    through five tiers (AVX2, SSSE3, BSWAP64, BSWAP32, BSWAP16) before
    finishing with single-byte swaps.

    Both work on the whole array, so the reversed segment is [0, Count-1]
    and the span after i steps is [i, Count-1-i]. */
module QReverseN {
  import opened Seqs
  import opened ByteSwap
  import opened Tiers
  import opened Span

  type Byte = bv8

  // ---------------------------------------------------------------------
  // qReverse<ElementSize>: the generic version.

  /** Swap element i with element Count-i-1 for every i below Count/2. An
      element is any value: the union of ElementSize bytes is only moved. */
  method QReverseGeneric<T>(a: seq<T>) returns (r: seq<T>)
    ensures r == Reverse(a)
    ensures |a| <= 1 ==> r == a
  {
    var n := |a|;
    r := a;
    var i: nat := 0;
    while i < n / 2
      invariant i <= n / 2
      invariant Settled(a, r, 0, n - 1, i)
    {
      r := SwapStep(a, r, 0, n - 1, i, n - 1 - i);
      i := i + 1;
    }
    SettledFinally(a, r, 0, n - 1, i);
    WholeSegment(a, r);
  }

  // ---------------------------------------------------------------------
  // qReverse<1>: the byte specialisation.

  /** The five accelerated tiers of qReverse<1>, widest first. */
  datatype ByteTier = Avx2 | Ssse3 | Bswap64 | Bswap32 | Bswap16
  {
    /** Bytes taken from each end per round. */
    function Width(): nat
    {
      match this
      case Avx2 => 32
      case Ssse3 => 16
      case Bswap64 => 8
      case Bswap32 => 4
      case Bswap16 => 2
    }
  }

  /** The chunk transform of a tier: the per-lane shuffle with
      _mm256_set_epi8(0..15, 0..15) and the lane swap for AVX2, the
      _mm_set_epi8(0..15) shuffle for SSSE3, and load, SwapN, store for the
      BSWAP tiers. */
  function ChunkOp(t: ByteTier, x: seq<Byte>): seq<Byte>
    requires |x| == t.Width()
  {
    match t
    case Avx2 => ReverseBytes256(x)
    case Ssse3 => ReverseBytes128(x)
    case Bswap64 => BswapChunk64(x)
    case Bswap32 => BswapChunk32(x)
    case Bswap16 => BswapChunk16(x)
  }

  /** Every tier's chunk transform reverses the chunk. */
  lemma ChunkOpReverses(t: ByteTier, x: seq<Byte>)
    requires |x| == t.Width()
    ensures ChunkOp(t, x) == Reverse(x)
  {
    match t
    case Avx2 => ReverseBytes256Reverses(x);
    case Ssse3 => ReverseBytes128Reverses(x);
    case Bswap64 => Bswap64Reverses(x);
    case Bswap32 => Bswap32Reverses(x);
    case Bswap16 => Bswap16Reverses(x);
  }

  /** One chunk transform, as a tier body applies it. */
  method ReverseChunk(t: ByteTier, x: seq<Byte>) returns (y: seq<Byte>)
    requires |x| == t.Width()
    ensures y == Reverse(x)
  {
    ChunkOpReverses(t, x);
    y := ChunkOp(t, x);
  }

  /** One round of tier t at offset i: the lower chunk [i, i+Q) and the
      upper chunk [Count-i-Q, Count-i) are each transformed, the upper one
      stored low and the lower one stored high. Its precondition,
      i + Q <= Count/2, keeps the chunks disjoint. */
  method ByteRound(ghost a: seq<Byte>, buf: seq<Byte>, i: nat, t: ByteTier)
    returns (buf': seq<Byte>)
    requires Settled(a, buf, 0, |a| - 1, i)
    requires i + t.Width() <= |a| / 2
    ensures Settled(a, buf', 0, |a| - 1, i + t.Width())
  {
    var n, q := |buf|, t.Width();
    assert n == |a| && 0 < q && 2 * (i + q) <= n;
    var end := n - 1 - i;
    var lower := ReverseChunk(t, buf[i .. i + q]);
    var upper := ReverseChunk(t, buf[end + 1 - q .. end + 1]);
    buf' := StoreChunks(a, buf, 0, n - 1, i, end, q, lower, upper);
  }

  /** One tier loop of qReverse<1>, with its counter as written: j runs
      from j0 up to (Count/2)/Q and i advances by Q per round. When the
      loop runs at all, i is Q*j0 on entry and the loop ends with i at the
      largest multiple of Q not above Count/2; otherwise i is unchanged. */
  method ByteTierLoop(ghost a: seq<Byte>, buf: seq<Byte>, i0: nat, j0: nat, t: ByteTier)
    returns (buf': seq<Byte>, i: nat, rounds: nat)
    requires Settled(a, buf, 0, |a| - 1, i0) && i0 <= |a| / 2
    requires j0 < (|a| / 2) / t.Width() ==> i0 == t.Width() * j0
    ensures Settled(a, buf', 0, |a| - 1, i)
    ensures j0 < (|a| / 2) / t.Width() ==>
      i == t.Width() * ((|a| / 2) / t.Width()) && rounds == (|a| / 2) / t.Width() - j0
    ensures j0 >= (|a| / 2) / t.Width() ==> i == i0 && rounds == 0
  {
    var h, q := |buf| / 2, t.Width();
    buf', i, rounds := buf, i0, 0;
    var j := j0;
    while j < h / q
      invariant Settled(a, buf', 0, |a| - 1, i)
      invariant j0 <= j && rounds == j - j0
      invariant j0 < h / q ==> j <= h / q && i == q * j
      invariant j0 >= h / q ==> i == i0 && j == j0
    {
      BlockInBounds(q, j, h / q);
      buf' := ByteRound(a, buf', i, t);
      i, j, rounds := i + q, j + 1, rounds + 1;
    }
    assert |a| / 2 == h;
  }

  /** How many rounds each stage of qReverse<1> ran. */
  datatype ByteRounds = ByteRounds(avx2: nat, ssse3: nat, bswap64: nat, bswap32: nat,
                                   bswap16: nat, naive: nat)
  {
    /** Bytes taken from each end, over all stages. */
    function Covered(): nat
    {
      32 * avx2 + 16 * ssse3 + 8 * bswap64 + 4 * bswap32 + 2 * bswap16 + naive
    }
  }

  /** The rounds each stage of qReverse<1> runs on count bytes, in closed
      form, with h = count/2. AVX2 takes the multiples of 32; SSSE3 runs
      only when AVX2 is idle, and BSWAP64 only when both are. Whatever the
      last wide stage leaves (under 32, 16 or 8 bytes) goes to BSWAP32,
      so it can run up to seven rounds; BSWAP16 and the naive loop take at
      most one each. */
  function Schedule(count: nat): ByteRounds
  {
    var h := count / 2;
    var residue := if h >= 32 then h % 32 else if h >= 16 then h % 16 else h % 8;
    ByteRounds(h / 32, if h < 32 then h / 16 else 0, if h < 16 then h / 8 else 0,
               residue / 4, (h % 4) / 2, h % 2)
  }

  /** The schedule takes exactly count/2 bytes from each end, and each
      stage's share is what the stages before it left over. */
  lemma ScheduleCovers(count: nat)
    ensures Schedule(count).Covered() == count / 2
    ensures Schedule(count).bswap32 <= 7 && Schedule(count).bswap16 <= 1
    ensures Schedule(count).naive <= 1
    ensures Schedule(count).avx2 > 0 ==> Schedule(count).ssse3 == 0 && Schedule(count).bswap64 == 0
    ensures Schedule(count).ssse3 > 0 ==> Schedule(count).bswap64 == 0
  {
    var h, r := count / 2, Schedule(count);
    assert r.avx2 == h / 32 && r.bswap16 == (h % 4) / 2 && r.naive == h % 2;
    if h >= 32 {
      assert r.ssse3 == 0 && r.bswap64 == 0 && r.bswap32 == (h % 32) / 4;
      Quarters(h, 32 * (h / 32), h % 32, 8 * (h / 32));
    } else if h >= 16 {
      assert r.avx2 == 0 && r.ssse3 == 1 && r.bswap64 == 0 && r.bswap32 == (h % 16) / 4;
      Quarters(h, 16, h % 16, 4);
    } else {
      assert r.avx2 == 0 && r.ssse3 == 0 && r.bswap64 == h / 8 && r.bswap32 == (h % 8) / 4;
      Quarters(h, 8 * (h / 8), h % 8, 2 * (h / 8));
    }
  }

  /** h cut at a multiple of 4: the residue splits into whole dwords, at
      most one word and at most one byte. */
  lemma Quarters(h: nat, w: nat, res: nat, t: nat)
    requires h == w + res && w == 4 * t
    ensures h == w + 4 * (res / 4) + 2 * ((h % 4) / 2) + h % 2
  {
    var q, b := res / 4, res % 4;
    assert res == 4 * q + b && b < 4;
    var u := t + q;
    assert h == 4 * u + b;
    assert h / 4 == u && h % 4 == b;
    assert h / 2 == 2 * u + b / 2 && h % 2 == b % 2;
  }

  /** After the AVX2 loop i is the largest multiple of 32 not above
      Count/2; an SSSE3 counter started at i then runs only if i is 0. */
  lemma AfterAvx2(h: nat, i: nat)
    requires i == 32 * (h / 32)
    ensures i <= h && i % 16 == 0
    ensures i < h / 16 ==> i == 0
  {
  }

  /** After the SSSE3 loop, a BSWAP64 counter started at i runs only if i
      is 0. */
  lemma AfterSsse3(h: nat, i: nat)
    requires i == 16 * (h / 16) || (i == 32 * (h / 32) && h / 16 <= i)
    ensures i <= h && i % 8 == 0
    ensures i < h / 8 ==> i == 0
  {
  }

  /** The vector and BSWAP64 stages, with counters started at i: the
      AVX2 loop runs (Count/2)/32 rounds, and once it has run the SSSE3 and
      BSWAP64 loops do not. SSSE3 runs only when AVX2 is idle, and
      BSWAP64 only when both are. */
  method WideTiers(ghost a: seq<Byte>, buf: seq<Byte>)
    returns (buf': seq<Byte>, i: nat, avx2: nat, ssse3: nat, bswap64: nat)
    requires buf == a
    ensures Settled(a, buf', 0, |a| - 1, i)
    ensures i <= |a| / 2 && i % 8 == 0 && 32 * avx2 + 16 * ssse3 + 8 * bswap64 == i
    ensures avx2 == (|a| / 2) / 32
    ensures avx2 > 0 ==> ssse3 == 0 && bswap64 == 0
    ensures avx2 == 0 ==> ssse3 == (|a| / 2) / 16
    ensures ssse3 > 0 ==> bswap64 == 0
    ensures avx2 == 0 && ssse3 == 0 ==> bswap64 == (|a| / 2) / 8
  {
    ghost var h := |a| / 2;
    SettledInitially(a, 0, |a| - 1);
    buf', i, avx2 := ByteTierLoop(a, buf, 0, 0, Avx2);
    AfterAvx2(h, i);
    buf', i, ssse3 := ByteTierLoop(a, buf', i, i, Ssse3);
    AfterSsse3(h, i);
    buf', i, bswap64 := ByteTierLoop(a, buf', i, i, Bswap64);
  }

  /** From a multiple of 8, a counter started at i/4 matches i. */
  lemma Bswap32Entry(i0: nat)
    requires i0 % 8 == 0
    ensures i0 == 4 * (i0 / 4)
  {
  }

  /** A BSWAP32 counter started at i/4 from a multiple of 8 leaves i even,
      having advanced it by 4 per round. */
  lemma AfterBswap32(h: nat, i0: nat, i: nat, rounds: nat)
    requires i0 <= h && i0 % 8 == 0
    requires i0 / 4 < h / 4 ==> i == 4 * (h / 4) && rounds == h / 4 - i0 / 4
    requires i0 / 4 >= h / 4 ==> i == i0 && rounds == 0
    ensures i <= h && i % 2 == 0 && 4 * rounds == i - i0
  {
    var m, q := i0 / 8, h / 4;
    assert i0 == 8 * m && i0 / 4 == 2 * m;
    assert 4 * q <= h;
    if 2 * m < q {
      assert i == 4 * q && rounds == q - 2 * m;
    }
  }

  /** A BSWAP16 counter started at i/2 from an even i brings i to within
      one byte of h, having advanced it by 2 per round. */
  lemma AfterBswap16(h: nat, i0: nat, i: nat, rounds: nat)
    requires i0 <= h && i0 % 2 == 0
    requires i0 / 2 < h / 2 ==> i == 2 * (h / 2) && rounds == h / 2 - i0 / 2
    requires i0 / 2 >= h / 2 ==> i == i0 && rounds == 0
    ensures i0 == 2 * (i0 / 2)
    ensures i <= h < i + 2 && 2 * rounds == i - i0
  {
  }

  /** The BSWAP32 and BSWAP16 stages, with counters started at i/4 and
      i/2: from an offset that is a multiple of 8 they bring i to within
      one byte of Count/2. BSWAP32 takes every whole dword of the residue,
      so BSWAP16 runs at most once. */
  method NarrowTiers(ghost a: seq<Byte>, buf: seq<Byte>, i0: nat)
    returns (buf': seq<Byte>, i: nat, bswap32: nat, bswap16: nat)
    requires Settled(a, buf, 0, |a| - 1, i0) && i0 <= |a| / 2 && i0 % 8 == 0
    ensures Settled(a, buf', 0, |a| - 1, i)
    ensures i <= |a| / 2 < i + 2 && 4 * bswap32 + 2 * bswap16 == i - i0
    ensures bswap32 == (|a| / 2) / 4 - i0 / 4 && bswap16 == ((|a| / 2) % 4) / 2
  {
    ghost var h := |a| / 2;
    var i1;
    Bswap32Entry(i0);
    buf', i1, bswap32 := ByteTierLoop(a, buf, i0, i0 / 4, Bswap32);
    AfterBswap32(h, i0, i1, bswap32);
    buf', i, bswap16 := ByteTierLoop(a, buf', i1, i1 / 2, Bswap16);
    AfterBswap16(h, i1, i, bswap16);
  }

  /** The five accelerated stages of qReverse<1>. They run the rounds of
      the closed-form schedule and leave at most one byte per side for the
      naive swaps. */
  method ByteTiers(ghost a: seq<Byte>, buf: seq<Byte>)
    returns (buf': seq<Byte>, i: nat, rounds: ByteRounds)
    requires buf == a
    ensures Settled(a, buf', 0, |a| - 1, i)
    ensures i <= |a| / 2 < i + 2 && rounds.naive == 0 && rounds.Covered() == i
    ensures rounds.avx2 == (|a| / 2) / 32
    ensures rounds.avx2 > 0 ==> rounds.ssse3 == 0 && rounds.bswap64 == 0
    ensures rounds == Schedule(|a|).(naive := 0)
  {
    var i0, r1, r2, r3, r4, r5;
    buf', i0, r1, r2, r3 := WideTiers(a, buf);
    buf', i, r4, r5 := NarrowTiers(a, buf', i0);
    rounds := ByteRounds(r1, r2, r3, r4, r5, 0);
    StagesFollowSchedule(|a| / 2, r1, r2, r3, r4, r5, i0);
  }

  /** Stage counts that obey the loop counters' rules are the schedule's. */
  lemma StagesFollowSchedule(h: nat, avx2: nat, ssse3: nat, bswap64: nat, bswap32: nat,
                             bswap16: nat, i0: nat)
    requires avx2 == h / 32 && i0 == 32 * avx2 + 16 * ssse3 + 8 * bswap64
    requires avx2 > 0 ==> ssse3 == 0 && bswap64 == 0
    requires avx2 == 0 ==> ssse3 == h / 16
    requires ssse3 > 0 ==> bswap64 == 0
    requires avx2 == 0 && ssse3 == 0 ==> bswap64 == h / 8
    requires bswap32 == h / 4 - i0 / 4 && bswap16 == (h % 4) / 2
    ensures ByteRounds(avx2, ssse3, bswap64, bswap32, bswap16, 0)
         == Schedule(2 * h).(naive := 0)
  {
    assert (2 * h) / 2 == h;
    if h >= 32 {
      var k := h / 32;
      assert h == 32 * k + h % 32 && i0 == 32 * k && i0 / 4 == 8 * k;
      assert h / 4 == 8 * k + (h % 32) / 4;
    } else if h >= 16 {
      assert i0 == 16 && h % 16 == h - 16;
    } else {
      var k := h / 8;
      assert h == 8 * k + h % 8 && i0 == 8 * k && i0 / 4 == 2 * k;
      assert h / 4 == 2 * k + (h % 8) / 4;
    }
  }

  /** The naive loop: std::swap of bytes i and Count-i-1 while i is below
      Count/2. */
  method NaiveSwaps(ghost a: seq<Byte>, buf: seq<Byte>, i0: nat)
    returns (r: seq<Byte>, swaps: nat)
    requires Settled(a, buf, 0, |a| - 1, i0) && i0 <= |a| / 2
    ensures r == Reverse(a)
    ensures swaps == |a| / 2 - i0
  {
    var n := |buf|;
    var i := i0;
    r, swaps := buf, 0;
    while i < n / 2
      invariant i <= n / 2 && swaps == i - i0
      invariant Settled(a, r, 0, n - 1, i)
    {
      r := SwapStep(a, r, 0, n - 1, i, n - 1 - i);
      i, swaps := i + 1, swaps + 1;
    }
    SettledFinally(a, r, 0, n - 1, i);
    WholeSegment(a, r);
  }

  /** qReverse<1>: the bytes come out reversed, and each stage runs the
      rounds the closed-form schedule gives for Count. Every byte of the
      lower half is moved by exactly one stage, the AVX2 loop runs
      (Count/2)/32 rounds, and the naive loop does at most one swap. Once
      the AVX2 loop has run, the SSSE3 and BSWAP64 loops, whose counters
      start at i, do not run at all. */
  method QReverse1(a: seq<Byte>) returns (r: seq<Byte>, rounds: ByteRounds)
    ensures r == Reverse(a)
    ensures rounds.Covered() == |a| / 2
    ensures rounds.avx2 == (|a| / 2) / 32 && rounds.naive <= 1
    ensures rounds.avx2 > 0 ==> rounds.ssse3 == 0 && rounds.bswap64 == 0
    ensures rounds == Schedule(|a|)
  {
    var buf, i, tiers := ByteTiers(a, a);
    var naive;
    r, naive := NaiveSwaps(a, buf, i);
    rounds := tiers.(naive := naive);
    ScheduleCovers(|a|);
  }
}
