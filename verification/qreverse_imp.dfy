/** The first version of the routine, `qreverse_imp` and `qreverse`: an
    in-place reversal of the inclusive span [Start, End] of an array of
    sizeof(Type)-byte elements. The size of the element picks a cascade of
    tiers, widest first; each tier loop takes Quantum elements from each end
    of the span per round while the span still holds two quanta, and a
    serial std::swap loop finishes the middle.

    An element is its sizeof(Type) bytes. A vector load of a run of
    elements is their concatenation, and a store puts a register's bytes
    back as consecutive elements. */
module QReverseImp {
  import opened Seqs
  import opened ByteSwap
  import opened Tiers
  import opened Span

  type Element = seq<bv8>

  /** The tier loops of the source, each named by its register width and
      the element width it is written for. */
  datatype Tier =
    | Avx512Qwords   // two 256-bit registers from each end, 8-byte elements
    | Avx256Qwords
    | Sse128Qwords
    | Avx256Dwords
    | Sse128Dwords
    | Avx256Words
    | Sse128Words
    | Avx256Bytes
    | Sse128Bytes
    | Bswap64Bytes
    | Bswap32Bytes
    | Bswap16Bytes
  {
    /** sizeof(Type) in the switch branch that holds this tier. */
    function ElementSize(): nat
    {
      match this
      case Avx512Qwords | Avx256Qwords | Sse128Qwords => 8
      case Avx256Dwords | Sse128Dwords => 4
      case Avx256Words | Sse128Words => 2
      case _ => 1
    }

    /** Elements taken from each end of the span per round: the elements in
        one register, or in two for Avx512Qwords, whose rounds move a pair of
        256-bit registers from each end. */
    function Quantum(): nat
    {
      match this
      case Avx512Qwords => 8
      case Avx256Qwords => 4
      case Sse128Qwords => 2
      case Avx256Dwords => 8
      case Sse128Dwords => 4
      case Avx256Words => 16
      case Sse128Words => 8
      case Avx256Bytes => 32
      case Sse128Bytes => 16
      case Bswap64Bytes => 8
      case Bswap32Bytes => 4
      case Bswap16Bytes => 2
    }

    /** Bytes in one register the tier permutes. */
    function RegisterBytes(): nat
    {
      if this == Avx512Qwords then 32 else Quantum() * ElementSize()
    }
  }

  /** The permutation a tier applies to one register. The 512-bit tier
      applies the 256-bit 8-byte permutation to each of its registers. */
  function RegisterOp(t: Tier, x: seq<bv8>): (r: seq<bv8>)
    requires |x| == t.RegisterBytes()
    ensures |r| == |x|
  {
    match t
    case Avx512Qwords => ReverseQwords256(x)
    case Avx256Qwords => ReverseQwords256(x)
    case Sse128Qwords => ReverseQwords128(x)
    case Avx256Dwords => ReverseDwords256(x)
    case Sse128Dwords => ReverseDwords128(x)
    case Avx256Words => ReverseWords256(x)
    case Sse128Words => ReverseWords128(x)
    case Avx256Bytes => ReverseBytes256(x)
    case Sse128Bytes => ReverseBytes128(x)
    case Bswap64Bytes => BswapChunk64(x)
    case Bswap32Bytes => BswapChunk32(x)
    case Bswap16Bytes => BswapChunk16(x)
  }

  /** The scalar tiers' byte swaps reverse their chunk byte by byte. */
  lemma BswapRegisterReverses(t: Tier, x: seq<bv8>)
    requires t.Bswap64Bytes? || t.Bswap32Bytes? || t.Bswap16Bytes?
    requires |x| == t.RegisterBytes()
    ensures ElementsReversed(x, RegisterOp(t, x), 1)
  {
    if t.Bswap64Bytes? {
      Bswap64Reverses(x);
    } else if t.Bswap32Bytes? {
      Bswap32Reverses(x);
    } else {
      Bswap16Reverses(x);
    }
    ElementsReversedBytes(x, RegisterOp(t, x));
  }

  /** Every tier's register permutation reverses the register's elements. */
  lemma RegisterOpReverses(t: Tier, x: seq<bv8>)
    requires |x| == t.RegisterBytes()
    ensures ElementsReversed(x, RegisterOp(t, x), t.ElementSize())
  {
    match t
    case Avx512Qwords => ReverseQwords256Reverses(x);
    case Avx256Qwords => ReverseQwords256Reverses(x);
    case Sse128Qwords => ReverseQwords128Reverses(x);
    case Avx256Dwords => ReverseDwords256Reverses(x);
    case Sse128Dwords => ReverseDwords128Reverses(x);
    case Avx256Words => ReverseWords256Reverses(x);
    case Sse128Words => ReverseWords128Reverses(x);
    case Avx256Bytes => ReverseBytes256Reverses(x);
    case Sse128Bytes => ReverseBytes128Reverses(x);
    case _ => BswapRegisterReverses(t, x);
  }

  /** An unaligned load of count elements starting at element pos: the
      register holds their bytes, concatenated. */
  function Load(buf: seq<Element>, size: nat, pos: nat, count: nat): (x: seq<bv8>)
    requires Uniform(buf, size) && pos + count <= |buf|
    ensures |x| == size * count && x == Flatten(buf[pos .. pos + count])
  {
    FlattenLength(buf[pos .. pos + count], size);
    Flatten(buf[pos .. pos + count])
  }

  /** An unaligned store of a register holding count elements at element pos. */
  function StoreReg(buf: seq<Element>, size: nat, pos: nat, count: nat, x: seq<bv8>): (r: seq<Element>)
    requires size > 0 && Uniform(buf, size) && pos + count <= |buf| && |x| == size * count
    ensures |r| == |buf| && Uniform(r, size)
    ensures |Split(x, size)| == count && r == Store(buf, pos, Split(x, size))
  {
    SplitIndex(x, size, count);
    Store(buf, pos, Split(x, size))
  }

  /** One register permutation of tier t. */
  method Permute(t: Tier, x: seq<bv8>) returns (y: seq<bv8>)
    requires |x| == t.RegisterBytes()
    ensures |y| == |x| && ElementsReversed(x, y, t.ElementSize())
  {
    RegisterOpReverses(t, x);
    y := RegisterOp(t, x);
  }

  /** A register that holds a loaded run with its elements reversed, cut
      back into elements, is the run reversed. */
  lemma PermutedRunReversed(run: seq<Element>, y: seq<bv8>, size: nat)
    requires size == 1 || size == 2 || size == 4 || size == 8
    requires Uniform(run, size) && ElementsReversed(Flatten(run), y, size)
    ensures Split(y, size) == Reverse(run)
  {
    FlattenLength(run, size);
    ElementsReversedSplit(Flatten(run), y, size, |run|);
    SplitFlatten(run, size);
  }

  /** Storing registers that hold the reversed end chunks, each at the
      opposite end, is the exchange. */
  lemma StoredExchange(buf: seq<Element>, size: nat, start: nat, end: nat, q: nat, a: seq<bv8>, b: seq<bv8>)
    requires size > 0 && Uniform(buf, size)
    requires end < |buf| && start + 2 * q <= end + 1
    requires |a| == size * q && |b| == size * q
    requires Split(a, size) == Reverse(buf[start .. start + q])
    requires Split(b, size) == Reverse(buf[end + 1 - q .. end + 1])
    ensures StoreReg(StoreReg(buf, size, start, q, b), size, end + 1 - q, q, a) == Exchange(buf, start, end, q)
  {
  }

  /** A one-register round on the span [start, end]: load Quantum
      elements from each end, permute both registers, store each at the
      opposite end. Its precondition is what the loop guard
      (End-Start+1)/2 >= Quantum guarantees: two disjoint chunks inside the
      span. The round is exactly the exchange of the reversed end chunks. */
  method SingleRound(t: Tier, buf: seq<Element>, start: nat, end: nat) returns (r: seq<Element>)
    requires t != Avx512Qwords && Uniform(buf, t.ElementSize())
    requires end < |buf| && start + 2 * t.Quantum() <= end + 1
    ensures Uniform(r, t.ElementSize())
    ensures r == Exchange(buf, start, end, t.Quantum())
  {
    var size, q := t.ElementSize(), t.Quantum();
    var a := Load(buf, size, start, q);
    var b := Load(buf, size, end + 1 - q, q);
    var a' := Permute(t, a);
    var b' := Permute(t, b);
    PermutedRunReversed(buf[start .. start + q], a', size);
    PermutedRunReversed(buf[end + 1 - q .. end + 1], b', size);
    r := StoreReg(buf, size, start, q, b');
    r := StoreReg(r, size, end + 1 - q, q, a');
    StoredExchange(buf, size, start, end, q, a', b');
  }

  /** The 512-bit round: two 256-bit registers from each end, each
      permuted; the register from the very end goes to the very start and
      its neighbour next to it, and likewise at the other end. The round is
      the exchange of the reversed eight-element end chunks. */
  method PairRound(buf: seq<Element>, start: nat, end: nat) returns (r: seq<Element>)
    requires Uniform(buf, 8) && end < |buf| && start + 16 <= end + 1
    ensures Uniform(r, 8)
    ensures r == Exchange(buf, start, end, 8)
  {
    var t := Avx512Qwords;
    var a1 := Load(buf, 8, start, 4);
    var a2 := Load(buf, 8, start + 4, 4);
    var b1 := Load(buf, 8, end + 1 - 4, 4);
    var b2 := Load(buf, 8, end + 1 - 8, 4);
    var a1' := Permute(t, a1);
    var a2' := Permute(t, a2);
    var b1' := Permute(t, b1);
    var b2' := Permute(t, b2);
    PermutedRunReversed(buf[start .. start + 4], a1', 8);
    PermutedRunReversed(buf[start + 4 .. start + 8], a2', 8);
    PermutedRunReversed(buf[end + 1 - 4 .. end + 1], b1', 8);
    PermutedRunReversed(buf[end + 1 - 8 .. end + 1 - 4], b2', 8);
    r := StoreReg(buf, 8, start, 4, b1');
    r := StoreReg(r, 8, start + 4, 4, b2');
    r := StoreReg(r, 8, end + 1 - 4, 4, a1');
    r := StoreReg(r, 8, end + 1 - 8, 4, a2');
    QuarterStoresExchange(buf, start, end);
  }

  // ---------------------------------------------------------------------
  // std::size_t arithmetic.

  const SizeMax: nat := 0xFFFF_FFFF_FFFF_FFFF

  /** End - Start + 1 evaluated in std::size_t: modulo 2^64. */
  function SpanCount(start: nat, end: nat): (n: nat)
    requires start <= SizeMax && end <= SizeMax
    ensures n <= SizeMax
    ensures start <= end + 1 && end < SizeMax ==> n == end + 1 - start
  {
    (end - start + 1) % (SizeMax + 1)
  }

  // ---------------------------------------------------------------------
  // The tier loops and the routine.

  /** One round of tier t, as a step of the tier loop: it narrows the span
      by one quantum at each end and keeps the span invariant. */
  method RoundStep(ghost a: seq<Element>, buf: seq<Element>, lo: nat, hi: nat,
                   start: nat, end: nat, t: Tier)
    returns (buf': seq<Element>)
    requires Uniform(buf, t.ElementSize())
    requires Settled(a, buf, lo, hi, start) && end == Mirror(lo, hi, start)
    requires start + 2 * t.Quantum() <= end + 1
    ensures Uniform(buf', t.ElementSize())
    ensures Settled(a, buf', lo, hi, start + t.Quantum())
  {
    if t == Avx512Qwords {
      buf' := PairRound(buf, start, end);
    } else {
      buf' := SingleRound(t, buf, start, end);
    }
    ExchangeAdvances(a, buf, lo, hi, start, end, t.Quantum());
  }

  /** One tier loop: rounds of tier t while the span holds two quanta.
      a is the array the whole routine started from and [lo, hi] the
      segment it reverses; the loop keeps the span invariant and leaves a
      span too short for another round of this tier. */
  method TierLoop(ghost a: seq<Element>, buf: seq<Element>, lo: nat, hi: nat,
                  start: nat, end: nat, t: Tier)
    returns (buf': seq<Element>, start': nat, end': nat)
    requires Uniform(buf, t.ElementSize()) && |buf| <= SizeMax
    requires Settled(a, buf, lo, hi, start) && end == Mirror(lo, hi, start)
    ensures Uniform(buf', t.ElementSize())
    ensures Settled(a, buf', lo, hi, start') && end' == Mirror(lo, hi, start')
    ensures start <= start'
    ensures (end' + 1 - start') / 2 < t.Quantum()
  {
    buf', start', end' := buf, start, end;
    while SpanCount(start', end') / 2 >= t.Quantum()
      invariant Uniform(buf', t.ElementSize())
      invariant Settled(a, buf', lo, hi, start') && end' == Mirror(lo, hi, start')
      invariant start <= start'
      decreases end' + 1 - start'
    {
      var q := t.Quantum();
      buf' := RoundStep(a, buf', lo, hi, start', end', t);
      start', end' := start' + q, end' - q;
    }
  }

  /** The tier cascade for 8-byte elements. */
  method QwordTiers(ghost a: seq<Element>, buf: seq<Element>, lo: nat, hi: nat, start: nat, end: nat)
    returns (buf': seq<Element>, start': nat, end': nat)
    requires Uniform(buf, 8) && |buf| <= SizeMax
    requires Settled(a, buf, lo, hi, start) && end == Mirror(lo, hi, start)
    ensures Settled(a, buf', lo, hi, start') && end' == Mirror(lo, hi, start')
    ensures (end' + 1 - start') / 2 < 2
  {
    buf', start', end' := TierLoop(a, buf, lo, hi, start, end, Avx512Qwords);
    buf', start', end' := TierLoop(a, buf', lo, hi, start', end', Avx256Qwords);
    buf', start', end' := TierLoop(a, buf', lo, hi, start', end', Sse128Qwords);
  }

  /** The tier cascade for 4-byte elements. */
  method DwordTiers(ghost a: seq<Element>, buf: seq<Element>, lo: nat, hi: nat, start: nat, end: nat)
    returns (buf': seq<Element>, start': nat, end': nat)
    requires Uniform(buf, 4) && |buf| <= SizeMax
    requires Settled(a, buf, lo, hi, start) && end == Mirror(lo, hi, start)
    ensures Settled(a, buf', lo, hi, start') && end' == Mirror(lo, hi, start')
    ensures (end' + 1 - start') / 2 < 4
  {
    buf', start', end' := TierLoop(a, buf, lo, hi, start, end, Avx256Dwords);
    buf', start', end' := TierLoop(a, buf', lo, hi, start', end', Sse128Dwords);
  }

  /** The tier cascade for 2-byte elements. */
  method WordTiers(ghost a: seq<Element>, buf: seq<Element>, lo: nat, hi: nat, start: nat, end: nat)
    returns (buf': seq<Element>, start': nat, end': nat)
    requires Uniform(buf, 2) && |buf| <= SizeMax
    requires Settled(a, buf, lo, hi, start) && end == Mirror(lo, hi, start)
    ensures Settled(a, buf', lo, hi, start') && end' == Mirror(lo, hi, start')
    ensures (end' + 1 - start') / 2 < 8
  {
    buf', start', end' := TierLoop(a, buf, lo, hi, start, end, Avx256Words);
    buf', start', end' := TierLoop(a, buf', lo, hi, start', end', Sse128Words);
  }

  /** The tier cascade for 1-byte elements: two vector tiers, then the
      64-, 32- and 16-bit byte swaps. */
  method ByteTiers(ghost a: seq<Element>, buf: seq<Element>, lo: nat, hi: nat, start: nat, end: nat)
    returns (buf': seq<Element>, start': nat, end': nat)
    requires Uniform(buf, 1) && |buf| <= SizeMax
    requires Settled(a, buf, lo, hi, start) && end == Mirror(lo, hi, start)
    ensures Settled(a, buf', lo, hi, start') && end' == Mirror(lo, hi, start')
    ensures (end' + 1 - start') / 2 < 2
  {
    buf', start', end' := TierLoop(a, buf, lo, hi, start, end, Avx256Bytes);
    buf', start', end' := TierLoop(a, buf', lo, hi, start', end', Sse128Bytes);
    buf', start', end' := TierLoop(a, buf', lo, hi, start', end', Bswap64Bytes);
    buf', start', end' := TierLoop(a, buf', lo, hi, start', end', Bswap32Bytes);
    buf', start', end' := TierLoop(a, buf', lo, hi, start', end', Bswap16Bytes);
  }

  /** The middle cases: std::swap of the span's ends until they meet. It
      performs exactly half the span's length of swaps and completes the
      reversal. */
  method SerialTail<T>(ghost a: seq<T>, buf: seq<T>, lo: nat, hi: nat, start: nat, end: nat)
    returns (r: seq<T>, swaps: nat)
    requires Settled(a, buf, lo, hi, start) && end == Mirror(lo, hi, start)
    ensures SegmentReversed(a, r, lo, hi)
    ensures swaps == (end + 1 - start) / 2
  {
    var b: seq<T>, s: nat, e: nat := buf, start, end;
    swaps := 0;
    if s < e {
      while s < e
        invariant Settled(a, b, lo, hi, s) && e == Mirror(lo, hi, s)
        invariant swaps + (e + 1 - s) / 2 == (end + 1 - start) / 2
        decreases e + 1 - s
      {
        b := SwapStep(a, b, lo, hi, s, e);
        s, e, swaps := s + 1, e - 1, swaps + 1;
      }
    }
    SettledFinally(a, b, lo, hi, s);
    r := b;
  }

  /** qreverse_imp: reverse the inclusive span [lo, hi] of values, whose
      elements are size bytes each. The switch on the element size picks
      the tier cascade; sizes other than 1, 2, 4 and 8 (16 included) go
      straight to the serial loop. serialSwaps counts that loop's
      std::swap calls: after a cascade fewer than one quantum of the last
      tier is left at each end. */
  method QReverseImp(values: seq<Element>, size: nat, lo: nat, hi: nat)
    returns (r: seq<Element>, serialSwaps: nat)
    requires Uniform(values, size) && |values| <= SizeMax
    requires lo <= hi + 1 && hi < |values|
    ensures Uniform(r, size)
    ensures SegmentReversed(values, r, lo, hi)
    ensures size == 8 || size == 1 ==> serialSwaps <= 1
    ensures size == 4 ==> serialSwaps <= 3
    ensures size == 2 ==> serialSwaps <= 7
    ensures size != 1 && size != 2 && size != 4 && size != 8 ==> serialSwaps == (hi + 1 - lo) / 2
  {
    SettledInitially(values, lo, hi);
    var buf, start, end := values, lo, hi;
    if size == 16 {
    } else if size == 8 {
      buf, start, end := QwordTiers(values, buf, lo, hi, start, end);
    } else if size == 4 {
      buf, start, end := DwordTiers(values, buf, lo, hi, start, end);
    } else if size == 2 {
      buf, start, end := WordTiers(values, buf, lo, hi, start, end);
    } else if size == 1 {
      buf, start, end := ByteTiers(values, buf, lo, hi, start, end);
    }
    r, serialSwaps := SerialTail(values, buf, lo, hi, start, end);
    ReversedUniform(values, r, lo, hi, size);
  }

  // ---------------------------------------------------------------------
  // qreverse: the whole array.

  /** The End that qreverse passes for an array of size elements, computed
      as Size - 1 in std::size_t. */
  function LastIndex(size: nat): (end: nat)
    requires size <= SizeMax
    ensures end <= SizeMax
  {
    (size - 1) % (SizeMax + 1)
  }

  /** As written, qreverse on an empty array does not return it unchanged:
      End wraps to SIZE_MAX, so (End - Start + 1) wraps to 0 and no tier
      loop runs, but Start < End holds, so the middle loop's first std::swap
      reads and writes Values[SIZE_MAX], outside the empty array. */
  lemma EmptyArrayOverrun(values: seq<Element>)
    requires |values| == 0
    ensures LastIndex(|values|) == SizeMax
    ensures forall t: Tier :: SpanCount(0, LastIndex(|values|)) / 2 < t.Quantum()
    ensures 0 < LastIndex(|values|) && |values| <= LastIndex(|values|)
  {
  }

  /** For a non-empty array the last index is Size - 1, in range. */
  lemma LastIndexInRange(size: nat)
    requires 0 < size <= SizeMax
    ensures LastIndex(size) == size - 1
  {
  }

  /** qreverse: reverse the whole array. An empty array is returned as it
      is rather than handed to qreverse_imp with a wrapped End. */
  method QReverse(values: seq<Element>, size: nat) returns (r: seq<Element>)
    requires Uniform(values, size) && |values| <= SizeMax
    ensures Uniform(r, size)
    ensures r == Reverse(values)
  {
    if |values| == 0 {
      return values;
    }
    LastIndexInRange(|values|);
    var swaps;
    r, swaps := QReverseImp(values, size, 0, LastIndex(|values|));
    WholeSegment(values, r);
  }
}
