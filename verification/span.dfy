/** The shrinking span of an in-place reversal. The segment [lo, hi] of the
    original sequence a is being reversed; position k of the segment belongs
    at its mirror lo + hi - k. While the routine runs, the span
    [start, lo + hi - start] is what remains: everything in the segment
    outside the span already holds its mirror's original value, the span
    itself is untouched, and nothing outside the segment is ever written. */
module Span {
  import opened Seqs

  /** The mirror of position k within the segment [lo, hi]. */
  function Mirror(lo: int, hi: int, k: int): int
  {
    lo + hi - k
  }

  /** b is a with the outer start-lo elements at each end of [lo, hi]
      exchanged, and nothing else changed. */
  ghost predicate Settled<T>(a: seq<T>, b: seq<T>, lo: nat, hi: int, start: nat)
  {
    |b| == |a| && hi < |a| && lo <= start && 2 * start <= lo + hi + 1 &&
    forall k {:trigger b[k]} :: 0 <= k < |a| ==>
      b[k] == (if lo <= k < start || Mirror(lo, hi, start) < k <= hi
               then a[Mirror(lo, hi, k)] else a[k])
  }

  /** b is a with the segment [lo, hi] reversed and nothing else changed. */
  ghost predicate SegmentReversed<T>(a: seq<T>, b: seq<T>, lo: nat, hi: int)
  {
    |b| == |a| && hi < |a| &&
    forall k {:trigger b[k]} :: 0 <= k < |a| ==>
      b[k] == (if lo <= k <= hi then a[Mirror(lo, hi, k)] else a[k])
  }

  /** Before any work the span is the whole segment. */
  lemma SettledInitially<T>(a: seq<T>, lo: nat, hi: int)
    requires lo <= hi + 1 && hi < |a|
    ensures Settled(a, a, lo, hi, lo)
  {
  }

  /** Once the span holds at most one element the segment is reversed:
      a lone middle element is its own mirror. */
  lemma SettledFinally<T>(a: seq<T>, b: seq<T>, lo: nat, hi: int, start: nat)
    requires Settled(a, b, lo, hi, start)
    requires Mirror(lo, hi, start) <= start
    ensures SegmentReversed(a, b, lo, hi)
  {
    forall k | 0 <= k < |a|
      ensures b[k] == (if lo <= k <= hi then a[Mirror(lo, hi, k)] else a[k])
    {
      if lo <= k <= hi && !(lo <= k < start || Mirror(lo, hi, start) < k <= hi) {
        assert k == start && Mirror(lo, hi, k) == k;
      }
    }
  }

  /** Reversing a segment only moves elements, so a property every
      element of a has (here: its width) every element of b has. */
  lemma ReversedUniform<T>(a: seq<seq<T>>, b: seq<seq<T>>, lo: nat, hi: int, w: nat)
    requires SegmentReversed(a, b, lo, hi) && Uniform(a, w)
    ensures Uniform(b, w)
  {
    forall k | 0 <= k < |b|
      ensures |b[k]| == w
    {
      if lo <= k <= hi {
        assert b[k] == a[Mirror(lo, hi, k)];
      }
    }
  }

  /** Reversing the whole of a is reversing the segment [0, |a|-1]. */
  lemma WholeSegment<T>(a: seq<T>, b: seq<T>)
    requires SegmentReversed(a, b, 0, |a| - 1)
    ensures b == Reverse(a)
  {
  }

  /** One accelerated round on the span [start, end]: the low chunk
      [start, start+q) receives the reversal of the high chunk
      (end-q, end], and the high chunk the reversal of the low one. */
  function Exchange<T>(b: seq<T>, start: nat, end: nat, q: nat): seq<T>
    requires start + 2 * q <= end + 1 && end < |b|
  {
    var low := b[start .. start + q];
    var high := b[end + 1 - q .. end + 1];
    Store(Store(b, start, Reverse(high)), end + 1 - q, Reverse(low))
  }

  /** Storing the reversed chunks, high chunk low and low chunk high, is
      the exchange. */
  lemma StoresExchange<T>(b: seq<T>, start: nat, end: nat, q: nat, lower: seq<T>, upper: seq<T>)
    requires start + 2 * q <= end + 1 && end < |b|
    requires lower == Reverse(b[start .. start + q])
    requires upper == Reverse(b[end + 1 - q .. end + 1])
    ensures Store(Store(b, start, upper), end + 1 - q, lower) == Exchange(b, start, end, q)
  {
  }

  /** Inside either chunk an exchange puts the element from the mirror
      position within the span; elsewhere it changes nothing. */
  lemma ExchangeAt<T>(b: seq<T>, start: nat, end: nat, q: nat, k: nat)
    requires start + 2 * q <= end + 1 && end < |b| && k < |b|
    ensures Exchange(b, start, end, q)[k] ==
      if start <= k < start + q || end + 1 - q <= k <= end then b[start + end - k] else b[k]
  {
    var low, high := b[start .. start + q], b[end + 1 - q .. end + 1];
    var s1 := Store(b, start, Reverse(high));
    if start <= k < start + q {
      assert s1[start + (k - start)] == Reverse(high)[k - start];
    } else if end + 1 - q <= k <= end {
      assert Reverse(low)[k - (end + 1 - q)] == low[start + end - k - start];
    }
  }

  /** An exchange of q elements from each end of the span narrows the span
      by q at each end and keeps the invariant. */
  lemma ExchangeAdvances<T>(a: seq<T>, b: seq<T>, lo: nat, hi: int, start: nat, end: nat, q: nat)
    requires Settled(a, b, lo, hi, start)
    requires end == Mirror(lo, hi, start) && start + 2 * q <= end + 1
    ensures Settled(a, Exchange(b, start, end, q), lo, hi, start + q)
  {
    var r := Exchange(b, start, end, q);
    forall k | 0 <= k < |a|
      ensures r[k] == (if lo <= k < start + q || Mirror(lo, hi, start + q) < k <= hi
                       then a[Mirror(lo, hi, k)] else a[k])
    {
      ExchangeAt(b, start, end, q, k);
      if start <= k < start + q || end + 1 - q <= k <= end {
        assert r[k] == b[Mirror(lo, hi, k)];
      }
    }
  }

  /** Storing the two reversed halves of each end chunk separately, in the
      order the 512-bit round does, is the same exchange. */
  lemma QuarterStoresExchange<T>(b: seq<T>, start: nat, end: nat)
    requires start + 16 <= end + 1 && end < |b|
    ensures
      var lo1, lo2 := b[start .. start + 4], b[start + 4 .. start + 8];
      var hi1, hi2 := b[end + 1 - 8 .. end + 1 - 4], b[end + 1 - 4 .. end + 1];
      var s1 := Store(b, start, Reverse(hi2));
      var s2 := Store(s1, start + 4, Reverse(hi1));
      var s3 := Store(s2, end + 1 - 4, Reverse(lo1));
      Store(s3, end + 1 - 8, Reverse(lo2)) == Exchange(b, start, end, 8)
  {
    var lo1, lo2 := b[start .. start + 4], b[start + 4 .. start + 8];
    var hi1, hi2 := b[end + 1 - 8 .. end + 1 - 4], b[end + 1 - 4 .. end + 1];
    var s1 := Store(b, start, Reverse(hi2));
    var s2 := Store(s1, start + 4, Reverse(hi1));
    var s3 := Store(s2, end + 1 - 4, Reverse(lo1));
    var r := Store(s3, end + 1 - 8, Reverse(lo2));
    var x := Exchange(b, start, end, 8);
    var low, high := b[start .. start + 8], b[end + 1 - 8 .. end + 1];
    forall k | 0 <= k < |b|
      ensures r[k] == x[k]
    {
      if start <= k < start + 8 {
        assert x[k] == Reverse(high)[k - start] == high[7 - (k - start)];
      } else if end + 1 - 8 <= k <= end {
        assert x[k] == Reverse(low)[k - (end + 1 - 8)] == low[7 - (k - (end + 1 - 8))];
      }
    }
  }

  /** Storing the reversed high chunk at start and the reversed low chunk
      at the top of the span advances the span by q. */
  method StoreChunks<T>(ghost a: seq<T>, b: seq<T>, lo: nat, hi: int, start: nat, end: nat,
                         q: nat, lower: seq<T>, upper: seq<T>)
    returns (b': seq<T>)
    requires Settled(a, b, lo, hi, start)
    requires end == Mirror(lo, hi, start) && start + 2 * q <= end + 1
    requires lower == Reverse(b[start .. start + q])
    requires upper == Reverse(b[end + 1 - q .. end + 1])
    ensures Settled(a, b', lo, hi, start + q)
  {
    StoresExchange(b, start, end, q, lower, upper);
    ExchangeAdvances(a, b, lo, hi, start, end, q);
    b' := Store(Store(b, start, upper), end + 1 - q, lower);
  }

  /** The serial tier's std::swap of the two span ends. */
  function SwapEnds<T>(b: seq<T>, start: nat, end: nat): seq<T>
    requires start < end < |b|
  {
    b[start := b[end]][end := b[start]]
  }

  /** A serial swap is the one-element exchange. */
  lemma SwapIsExchange<T>(b: seq<T>, start: nat, end: nat)
    requires start < end < |b|
    ensures SwapEnds(b, start, end) == Exchange(b, start, end, 1)
  {
    var r := Exchange(b, start, end, 1);
    assert r[start] == b[end] && r[end] == b[start];
  }

  /** One serial std::swap of the span's ends, as a step of a swap loop:
      the span narrows by one at each end and keeps the invariant. */
  method SwapStep<T>(ghost a: seq<T>, buf: seq<T>, lo: nat, hi: int, start: nat, end: nat)
    returns (buf': seq<T>)
    requires Settled(a, buf, lo, hi, start) && end == Mirror(lo, hi, start)
    requires start < end
    ensures Settled(a, buf', lo, hi, start + 1)
  {
    SwapIsExchange(buf, start, end);
    ExchangeAdvances(a, buf, lo, hi, start, end, 1);
    buf' := SwapEnds(buf, start, end);
  }
}
