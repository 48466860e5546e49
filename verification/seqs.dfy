/** Sequence vocabulary shared by both versions of the reversal routine:
    the reference reversal, in-place stores into a buffer, and the
    conversion between a run of elements and the raw bytes a vector
    register holds. */
module Seqs {

  /** The reference reversal: position k receives the element at |s|-1-k. */
  function Reverse<T>(s: seq<T>): seq<T>
  {
    seq(|s|, k requires 0 <= k < |s| => s[|s| - 1 - k])
  }

  /** Reversing twice gives back the original sequence. */
  lemma ReverseInvolution<T>(s: seq<T>)
    ensures Reverse(Reverse(s)) == s
  {
  }

  /** Overwrite |data| consecutive positions of s, starting at pos. */
  function Store<T>(s: seq<T>, pos: nat, data: seq<T>): (r: seq<T>)
    requires pos + |data| <= |s|
    ensures |r| == |s|
    ensures forall k :: 0 <= k < |s| && !(pos <= k < pos + |data|) ==> r[k] == s[k]
    ensures forall k :: pos <= k < pos + |data| ==> r[k] == data[k - pos]
  {
    seq(|s|, k requires 0 <= k < |s| => if pos <= k < pos + |data| then data[k - pos] else s[k])
  }

  /** Every element of c is exactly w long. */
  ghost predicate Uniform<T>(c: seq<seq<T>>, w: nat)
  {
    forall k :: 0 <= k < |c| ==> |c[k]| == w
  }

  /** The concatenation of a run of elements: what a vector load of the run
      places in a register. */
  function Flatten<T>(c: seq<seq<T>>): seq<T>
  {
    if |c| == 0 then [] else c[0] + Flatten(c[1..])
  }

  /** Cut x into consecutive pieces of w items: how a register's bytes land
      in memory as elements of w bytes. A trailing piece shorter than w is
      dropped; every use below has |x| a multiple of w. */
  function Split<T>(x: seq<T>, w: nat): seq<seq<T>>
    requires w > 0
    decreases |x|
  {
    if |x| < w then [] else [x[..w]] + Split(x[w..], w)
  }

  lemma {:induction false} FlattenLength<T>(c: seq<seq<T>>, w: nat)
    requires Uniform(c, w)
    ensures |Flatten(c)| == w * |c|
  {
    if |c| > 0 {
      FlattenLength(c[1..], w);
    }
  }

  /** Splitting the concatenation of a uniform run gives the run back. */
  lemma {:induction false} SplitFlatten<T>(c: seq<seq<T>>, w: nat)
    requires w > 0 && Uniform(c, w)
    ensures Split(Flatten(c), w) == c
  {
    if |c| > 0 {
      FlattenLength(c[1..], w);
      var f := Flatten(c);
      assert f[..w] == c[0];
      assert f[w..] == Flatten(c[1..]);
      SplitFlatten(c[1..], w);
      assert c == [c[0]] + c[1..];
    }
  }

  /** For k < n, the k-th block of w items ends within the first w*n items. */
  lemma {:induction false} BlockInBounds(w: nat, k: nat, n: nat)
    requires k < n
    ensures w * k + w <= w * n
    decreases n - k
  {
    if k + 1 < n {
      BlockInBounds(w, k + 1, n);
      assert w * (k + 1) == w * k + w;
    }
  }

  /** The pieces of a w*n-item sequence: n of them, piece k covering
      positions [w*k, w*k+w). */
  lemma {:induction false} SplitIndex<T>(x: seq<T>, w: nat, n: nat)
    requires w > 0 && |x| == w * n
    ensures |Split(x, w)| == n
    ensures Uniform(Split(x, w), w)
    ensures forall k :: 0 <= k < n ==>
      w * k + w <= |x| && Split(x, w)[k] == x[w * k .. w * k + w]
  {
    if n > 0 {
      var rest := x[w..];
      assert w * n == w * (n - 1) + w;
      SplitIndex(rest, w, n - 1);
      assert Split(x, w) == [x[..w]] + Split(rest, w);
      forall k | 0 <= k < n
        ensures w * k + w <= |x| && Split(x, w)[k] == x[w * k .. w * k + w]
      {
        BlockInBounds(w, k, n);
        if k > 0 {
          ShiftedPiece(x, w, k);
        }
      }
    }
  }

  /** Piece k-1 of x[w..] is piece k of x. */
  lemma ShiftedPiece<T>(x: seq<T>, w: nat, k: nat)
    requires 0 < k && w * k + w <= |x|
    ensures w <= |x| && w * (k - 1) + w <= |x| - w
    ensures x[w..][w * (k - 1) .. w * (k - 1) + w] == x[w * k .. w * k + w]
  {
    var p := w * (k - 1);
    assert w * k == p + w;
    var r := x[w..];
    var shifted, piece := r[p .. p + w], x[p + w .. p + w + w];
    assert |shifted| == w == |piece|;
    forall i | 0 <= i < w
      ensures shifted[i] == piece[i]
    {
      assert shifted[i] == r[p + i] == x[w + p + i];
    }
  }
}
