/** The portable byte-swap primitives Swap16, Swap32 and Swap64, written
    with the same masks and shifts as the source, and the little-endian
    loads and stores through which the scalar BSWAP tiers read and write
    a run of bytes as one unsigned integer. */
module ByteSwap {
  import opened Seqs

  function Swap64(x: bv64): bv64
  {
    ((x & 0x00000000000000FF) << 56) |
    ((x & 0x000000000000FF00) << 40) |
    ((x & 0x0000000000FF0000) << 24) |
    ((x & 0x00000000FF000000) << 8) |
    ((x & 0x000000FF00000000) >> 8) |
    ((x & 0x0000FF0000000000) >> 24) |
    ((x & 0x00FF000000000000) >> 40) |
    ((x & 0xFF00000000000000) >> 56)
  }

  function Swap32(x: bv32): bv32
  {
    ((x & 0x000000FF) << 24) |
    ((x & 0x0000FF00) << 8) |
    ((x & 0x00FF0000) >> 8) |
    ((x & 0xFF000000) >> 24)
  }

  function Swap16(x: bv16): bv16
  {
    ((x & 0x00FF) << 8) |
    ((x & 0xFF00) >> 8)
  }

  /** Byte k (k = 0 is the least significant) of a 64-, 32- or 16-bit value. */
  function Byte64(x: bv64, k: nat): bv8
    requires k < 8
  {
    match k
    case 0 => (x & 0xFF) as bv8
    case 1 => ((x >> 8) & 0xFF) as bv8
    case 2 => ((x >> 16) & 0xFF) as bv8
    case 3 => ((x >> 24) & 0xFF) as bv8
    case 4 => ((x >> 32) & 0xFF) as bv8
    case 5 => ((x >> 40) & 0xFF) as bv8
    case 6 => ((x >> 48) & 0xFF) as bv8
    case _ => ((x >> 56) & 0xFF) as bv8
  }

  function Byte32(x: bv32, k: nat): bv8
    requires k < 4
  {
    match k
    case 0 => (x & 0xFF) as bv8
    case 1 => ((x >> 8) & 0xFF) as bv8
    case 2 => ((x >> 16) & 0xFF) as bv8
    case _ => ((x >> 24) & 0xFF) as bv8
  }

  function Byte16(x: bv16, k: nat): bv8
    requires k < 2
  {
    if k == 0 then (x & 0xFF) as bv8 else ((x >> 8) & 0xFF) as bv8
  }

  /** Swap64 moves byte 7-k of its argument to byte k. */
  lemma Swap64Bytes(x: bv64)
    ensures forall k :: 0 <= k < 8 ==> Byte64(Swap64(x), k) == Byte64(x, 7 - k)
  {
    forall k | 0 <= k < 8
      ensures Byte64(Swap64(x), k) == Byte64(x, 7 - k)
    {
      if k == 0 {
      } else if k == 1 {
      } else if k == 2 {
      } else if k == 3 {
      } else if k == 4 {
      } else if k == 5 {
      } else if k == 6 {
      } else {
      }
    }
  }

  /** Swap32 moves byte 3-k of its argument to byte k. */
  lemma Swap32Bytes(x: bv32)
    ensures forall k :: 0 <= k < 4 ==> Byte32(Swap32(x), k) == Byte32(x, 3 - k)
  {
    forall k | 0 <= k < 4
      ensures Byte32(Swap32(x), k) == Byte32(x, 3 - k)
    {
      if k == 0 {
      } else if k == 1 {
      } else if k == 2 {
      } else {
      }
    }
  }

  /** Swap16 exchanges the two bytes of its argument. */
  lemma Swap16Bytes(x: bv16)
    ensures Byte16(Swap16(x), 0) == Byte16(x, 1)
    ensures Byte16(Swap16(x), 1) == Byte16(x, 0)
  {
  }

  /** Each swap undoes itself. */
  lemma SwapInvolutions(x64: bv64, x32: bv32, x16: bv16)
    ensures Swap64(Swap64(x64)) == x64
    ensures Swap32(Swap32(x32)) == x32
    ensures Swap16(Swap16(x16)) == x16
  {
  }

  /** A little-endian load of 8, 4 or 2 bytes: the value an x86
      `*reinterpret_cast<std::uint64_t*>(p)` read produces. */
  function Load64(b: seq<bv8>): bv64
    requires |b| == 8
  {
    (b[0] as bv64) | ((b[1] as bv64) << 8) | ((b[2] as bv64) << 16) | ((b[3] as bv64) << 24) |
    ((b[4] as bv64) << 32) | ((b[5] as bv64) << 40) | ((b[6] as bv64) << 48) | ((b[7] as bv64) << 56)
  }

  function Load32(b: seq<bv8>): bv32
    requires |b| == 4
  {
    (b[0] as bv32) | ((b[1] as bv32) << 8) | ((b[2] as bv32) << 16) | ((b[3] as bv32) << 24)
  }

  function Load16(b: seq<bv8>): bv16
    requires |b| == 2
  {
    (b[0] as bv16) | ((b[1] as bv16) << 8)
  }

  /** The matching little-endian stores. */
  function Store64(x: bv64): (r: seq<bv8>)
    ensures |r| == 8
  {
    [Byte64(x, 0), Byte64(x, 1), Byte64(x, 2), Byte64(x, 3),
     Byte64(x, 4), Byte64(x, 5), Byte64(x, 6), Byte64(x, 7)]
  }

  function Store32(x: bv32): (r: seq<bv8>)
    ensures |r| == 4
  {
    [Byte32(x, 0), Byte32(x, 1), Byte32(x, 2), Byte32(x, 3)]
  }

  function Store16(x: bv16): (r: seq<bv8>)
    ensures |r| == 2
  {
    [Byte16(x, 0), Byte16(x, 1)]
  }

  /** Byte k of a loaded value is the k-th byte of memory. */
  lemma Load64Bytes(b: seq<bv8>)
    requires |b| == 8
    ensures forall k :: 0 <= k < 8 ==> Byte64(Load64(b), k) == b[k]
  {
    var x := Load64(b);
    forall k | 0 <= k < 8
      ensures Byte64(x, k) == b[k]
    {
      if k == 0 {
      } else if k == 1 {
      } else if k == 2 {
      } else if k == 3 {
      } else if k == 4 {
      } else if k == 5 {
      } else if k == 6 {
      } else {
      }
    }
  }

  lemma Load32Bytes(b: seq<bv8>)
    requires |b| == 4
    ensures forall k :: 0 <= k < 4 ==> Byte32(Load32(b), k) == b[k]
  {
    var x := Load32(b);
    forall k | 0 <= k < 4
      ensures Byte32(x, k) == b[k]
    {
      if k == 0 {
      } else if k == 1 {
      } else if k == 2 {
      } else {
      }
    }
  }

  lemma Load16Bytes(b: seq<bv8>)
    requires |b| == 2
    ensures Byte16(Load16(b), 0) == b[0] && Byte16(Load16(b), 1) == b[1]
  {
  }

  /** Store after load gives the bytes back: memory order survives the
      round trip through an integer register. */
  lemma LoadStoreRoundTrips(b8: seq<bv8>, b4: seq<bv8>, b2: seq<bv8>)
    requires |b8| == 8 && |b4| == 4 && |b2| == 2
    ensures Store64(Load64(b8)) == b8
    ensures Store32(Load32(b4)) == b4
    ensures Store16(Load16(b2)) == b2
  {
    Load64Bytes(b8);
    Load32Bytes(b4);
    Load16Bytes(b2);
  }

  /** The BSWAP tier transforms: load, swap, store. */
  function BswapChunk64(b: seq<bv8>): seq<bv8>
    requires |b| == 8
  {
    Store64(Swap64(Load64(b)))
  }

  function BswapChunk32(b: seq<bv8>): seq<bv8>
    requires |b| == 4
  {
    Store32(Swap32(Load32(b)))
  }

  function BswapChunk16(b: seq<bv8>): seq<bv8>
    requires |b| == 2
  {
    Store16(Swap16(Load16(b)))
  }

  /** Loading a run, byte-swapping it and storing it back reverses the run:
      the whole of a BSWAP tier's effect on one chunk, for each width. */
  lemma Bswap64Reverses(b: seq<bv8>)
    requires |b| == 8
    ensures BswapChunk64(b) == Reverse(b)
  {
    Load64Bytes(b);
    Swap64Bytes(Load64(b));
    assert BswapChunk64(b) == Reverse(b);
  }

  lemma Bswap32Reverses(b: seq<bv8>)
    requires |b| == 4
    ensures BswapChunk32(b) == Reverse(b)
  {
    Load32Bytes(b);
    Swap32Bytes(Load32(b));
    assert BswapChunk32(b) == Reverse(b);
  }

  lemma Bswap16Reverses(b: seq<bv8>)
    requires |b| == 2
    ensures BswapChunk16(b) == Reverse(b)
  {
    Load16Bytes(b);
    Swap16Bytes(Load16(b));
    assert BswapChunk16(b) == Reverse(b);
  }
}
