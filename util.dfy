/**
 * `float_swap` (core/util.h): the bits of a float are put through `htonl`.
 * No arithmetic is done on the float; only its 32-bit pattern moves. On a
 * little-endian host `htonl` reverses the four bytes; on a big-endian host it
 * is the identity.
 */
module Util {
  import opened Bytes

  function Reverse4(b: seq<byte>): (r: seq<byte>)
    requires |b| == 4
    ensures |r| == 4
    ensures forall k :: 0 <= k < 4 ==> r[k] == b[3 - k]
  {
    [b[3], b[2], b[1], b[0]]
  }

  /** `htonl` on a host of the given byte order. */
  function Htonl(x: u32, littleEndianHost: bool): (y: u32)
    ensures littleEndianHost ==> LE32(y) == Reverse4(LE32(x))
    ensures !littleEndianHost ==> y == x
  {
    if littleEndianHost then
      var y := ReadLE32(Reverse4(LE32(x)));
      LE32OfReadLE32(Reverse4(LE32(x)));
      assert Reverse4(LE32(x))[..4] == Reverse4(LE32(x));
      y
    else x
  }

  function FloatSwap(v: F32, littleEndianHost: bool): F32
  {
    F32(Htonl(v.bits, littleEndianHost))
  }

  /** Swapping twice gives back the original bit pattern, on either host. */
  lemma FloatSwapInvolution(v: F32, littleEndianHost: bool)
    ensures FloatSwap(FloatSwap(v, littleEndianHost), littleEndianHost) == v
  {
    if littleEndianHost {
      var u := FloatSwap(FloatSwap(v, true), true).bits;
      assert LE32(u) == Reverse4(Reverse4(LE32(v.bits)));
      assert Reverse4(Reverse4(LE32(v.bits))) == LE32(v.bits);
      assert ReadLE32(LE32(u)) == ReadLE32(LE32(v.bits));
    }
  }
}
