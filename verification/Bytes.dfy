/** Bytes, and the big-endian numbers the wire formats are made of. */
module Bytes {
  newtype Byte = x: int | 0 <= x < 256

  /** A C string without its terminator. */
  type Name = seq<Byte>

  function U16(v: nat): (b: seq<Byte>)
    requires v < 0x1_0000
    ensures |b| == 2
  {
    [(v / 256) as Byte, (v % 256) as Byte]
  }

  function U32(v: nat): (b: seq<Byte>)
    requires v < 0x1_0000_0000
    ensures |b| == 4
  {
    [(v / 0x100_0000) as Byte, (v / 0x1_0000 % 256) as Byte, (v / 256 % 256) as Byte, (v % 256) as Byte]
  }

  function ReadU16(b: seq<Byte>, off: nat): (v: nat)
    requires off + 2 <= |b|
    ensures v < 0x1_0000
  {
    256 * (b[off] as int) + b[off + 1] as int
  }

  function ReadU32(b: seq<Byte>, off: nat): (v: nat)
    requires off + 4 <= |b|
  {
    0x100_0000 * (b[off] as int) + 0x1_0000 * (b[off + 1] as int) + 256 * (b[off + 2] as int) + b[off + 3] as int
  }

  lemma U32RoundTrip(v: nat, before: seq<Byte>, after: seq<Byte>)
    requires v < 0x1_0000_0000
    ensures ReadU32(before + U32(v) + after, |before|) == v
  {
    var b := before + U32(v) + after;
    assert forall k :: 0 <= k < 4 ==> b[|before| + k] == U32(v)[k];
    assert v == 256 * (v / 256) + v % 256;
    assert v / 256 == 256 * (v / 0x1_0000) + v / 256 % 256;
    assert v / 0x1_0000 == 256 * (v / 0x100_0000) + v / 0x1_0000 % 256;
  }
}
