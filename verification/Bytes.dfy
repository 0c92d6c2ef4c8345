/** Bytes, and the little-endian integers that every wire format of the VPN client is made of. */
module Bytes {

  type Byte = n: int | 0 <= n < 256 witness 0

  const UINT16_MAX: nat := 0xFFFF

  datatype Option<+T> = None | Some(value: T)

  /** The sixteen-bit little-endian integer at a position of a packet. */
  function Uint16At(packet: seq<Byte>, pos: nat): (v: nat)
    requires pos + 2 <= |packet|
    ensures v <= UINT16_MAX
  {
    var low: int, high: int := packet[pos], packet[pos + 1];
    low + 256 * high
  }

  /** The number of values that fit in the given number of bytes. */
  function Limit(width: nat): (r: nat)
    ensures r >= 1
  {
    if width == 0 then 1 else 256 * Limit(width - 1)
  }

  function LittleEndian(v: nat, width: nat): (bs: seq<Byte>)
    requires v < Limit(width)
    ensures |bs| == width
  {
    if width == 0 then [] else [v % 256] + LittleEndian(v / 256, width - 1)
  }

  function FromLittleEndian(bs: seq<Byte>): (v: nat)
    ensures v < Limit(|bs|)
  {
    if bs == [] then 0 else bs[0] + 256 * FromLittleEndian(bs[1..])
  }

  lemma {:induction false} LittleEndianRoundTrip(v: nat, width: nat)
    requires v < Limit(width)
    ensures FromLittleEndian(LittleEndian(v, width)) == v
  {
    if width > 0 {
      LittleEndianRoundTrip(v / 256, width - 1);
      assert LittleEndian(v, width)[1..] == LittleEndian(v / 256, width - 1);
    }
  }

  lemma {:induction false} FromLittleEndianRoundTrip(bs: seq<Byte>)
    ensures LittleEndian(FromLittleEndian(bs), |bs|) == bs
  {
    if bs != [] {
      var v := FromLittleEndian(bs);
      FromLittleEndianRoundTrip(bs[1..]);
      assert v % 256 == bs[0] && v / 256 == FromLittleEndian(bs[1..]);
    }
  }

  /** Copies bytes into a buffer. */
  method CopyTo(dst: array<Byte>, at: nat, src: seq<Byte>)
    requires at + |src| <= dst.Length
    modifies dst
    ensures dst[..at] == old(dst[..at])
    ensures dst[at..at + |src|] == src
    ensures dst[at + |src|..] == old(dst[at + |src|..])
  {
    for i := 0 to |src|
      invariant dst[..at] == old(dst[..at])
      invariant dst[at..at + i] == src[..i]
      invariant dst[at + |src|..] == old(dst[at + |src|..])
    {
      dst[at + i] := src[i];
    }
  }
}
