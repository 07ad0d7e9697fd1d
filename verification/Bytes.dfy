/** Bytes and the integers the wire formats build from them. */
module Bytes {
  type byte = x: int | 0 <= x < 256

  /** A big-endian (network order) 16-bit field. */
  function Be16(b: seq<byte>, i: nat): (v: nat)
    requires i + 2 <= |b|
    ensures v < 0x10000
  {
    (b[i] as int) * 256 + b[i + 1]
  }

  function Be32(b: seq<byte>, i: nat): (v: nat)
    requires i + 4 <= |b|
    ensures v < 0x1_0000_0000
  {
    Be16(b, i) * 0x10000 + Be16(b, i + 2)
  }

  function PutBe16(v: nat): (b: seq<byte>)
    requires v < 0x10000
    ensures |b| == 2 && Be16(b, 0) == v
  {
    [v / 256, v % 256]
  }

  function PutBe32(v: nat): (b: seq<byte>)
    requires v < 0x1_0000_0000
    ensures |b| == 4 && Be32(b, 0) == v
  {
    var b := PutBe16(v / 0x10000) + PutBe16(v % 0x10000);
    assert Be16(b, 0) == Be16(PutBe16(v / 0x10000), 0) && Be16(b, 2) == Be16(PutBe16(v % 0x10000), 0);
    b
  }

  /** A 16-bit word as a little-endian host stores it. */
  function PutLe16(v: nat): (b: seq<byte>)
    requires v < 0x10000
    ensures |b| == 2 && (b[0] as int) + 256 * (b[1] as int) == v
  {
    [v % 256, v / 256]
  }

  /** `b` with the bytes from position i on replaced by `x`. */
  function Put(b: seq<byte>, i: nat, x: seq<byte>): (r: seq<byte>)
    requires i + |x| <= |b|
    ensures |r| == |b|
    ensures r[i..i + |x|] == x
    ensures forall k :: 0 <= k < |b| ==> r[k] == if i <= k < i + |x| then x[k - i] else b[k]
  {
    b[..i] + x + b[i + |x|..]
  }
}
