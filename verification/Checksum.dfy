/**
  The Internet checksum (RFC 1071) as the packet splitter computes it on a little-endian host: an
  unrolled accumulation with an optional four-lane vector path, two folds, and a complement.
 */
module Checksum {
  import opened Bytes

  const TWO32: nat := 0x1_0000_0000

  /** Partial sums the code combines: a pseudo header of at most 18 words. */
  const MAX_INITIAL: nat := 18 * 65535

  /** Unsigned 32-bit addition. */
  function Add32(a: nat, b: nat): (r: nat)
    ensures a + b < TWO32 ==> r == a + b
  {
    (a + b) % TWO32
  }

  /** The 16-bit word a little-endian host loads. */
  function Word(b: seq<byte>, i: nat): (w: nat)
    requires i + 2 <= |b|
    ensures w < 0x10000
  {
    (b[i] as int) + 256 * (b[i + 1] as int)
  }

  /** The plain sum: word after word, an odd last byte padded with zero. */
  function WordSum(b: seq<byte>): nat {
    if |b| == 0 then 0
    else if |b| == 1 then b[0]
    else Word(b, 0) + WordSum(b[2..])
  }

  lemma {:induction false} WordSumBound(b: seq<byte>)
    ensures WordSum(b) <= 65535 * ((|b| + 1) / 2)
  {
    if |b| >= 2 {
      WordSumBound(b[2..]);
    }
  }

  /** Room for a whole datagram and a pseudo header in 32 bits. */
  lemma WordSumFits(b: seq<byte>)
    requires |b| <= 65535
    ensures WordSum(b) + MAX_INITIAL < TWO32 - 0xFFFF
  {
    WordSumBound(b);
  }

  lemma {:induction false} WordSumSplit(b: seq<byte>, k: nat)
    requires k <= |b| && k % 2 == 0
    ensures WordSum(b) == WordSum(b[..k]) + WordSum(b[k..])
  {
    if k == 0 {
      assert b[0..] == b && b[..0] == [];
    } else {
      WordSumSplit(b[2..], k - 2);
      assert b[2..][..k - 2] == b[..k][2..] && b[2..][k - 2..] == b[k..];
    }
  }

  lemma Sum2(b: seq<byte>, i: nat)
    requires i + 2 <= |b|
    ensures WordSum(b[i..]) == Word(b, i) + WordSum(b[i + 2..])
  {
    assert b[i..][2..] == b[i + 2..];
  }

  /** The four words a vector or unrolled step adds. */
  function Words4(b: seq<byte>, i: nat): nat
    requires i + 8 <= |b|
  {
    Word(b, i) + Word(b, i + 2) + Word(b, i + 4) + Word(b, i + 6)
  }

  lemma Sum8(b: seq<byte>, i: nat)
    requires i + 8 <= |b|
    ensures WordSum(b[i..]) == Words4(b, i) + WordSum(b[i + 8..])
  {
    Sum2(b, i);
    Sum2(b, i + 2);
    Sum2(b, i + 4);
    Sum2(b, i + 6);
  }

  /** The words of a 32-byte block that a vector step adds to lane j: words j, j + 4, j + 8 and j + 12. */
  function Column(b: seq<byte>, i: nat, j: nat): nat
    requires i + 32 <= |b| && j < 4
  {
    Word(b, i + 2 * j) + Word(b, i + 8 + 2 * j) + Word(b, i + 16 + 2 * j) + Word(b, i + 24 + 2 * j)
  }

  function LaneStep(lane: nat, b: seq<byte>, i: nat, j: nat): (r: nat)
    requires i + 32 <= |b| && j < 4
    ensures lane + Column(b, i, j) < TWO32 ==> r == lane + Column(b, i, j)
  {
    hide Add32, Word;
    Add32(Add32(Add32(Add32(lane, Word(b, i + 2 * j)), Word(b, i + 8 + 2 * j)), Word(b, i + 16 + 2 * j)), Word(b, i + 24 + 2 * j))
  }

  lemma Columns(b: seq<byte>, i: nat)
    requires i + 32 <= |b|
    ensures WordSum(b[i..]) == Column(b, i, 0) + Column(b, i, 1) + Column(b, i, 2) + Column(b, i, 3) + WordSum(b[i + 32..])
  {
    hide Word, WordSum;
    Sum8(b, i);
    Sum8(b, i + 8);
    Sum8(b, i + 16);
    Sum8(b, i + 24);
  }

  /** The vector path over all whole 32-byte blocks: lane sums, then two shuffles and adds. */
  method VectorSum(b: seq<byte>) returns (total: nat, done: nat)
    requires |b| <= 65535
    ensures done % 32 == 0 && |b| - 32 < done <= |b|
    ensures total == WordSum(b[..done])
  {
    hide Add32, WordSum, LaneStep, Column, Words4, Word;
    var l0: nat, l1: nat, l2: nat, l3: nat := 0, 0, 0, 0;
    done := 0;
    WordSumFits(b);
    assert b[0..] == b;
    while |b| - done >= 32
      invariant done <= |b| && done % 32 == 0
      invariant l0 + l1 + l2 + l3 + WordSum(b[done..]) == WordSum(b)
    {
      var i := done;
      Columns(b, i);
      l0, l1, l2, l3 := LaneStep(l0, b, i, 0), LaneStep(l1, b, i, 1), LaneStep(l2, b, i, 2), LaneStep(l3, b, i, 3);
      done := done + 32;
    }
    // swap the 64-bit halves and add, then swap neighbours and add; lane 0 has the total
    var h0, h1 := Add32(l0, l2), Add32(l1, l3);
    total := Add32(h0, h1);
    WordSumSplit(b, done);
  }

  /**
    Every path of the accumulation adds up to the plain sum, and nothing overflows 32 bits. `vector` says
    whether the vector path was compiled in.
   */
  method CksumAccumulate(b: seq<byte>, initial: nat, vector: bool) returns (sum: nat)
    requires |b| <= 65535 && initial <= MAX_INITIAL
    ensures sum == initial + WordSum(b) && sum < TWO32
  {
    hide Add32, Add4, Words4, Word;
    sum := initial;
    var i := 0;
    WordSumFits(b);
    assert b[0..] == b;
    if vector && |b| >= 32 {
      var total, done := VectorSum(b);
      WordSumSplit(b, done);
      sum := Add32(sum, total);
      i := done;
    }
    ghost var all := initial + WordSum(b);
    while |b| - i >= 16
      invariant i <= |b| && sum + WordSum(b[i..]) == all
    {
      Sum8(b, i);
      Sum8(b, i + 8);
      sum := Add4(sum, b, i);
      sum := Add4(sum, b, i + 8);
      i := i + 16;
    }
    if |b| - i >= 8 {
      Sum8(b, i);
      sum := Add4(sum, b, i);
      i := i + 8;
    }
    while |b| - i >= 2
      invariant i <= |b| && sum + WordSum(b[i..]) == all
    {
      Sum2(b, i);
      sum := Add32(sum, Word(b, i));
      i := i + 2;
    }
    if |b| - i > 0 {
      assert b[i..] == [b[i]];
      sum := Add32(sum, b[i]);
    }
  }

  function Add4(sum: nat, b: seq<byte>, i: nat): (r: nat)
    requires i + 8 <= |b|
    ensures sum + Words4(b, i) < TWO32 ==> r == sum + Words4(b, i)
  {
    hide Add32;
    Add32(Add32(Add32(Add32(sum, Word(b, i)), Word(b, i + 2)), Word(b, i + 4)), Word(b, i + 6))
  }

  // ---- folding -------------------------------------------------------------------------------------

  /** Two folds of a 32-bit sum, truncated to 16 bits. */
  function Fold(sum: nat): nat
    requires sum < TWO32
  {
    var once := sum / 0x10000 + sum % 0x10000;
    var twice := once / 0x10000 + once % 0x10000;
    twice % 0x10000
  }

  /** Two folds suffice: nothing is cut off, and the result is the one's-complement value of the sum. */
  lemma FoldIsOnesComplement(sum: nat)
    requires sum < TWO32
    ensures Fold(sum) <= 0xFFFF && Fold(sum) % 0xFFFF == sum % 0xFFFF
    ensures Fold(sum) == 0 <==> sum == 0
  {
    var hi, lo := sum / 0x10000, sum % 0x10000;
    var once := hi + lo;
    assert sum == 0xFFFF * hi + once;
    var hi2, lo2 := once / 0x10000, once % 0x10000;
    assert once == 0xFFFF * hi2 + (hi2 + lo2);
    assert Fold(sum) == hi2 + lo2;
    assert sum == 0xFFFF * (hi + hi2) + Fold(sum);
    Congruent(sum, Fold(sum), hi + hi2);
  }

  lemma Congruent(x: nat, y: nat, k: nat)
    requires x == 0xFFFF * k + y
    ensures x % 0xFFFF == y % 0xFFFF
  {
  }

  /** A sum folds to all ones exactly when it is a positive multiple of 65535. */
  lemma FoldsToOnes(sum: nat)
    requires sum < TWO32
    ensures Fold(sum) == 0xFFFF <==> sum > 0 && sum % 0xFFFF == 0
  {
    FoldIsOnesComplement(sum);
  }

  function Finish(sum: nat): (c: nat)
    requires sum < TWO32
    ensures c < 0x10000
  {
    0xFFFF - Fold(sum)
  }

  /** A computed UDP checksum of zero is sent as all ones (RFC 768). */
  function UdpForWire(c: nat): (w: nat)
    requires c < 0x10000
    ensures 0 < w < 0x10000
  {
    if c == 0 then 0xFFFF else c
  }

  /** Adding the checksum, in either form, makes the sum fold to all ones. */
  lemma ChecksumCompletes(sum: nat)
    requires sum + 0xFFFF < TWO32
    ensures Fold(sum + Finish(sum)) == 0xFFFF
    ensures Fold(sum + UdpForWire(Finish(sum))) == 0xFFFF
  {
    FoldIsOnesComplement(sum);
    FoldsToOnes(sum + Finish(sum));
    FoldsToOnes(sum + UdpForWire(Finish(sum)));
    SumOfParts(sum, Fold(sum));
    if Finish(sum) == 0 {
      SumPlusOnes(sum);
    }
  }

  lemma SumOfParts(sum: nat, f: nat)
    requires f <= 0xFFFF && f % 0xFFFF == sum % 0xFFFF
    ensures (sum + (0xFFFF - f)) % 0xFFFF == 0
  {
    var k := (sum / 0xFFFF) - (f / 0xFFFF);
    assert sum - f == 0xFFFF * k;
    assert sum + (0xFFFF - f) == 0xFFFF * (k + 1);
  }

  lemma SumPlusOnes(sum: nat)
    ensures (sum + 0xFFFF) % 0xFFFF == sum % 0xFFFF
  {
  }

  // ---- a stored checksum ---------------------------------------------------------------------------

  /** Writing a word over a zero word at an even position adds it to the sum. */
  lemma StoredWord(b: seq<byte>, at: nat, c: nat)
    requires at % 2 == 0 && at + 2 <= |b| && b[at] == 0 && b[at + 1] == 0 && c < 0x10000
    ensures WordSum(Put(b, at, PutLe16(c))) == WordSum(b) + c
  {
    hide WordSum, Put, PutLe16;
    var d := Put(b, at, PutLe16(c));
    WordSumSplit(b, at);
    WordSumSplit(d, at);
    Sum2(b, at);
    Sum2(d, at);
    assert d[..at] == b[..at] && d[at + 2..] == b[at + 2..];
  }

  /** A header or segment with its checksum field zeroed, then the checksum stored in host order, sums to all ones. */
  lemma StoredChecksumVerifies(b: seq<byte>, at: nat, initial: nat, c: nat)
    requires |b| <= 65535 && initial <= MAX_INITIAL && at % 2 == 0 && at + 2 <= |b| && b[at] == 0 && b[at + 1] == 0
    requires initial + WordSum(b) < TWO32
    requires c == Finish(initial + WordSum(b)) || c == UdpForWire(Finish(initial + WordSum(b)))
    ensures initial + WordSum(Put(b, at, PutLe16(c))) < TWO32
    ensures Fold(initial + WordSum(Put(b, at, PutLe16(c)))) == 0xFFFF
  {
    hide WordSum, Put, PutLe16, Fold, Finish, UdpForWire;
    StoredWord(b, at, c);
    WordSumFits(b);
    ChecksumCompletes(initial + WordSum(b));
  }

  // ---- the checksums of headers --------------------------------------------------------------------

  /** The IPv4 header checksum, with its straight-line path for a header without options. */
  method CalculateIpChecksum(h: seq<byte>) returns (c: nat)
    requires 20 <= |h| <= 60
    ensures WordSum(h) < TWO32 && c == Finish(WordSum(h))
  {
    WordSumFits(h);
    assert h[0..] == h;
    if |h| == 20 {
      var sum := Word(h, 0) + Word(h, 2) + Word(h, 4) + Word(h, 6) + Word(h, 8)
      + Word(h, 10) + Word(h, 12) + Word(h, 14) + Word(h, 16) + Word(h, 18);
      Sum8(h, 0);
      Sum8(h, 8);
      Sum2(h, 16);
      Sum2(h, 18);
      assert h[20..] == [];
      c := Finish(sum);
    } else {
      var vector: bool := *;
      var sum := CksumAccumulate(h, 0, vector);
      c := Finish(sum);
    }
  }

  /** The pseudo header of RFC 768 and RFC 9293: both addresses, the protocol and the segment length. */
  function Pseudo(addresses: seq<byte>, protocol: byte, length: nat): seq<byte>
    requires length < 0x10000
  {
    addresses + [0, protocol] + PutBe16(length)
  }

  /** Host to network order of a 16-bit value. */
  function Swap16(v: nat): (w: nat)
    requires v < 0x10000
    ensures w < 0x10000
  {
    v % 256 * 256 + v / 256
  }

  /** The partial sum of the pseudo header, word by word: 8 address bytes for IPv4, 32 for IPv6. */
  function PseudoSum(a: seq<byte>, protocol: byte, length: nat): nat
    requires length < 0x10000 && (|a| == 8 || |a| == 32)
  {
    if |a| == 8 then
      Word(a, 0) + Word(a, 2) + Word(a, 4) + Word(a, 6) + Swap16(protocol) + Swap16(length)
    else
      Word(a, 0) + Word(a, 2) + Word(a, 4) + Word(a, 6) + Word(a, 8) + Word(a, 10) + Word(a, 12) + Word(a, 14)
      + Word(a, 16) + Word(a, 18) + Word(a, 20) + Word(a, 22) + Word(a, 24) + Word(a, 26) + Word(a, 28) + Word(a, 30)
      + Swap16(length) + Swap16(protocol)
  }

  lemma PseudoSumIsWordSum(a: seq<byte>, protocol: byte, length: nat)
    requires length < 0x10000 && (|a| == 8 || |a| == 32)
    ensures PseudoSum(a, protocol, length) == WordSum(Pseudo(a, protocol, length)) <= MAX_INITIAL
  {
    var b := Pseudo(a, protocol, length);
    WordSumSplit(b, |a|);
    assert b[..|a|] == a;
    Sum2(b, |a|);
    Sum2(b, |a| + 2);
    assert b[|a| + 4..] == [];
    assert Word(b, |a|) == Swap16(protocol) && Word(b, |a| + 2) == Swap16(length);
    AddressSum(a);
  }

  lemma AddressSum(a: seq<byte>)
    requires |a| == 8 || |a| == 32
    ensures |a| == 8 ==> WordSum(a) == Words4(a, 0)
    ensures |a| == 32 ==> WordSum(a) == Words4(a, 0) + Words4(a, 8) + Words4(a, 16) + Words4(a, 24)
  {
    hide Word, Words4;
    assert a[0..] == a && a[|a|..] == [];
    Sum8(a, 0);
    if |a| == 32 {
      Sum8(a, 8);
      Sum8(a, 16);
      Sum8(a, 24);
    }
  }

  /** The checksum of a transport segment under its pseudo header. */
  function SegmentChecksum(addresses: seq<byte>, protocol: byte, segment: seq<byte>): (c: nat)
    requires |segment| <= 65535
    requires |addresses| == 8 || |addresses| == 32
    requires WordSum(Pseudo(addresses, protocol, |segment|)) + WordSum(segment) < TWO32
    ensures c < 0x10000
  {
    Finish(WordSum(Pseudo(addresses, protocol, |segment|)) + WordSum(segment))
  }

  lemma SegmentFits(addresses: seq<byte>, protocol: byte, segment: seq<byte>)
    requires |segment| <= 65535
    requires |addresses| == 8 || |addresses| == 32
    ensures WordSum(Pseudo(addresses, protocol, |segment|)) + WordSum(segment) < TWO32
  {
    PseudoSumIsWordSum(addresses, protocol, |segment|);
    WordSumFits(segment);
  }

  method CalculateSegmentChecksum(addresses: seq<byte>, protocol: byte, segment: seq<byte>) returns (c: nat)
    requires |segment| <= 65535
    requires |addresses| == 8 || |addresses| == 32
    ensures WordSum(Pseudo(addresses, protocol, |segment|)) + WordSum(segment) < TWO32
    ensures c == SegmentChecksum(addresses, protocol, segment)
  {
    hide PseudoSum, WordSum, Finish;
    PseudoSumIsWordSum(addresses, protocol, |segment|);
    var vector: bool := *;
    var sum := CksumAccumulate(segment, PseudoSum(addresses, protocol, |segment|), vector);
    c := Finish(sum);
  }

  // ---- byte order ----------------------------------------------------------------------------------

  /** The sum a receiver computes in network byte order. */
  function NetworkSum(b: seq<byte>): nat {
    if |b| == 0 then 0
    else if |b| == 1 then (b[0] as int) * 256
    else Be16(b, 0) + NetworkSum(b[2..])
  }

  /** Swapping all words multiplies the sum by 256, up to multiples of 65535. */
  lemma {:induction false} NetworkSumIsRotated(b: seq<byte>) returns (k: int)
    ensures NetworkSum(b) == 256 * WordSum(b) - 0xFFFF * k
    ensures NetworkSum(b) == 0 <==> WordSum(b) == 0
  {
    if |b| == 0 {
      k := 0;
    } else if |b| == 1 {
      k := 0;
    } else {
      var k' := NetworkSumIsRotated(b[2..]);
      k := k' + b[1];
    }
  }

  /** Verification does not depend on byte order. */
  lemma ByteOrderDoesNotMatter(b: seq<byte>)
    requires |b| <= 65535 + 40
    ensures WordSum(b) < TWO32 && NetworkSum(b) < TWO32
    ensures Fold(NetworkSum(b)) == 0xFFFF <==> Fold(WordSum(b)) == 0xFFFF
  {
    WordSumBound(b);
    NetworkSumBound(b);
    var k := NetworkSumIsRotated(b);
    FoldsToOnes(WordSum(b));
    FoldsToOnes(NetworkSum(b));
    RotationKeepsMultiples(WordSum(b), NetworkSum(b), k);
  }

  lemma {:induction false} NetworkSumBound(b: seq<byte>)
    ensures NetworkSum(b) <= 65535 * ((|b| + 1) / 2)
  {
    if |b| >= 2 {
      NetworkSumBound(b[2..]);
    }
  }

  lemma RotationKeepsMultiples(x: nat, y: nat, k: int)
    requires y == 256 * x - 0xFFFF * k
    ensures x % 0xFFFF == 0 <==> y % 0xFFFF == 0
  {
    if x % 0xFFFF == 0 {
      var q := x / 0xFFFF;
      assert y == 0xFFFF * (256 * q - k);
    }
    if y % 0xFFFF == 0 {
      var q := y / 0xFFFF;
      assert 256 * y == 0x10000 * x - 256 * 0xFFFF * k;
      assert x == 256 * y - 0xFFFF * x + 256 * 0xFFFF * k;
      assert x == 0xFFFF * (256 * q - x + 256 * k);
    }
  }
}
