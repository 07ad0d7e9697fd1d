/**
  Splitting a TCP or UDP packet into smaller ones: every fragment repeats the headers, carries a slice of
  the payload, and has its lengths, sequence number and, on request, checksums rewritten.
 */
module PacketSplit {
  import opened Basics
  import opened Bytes
  import opened Checksum
  import opened PacketParse

  /** How many fragments a payload needs; 1 means that it is not split. */
  function FragmentCount(r: Layout, limit: int): nat {
    if limit <= 0 || r.payloadLen <= limit then 1 else (r.payloadLen + limit - 1) / limit
  }

  /** Where in the payload fragment k starts. */
  function Start(k: nat, limit: int): int { k * limit }

  /** The payload bytes of fragment k; not positive when there is no such fragment. */
  function FragmentSize(r: Layout, k: nat, limit: int): int {
    var remaining := r.payloadLen - Start(k, limit);
    if remaining > limit then limit else remaining
  }

  function Payload(p: seq<byte>, r: Layout): (b: seq<byte>)
    requires InBounds(r, |p|)
    ensures |b| == r.payloadLen
  {
    p[r.payloadOffset..r.payloadOffset + r.payloadLen]
  }

  /** A frame under construction: all headers of the layout are there. */
  predicate HasHeaders(f: seq<byte>, r: Layout) {
    InBounds(r.(payloadLen := 0), |f|) && |f| <= MAX_FRAME
  }

  // ---- the rewriting steps -------------------------------------------------------------------------

  lemma SliceInBounds(r: Layout, k: nat, limit: int)
    requires FragmentSize(r, k, limit) > 0
    ensures 0 <= Start(k, limit) <= Start(k, limit) + FragmentSize(r, k, limit) <= r.payloadLen
    ensures 0 < limit
  {
  }

  /** The share of the payload that fragment k carries. */
  function Slice(p: seq<byte>, r: Layout, k: nat, limit: int): (s: seq<byte>)
    requires InBounds(r, |p|) && FragmentSize(r, k, limit) > 0
    ensures |s| == FragmentSize(r, k, limit)
  {
    SliceInBounds(r, k, limit);
    Payload(p, r)[Start(k, limit)..Start(k, limit) + FragmentSize(r, k, limit)]
  }

  /** The headers followed by the fragment's slice of the payload. */
  function Copied(p: seq<byte>, r: Layout, k: nat, limit: int): (f: seq<byte>)
    requires InBounds(r, |p|) && |p| <= MAX_FRAME && FragmentSize(r, k, limit) > 0
    ensures HasHeaders(f, r) && |f| == r.payloadOffset + FragmentSize(r, k, limit)
  {
    hide Start, FragmentSize;
    SliceInBounds(r, k, limit);
    p[..r.payloadOffset] + Slice(p, r, k, limit)
  }

  function WithIpLength(f: seq<byte>, r: Layout): (g: seq<byte>)
    requires HasHeaders(f, r)
    ensures |g| == |f|
  {
    var n := |f| - r.payloadOffset;
    if r.ipv4 then Put(f, r.ipOffset + 2, PutBe16(r.ipHdrLen + r.l4HdrLen + n))
    else Put(f, r.ipOffset + 4, PutBe16(r.extLen + r.l4HdrLen + n))
  }

  function IpHeader(f: seq<byte>, r: Layout): seq<byte>
    requires HasHeaders(f, r)
  {
    f[r.ipOffset..r.ipOffset + r.ipHdrLen]
  }

  function WithIpChecksum(f: seq<byte>, r: Layout): (g: seq<byte>)
    requires HasHeaders(f, r) && r.ipv4
    ensures |g| == |f|
  {
    var z := Put(f, r.ipOffset + 10, [0, 0]);
    WordSumFits(IpHeader(z, r));
    Put(z, r.ipOffset + 10, PutLe16(Finish(WordSum(IpHeader(z, r)))))
  }

  /** Unsigned 32-bit addition of an offset to a sequence number. */
  function Advance(number: nat, offset: nat): (n: nat)
    ensures n < TWO32
  {
    (number + offset) % TWO32
  }

  /** TCP: the sequence number moves on by the offset of the slice. UDP: the length of this datagram. */
  function WithTransportField(f: seq<byte>, r: Layout, offset: nat): (g: seq<byte>)
    requires HasHeaders(f, r)
    ensures |g| == |f|
  {
    if r.tcp then Put(f, r.l4Offset + 4, PutBe32(Advance(Be32(f, r.l4Offset + 4), offset)))
    else Put(f, r.l4Offset + 4, PutBe16(|f| - r.l4Offset))
  }

  function Addresses(f: seq<byte>, r: Layout): (a: seq<byte>)
    requires HasHeaders(f, r)
    ensures |a| == if r.ipv4 then 8 else 32
  {
    if r.ipv4 then f[r.ipOffset + 12..r.ipOffset + 20] else f[r.ipOffset + 8..r.ipOffset + 40]
  }

  function Segment(f: seq<byte>, r: Layout): (s: seq<byte>)
    requires HasHeaders(f, r)
    ensures r.l4HdrLen <= |s| <= MAX_FRAME
  {
    f[r.l4Offset..]
  }

  function Protocol(r: Layout): byte { if r.tcp then TCP else UDP }

  /** Where the checksum field is in the transport header. */
  function CheckAt(r: Layout): (n: nat)
    ensures n % 2 == 0
  {
    if r.tcp then 16 else 6
  }

  function WithTransportChecksum(f: seq<byte>, r: Layout): (g: seq<byte>)
    requires HasHeaders(f, r)
    ensures |g| == |f|
  {
    var z := Put(f, r.l4Offset + CheckAt(r), [0, 0]);
    SegmentFits(Addresses(z, r), Protocol(r), Segment(z, r));
    var c := SegmentChecksum(Addresses(z, r), Protocol(r), Segment(z, r));
    Put(z, r.l4Offset + CheckAt(r), PutLe16(if r.tcp then c else UdpForWire(c)))
  }

  /** Fragment k of the frame p. */
  function Fragment(p: seq<byte>, r: Layout, k: nat, limit: int, recalculate: bool): (f: seq<byte>)
    requires InBounds(r, |p|) && |p| <= MAX_FRAME && FragmentSize(r, k, limit) > 0
    ensures HasHeaders(f, r) && |f| == r.payloadOffset + FragmentSize(r, k, limit)
  {
    hide Start, FragmentSize;
    SliceInBounds(r, k, limit);
    var f1 := WithIpLength(Copied(p, r, k, limit), r);
    var f2 := if recalculate && r.ipv4 then WithIpChecksum(f1, r) else f1;
    var f3 := WithTransportField(f2, r, Start(k, limit));
    if recalculate then WithTransportChecksum(f3, r) else f3
  }

  // ---- building a fragment in a buffer -------------------------------------------------------------

  method Store(out: array<byte>, at: nat, x: seq<byte>)
    requires at + |x| <= out.Length
    modifies out
    ensures out[..] == Put(old(out[..]), at, x)
  {
    forall i | 0 <= i < |x| {
      out[at + i] := x[i];
    }
  }

  /** A store below n acts on the first n bytes as on a frame of its own. */
  lemma PutPrefix(b: seq<byte>, n: nat, at: nat, x: seq<byte>)
    requires at + |x| <= n <= |b|
    ensures Put(b, at, x)[..n] == Put(b[..n], at, x) && Put(b, at, x)[n..] == b[n..]
  {
  }

  method StoreWithin(out: array<byte>, ghost n: nat, at: nat, x: seq<byte>)
    requires at + |x| <= n <= out.Length
    modifies out
    ensures out[..n] == Put(old(out[..n]), at, x) && out[n..] == old(out[n..])
  {
    hide Put;
    ghost var before := out[..];
    PutPrefix(before, n, at, x);
    Store(out, at, x);
    assert out[..n] == out[..][..n] && out[n..] == out[..][n..] && before[..n] == old(out[..n]) && before[n..] == old(out[n..]);
  }

  method CopySlice(p: seq<byte>, r: Layout, k: nat, limit: int, out: array<byte>) returns (n: nat)
    requires InBounds(r, |p|) && |p| <= MAX_FRAME && FragmentSize(r, k, limit) > 0 && |p| <= out.Length
    modifies out
    ensures n <= out.Length && out[..n] == Copied(p, r, k, limit) && out[n..] == old(out[n..])
  {
    hide Start, FragmentSize, Slice, Put;
    SliceInBounds(r, k, limit);
    n := r.payloadOffset + FragmentSize(r, k, limit);
    StoreWithin(out, n, 0, p[..r.payloadOffset]);
    StoreWithin(out, n, r.payloadOffset, Slice(p, r, k, limit));
    assert out[..n][..r.payloadOffset] == p[..r.payloadOffset];
    assert out[..n] == out[..n][..r.payloadOffset] + out[..n][r.payloadOffset..];
  }

  method StoreIpLength(r: Layout, n: nat, out: array<byte>)
    requires n <= out.Length && HasHeaders(out[..n], r)
    modifies out
    ensures HasHeaders(old(out[..n]), r) && out[..n] == WithIpLength(old(out[..n]), r) && out[n..] == old(out[n..])
  {
    hide Put, PutBe16;
    if r.ipv4 {
      StoreWithin(out, n, r.ipOffset + 2, PutBe16(U16(r.ipHdrLen + r.l4HdrLen + (n - r.payloadOffset))));
    } else {
      StoreWithin(out, n, r.ipOffset + 4, PutBe16(U16(r.extLen + r.l4HdrLen + (n - r.payloadOffset))));
    }
  }

  method StoreIpChecksum(r: Layout, n: nat, out: array<byte>)
    requires n <= out.Length && HasHeaders(out[..n], r) && r.ipv4
    modifies out
    ensures HasHeaders(old(out[..n]), r) && out[..n] == WithIpChecksum(old(out[..n]), r) && out[n..] == old(out[n..])
  {
    hide Put, PutLe16, WordSum, Finish;
    StoreWithin(out, n, r.ipOffset + 10, [0, 0]);
    assert out[r.ipOffset..r.ipOffset + r.ipHdrLen] == IpHeader(out[..n], r);
    var c := CalculateIpChecksum(out[r.ipOffset..r.ipOffset + r.ipHdrLen]);
    StoreWithin(out, n, r.ipOffset + 10, PutLe16(c));
  }

  method StoreTransportField(r: Layout, n: nat, offset: nat, out: array<byte>)
    requires n <= out.Length && HasHeaders(out[..n], r)
    modifies out
    ensures HasHeaders(old(out[..n]), r) && out[..n] == WithTransportField(old(out[..n]), r, offset) && out[n..] == old(out[n..])
  {
    hide Put, PutBe16, PutBe32, Be32, Advance;
    var at := r.l4Offset;
    if r.tcp {
      var seqNo := Be32(out[..n], at + 4);
      StoreWithin(out, n, at + 4, PutBe32(Advance(seqNo, offset)));
    } else {
      StoreWithin(out, n, at + 4, PutBe16(U16(r.l4HdrLen + (n - r.payloadOffset))));
    }
  }

  method StoreTransportChecksum(r: Layout, n: nat, out: array<byte>)
    requires n <= out.Length && HasHeaders(out[..n], r)
    modifies out
    ensures HasHeaders(old(out[..n]), r) && out[..n] == WithTransportChecksum(old(out[..n]), r) && out[n..] == old(out[n..])
  {
    hide Put, PutLe16, WordSum, SegmentChecksum, UdpForWire, Pseudo;
    var at := r.l4Offset + CheckAt(r);
    StoreWithin(out, n, at, [0, 0]);
    var c := CalculateSegmentChecksum(Addresses(out[..n], r), Protocol(r), Segment(out[..n], r));
    StoreWithin(out, n, at, PutLe16(if r.tcp then c else UdpForWire(c)));
  }

  /** Writes fragment k into the buffer; -1 exactly when there is no fragment k. */
  method BuildFragment(p: seq<byte>, r: Layout, k: nat, limit: int, recalculate: bool, out: array<byte>) returns (n: int)
    requires InBounds(r, |p|) && |p| <= MAX_FRAME && |p| <= out.Length
    modifies out
    ensures FragmentSize(r, k, limit) <= 0 ==> n == -1 && out[..] == old(out[..])
    ensures FragmentSize(r, k, limit) > 0 ==> 0 < n <= out.Length && out[n..] == old(out[n..])
    ensures FragmentSize(r, k, limit) > 0 ==> out[..n] == Fragment(p, r, k, limit, recalculate)
  {
    if FragmentSize(r, k, limit) <= 0 {
      return -1;
    }
    hide WithIpLength, WithIpChecksum, WithTransportField, WithTransportChecksum;
    SliceInBounds(r, k, limit);
    n := CopySlice(p, r, k, limit, out);
    StoreIpLength(r, n, out);
    if recalculate && r.ipv4 {
      StoreIpChecksum(r, n, out);
    }
    StoreTransportField(r, n, Start(k, limit), out);
    if recalculate {
      StoreTransportChecksum(r, n, out);
    }
  }
}
