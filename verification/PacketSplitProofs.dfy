/** What the fragments of a packet are, and that together they carry its payload. */
module PacketSplitProofs {
  import opened Basics
  import opened Bytes
  import opened Checksum
  import opened PacketLayout
  import opened PacketParse
  import opened PacketSplit

  // ---- which bytes each step changes ---------------------------------------------------------------

  ghost predicate SameOutside(f: seq<byte>, g: seq<byte>, lo: nat, hi: nat) {
    |f| == |g| && forall i :: 0 <= i < |f| && !(lo <= i < hi) ==> g[i] == f[i]
  }

  lemma IpLengthStep(f: seq<byte>, r: Layout)
    requires HasHeaders(f, r)
    ensures r.ipv4 ==> SameOutside(f, WithIpLength(f, r), r.ipOffset + 2, r.ipOffset + 4)
    ensures !r.ipv4 ==> SameOutside(f, WithIpLength(f, r), r.ipOffset + 4, r.ipOffset + 6)
    ensures SaysLength(WithIpLength(f, r), r, |f| - r.payloadOffset)
  {
    hide Put, PutBe16;
    var n := |f| - r.payloadOffset;
    if r.ipv4 {
      ReadBack16(f, r.ipOffset + 2, r.ipHdrLen + r.l4HdrLen + n);
    } else {
      ReadBack16(f, r.ipOffset + 4, r.extLen + r.l4HdrLen + n);
    }
  }

  lemma ReadBack16(f: seq<byte>, at: nat, v: nat)
    requires at + 2 <= |f| && v < 0x10000
    ensures Be16(Put(f, at, PutBe16(v)), at) == v
  {
    hide Put, PutBe16;
    var g := Put(f, at, PutBe16(v));
    assert g[at] == PutBe16(v)[0] && g[at + 1] == PutBe16(v)[1];
  }

  lemma ReadBack32(f: seq<byte>, at: nat, v: nat)
    requires at + 4 <= |f| && v < TWO32
    ensures Be32(Put(f, at, PutBe32(v)), at) == v
  {
    hide Put, PutBe32;
    var g, x := Put(f, at, PutBe32(v)), PutBe32(v);
    assert g[at] == x[0] && g[at + 1] == x[1] && g[at + 2] == x[2] && g[at + 3] == x[3];
  }

  lemma IpChecksumStep(f: seq<byte>, r: Layout)
    requires HasHeaders(f, r) && r.ipv4
    ensures SameOutside(f, WithIpChecksum(f, r), r.ipOffset + 10, r.ipOffset + 12)
    ensures SumsToOnes(IpHeader(WithIpChecksum(f, r), r))
  {
    hide Put, PutLe16, WordSum, Finish, Fold;
    var z := Put(f, r.ipOffset + 10, [0, 0]);
    var h := IpHeader(z, r);
    WordSumFits(h);
    var c := Finish(WordSum(h));
    assert h[10] == 0 && h[11] == 0;
    StoredChecksumVerifies(h, 10, 0, c);
    var g := Put(z, r.ipOffset + 10, PutLe16(c));
    assert IpHeader(g, r) == Put(h, 10, PutLe16(c));
  }

  ghost predicate SumsToOnes(b: seq<byte>) {
    WordSum(b) < TWO32 && Fold(WordSum(b)) == 0xFFFF
  }

  lemma TransportFieldStep(f: seq<byte>, r: Layout, offset: nat)
    requires HasHeaders(f, r)
    ensures SameOutside(f, WithTransportField(f, r, offset), r.l4Offset + 4, r.l4Offset + if r.tcp then 8 else 6)
    ensures r.tcp ==> Be32(WithTransportField(f, r, offset), r.l4Offset + 4) == Advance(Be32(f, r.l4Offset + 4), offset)
    ensures !r.tcp ==> Be16(WithTransportField(f, r, offset), r.l4Offset + 4) == |f| - r.l4Offset
  {
    hide Put, PutBe16, PutBe32, Be32, Advance;
    if r.tcp {
      ReadBack32(f, r.l4Offset + 4, Advance(Be32(f, r.l4Offset + 4), offset));
    } else {
      ReadBack16(f, r.l4Offset + 4, |f| - r.l4Offset);
    }
  }

  /** The pseudo header and the segment it protects. */
  function Protected(f: seq<byte>, r: Layout): seq<byte>
    requires HasHeaders(f, r)
  {
    Pseudo(Addresses(f, r), Protocol(r), |Segment(f, r)|) + Segment(f, r)
  }

  lemma ProtectedSum(f: seq<byte>, r: Layout)
    requires HasHeaders(f, r)
    ensures WordSum(Protected(f, r)) == WordSum(Pseudo(Addresses(f, r), Protocol(r), |Segment(f, r)|)) + WordSum(Segment(f, r))
  {
    hide WordSum;
    var a := Pseudo(Addresses(f, r), Protocol(r), |Segment(f, r)|);
    var b := Protected(f, r);
    assert b[..|a|] == a && b[|a|..] == Segment(f, r);
    WordSumSplit(b, |a|);
  }

  /** Storing a word in the checksum field changes the segment there and nothing else that is protected. */
  lemma StoreCheck(f: seq<byte>, r: Layout, x: seq<byte>)
    requires HasHeaders(f, r) && |x| == 2
    ensures r.l4Offset + CheckAt(r) + 2 <= |f| && CheckAt(r) + 2 <= |Segment(f, r)|
    ensures var g := Put(f, r.l4Offset + CheckAt(r), x);
      && HasHeaders(g, r)
      && SameOutside(f, g, r.l4Offset + CheckAt(r), r.l4Offset + CheckAt(r) + 2)
      && Segment(g, r) == Put(Segment(f, r), CheckAt(r), x)
      && Addresses(g, r) == Addresses(f, r)
      && g[r.l4Offset + CheckAt(r)] == x[0] && g[r.l4Offset + CheckAt(r) + 1] == x[1]
  {
    hide Put;
  }

  lemma TransportChecksumFrame(f: seq<byte>, r: Layout)
    requires HasHeaders(f, r)
    ensures SameOutside(f, WithTransportChecksum(f, r), r.l4Offset + CheckAt(r), r.l4Offset + CheckAt(r) + 2)
    ensures !r.tcp ==> Be16(WithTransportChecksum(f, r), r.l4Offset + 6) != 0
  {
    hide Put, PutLe16, WordSum, SegmentChecksum, Pseudo, UdpForWire, Addresses, Segment, HasHeaders;
    StoreCheck(f, r, [0, 0]);
    var z := Put(f, r.l4Offset + CheckAt(r), [0, 0]);
    SegmentFits(Addresses(z, r), Protocol(r), Segment(z, r));
    var c := SegmentChecksum(Addresses(z, r), Protocol(r), Segment(z, r));
    StoreCheck(z, r, PutLe16(if r.tcp then c else UdpForWire(c)));
  }

  lemma TransportChecksumSum(f: seq<byte>, r: Layout)
    requires HasHeaders(f, r)
    ensures SumsToOnes(Protected(WithTransportChecksum(f, r), r))
  {
    hide Put, PutLe16, WordSum, Finish, Fold, Pseudo, UdpForWire, Addresses, Segment, HasHeaders;
    StoreCheck(f, r, [0, 0]);
    var z := Put(f, r.l4Offset + CheckAt(r), [0, 0]);
    var a, s := Addresses(z, r), Segment(z, r);
    SegmentFits(a, Protocol(r), s);
    PseudoSumIsWordSum(a, Protocol(r), |s|);
    var c := SegmentChecksum(a, Protocol(r), s);
    var w := if r.tcp then c else UdpForWire(c);
    StoreCheck(z, r, PutLe16(w));
    CheckedSegment(s, r, WordSum(Pseudo(a, Protocol(r), |s|)), w);
    ProtectedSum(WithTransportChecksum(f, r), r);
  }

  lemma CheckedSegment(s: seq<byte>, r: Layout, initial: nat, w: nat)
    requires CheckAt(r) + 2 <= |s| <= 65535 && s[CheckAt(r)] == 0 && s[CheckAt(r) + 1] == 0
    requires initial <= MAX_INITIAL && initial + WordSum(s) < TWO32
    requires w == Finish(initial + WordSum(s)) || w == UdpForWire(Finish(initial + WordSum(s)))
    ensures initial + WordSum(Put(s, CheckAt(r), PutLe16(w))) < TWO32
    ensures Fold(initial + WordSum(Put(s, CheckAt(r), PutLe16(w)))) == 0xFFFF
  {
    StoredChecksumVerifies(s, CheckAt(r), initial, w);
  }

  // ---- one fragment --------------------------------------------------------------------------------

  /** Everything the rewriting steps leave alone is as in the frame. */
  lemma FragmentHeaders(p: seq<byte>, r: Layout, k: nat, limit: int, recalculate: bool)
    requires InBounds(r, |p|) && |p| <= MAX_FRAME && FragmentSize(r, k, limit) > 0
    ensures var f := Fragment(p, r, k, limit, recalculate);
      var n := FragmentSize(r, k, limit);
      && |f| == r.payloadOffset + n
      && SameHeaders(p, f, r)
      && SaysLength(f, r, n)
      && f[r.payloadOffset..] == Slice(p, r, k, limit)
  {
    hide Start, FragmentSize, WithIpLength, WithIpChecksum, WithTransportField, WithTransportChecksum;
    SliceInBounds(r, k, limit);
    var n := FragmentSize(r, k, limit);
    var f0 := Copied(p, r, k, limit);
    var f1 := WithIpLength(f0, r);
    IpLengthStep(f0, r);
    var f2 := if recalculate && r.ipv4 then WithIpChecksum(f1, r) else f1;
    if recalculate && r.ipv4 {
      IpChecksumStep(f1, r);
    }
    var f3 := WithTransportField(f2, r, Start(k, limit));
    TransportFieldStep(f2, r, Start(k, limit));
    var f4 := if recalculate then WithTransportChecksum(f3, r) else f3;
    if recalculate {
      TransportChecksumFrame(f3, r);
    }
    KeepsLength(f1, f2, r);
    KeepsLength(f2, f4, r);
    assert f4[r.payloadOffset..] == f0[r.payloadOffset..];
  }

  lemma KeepsLength(f: seq<byte>, g: seq<byte>, r: Layout)
    requires HasHeaders(f, r) && |g| == |f|
    requires r.ipv4 ==> g[r.ipOffset + 2] == f[r.ipOffset + 2] && g[r.ipOffset + 3] == f[r.ipOffset + 3]
    requires !r.ipv4 ==> g[r.ipOffset + 4] == f[r.ipOffset + 4] && g[r.ipOffset + 5] == f[r.ipOffset + 5]
    ensures forall n: nat :: SaysLength(g, r, n) <==> SaysLength(f, r, n)
  {
  }

  /** A fragment parses to the layout of its packet, with its own share of the payload. */
  lemma FragmentParses(p: seq<byte>, r: Layout, k: nat, limit: int, recalculate: bool)
    requires |p| <= MAX_FRAME && Parse(p) == Some(r) && FragmentSize(r, k, limit) > 0
    ensures InBounds(r, |p|)
    ensures var f := Fragment(p, r, k, limit, recalculate);
      && Parse(f) == Some(r.(payloadLen := FragmentSize(r, k, limit)))
      && InBounds(Parse(f).value, |f|)
      && Payload(f, Parse(f).value) == Slice(p, r, k, limit)
  {
    hide Start, FragmentSize, Parse, Fragment, SaysLength;
    ParseInBounds(p);
    SliceInBounds(r, k, limit);
    FragmentHeaders(p, r, k, limit, recalculate);
    var f := Fragment(p, r, k, limit, recalculate);
    Reparse(p, f, r, FragmentSize(r, k, limit));
    ParseInBounds(f);
  }

  /** TCP: the sequence number counts the payload before the slice. UDP: the datagram's own length. */
  lemma FragmentNumbers(p: seq<byte>, r: Layout, k: nat, limit: int, recalculate: bool)
    requires InBounds(r, |p|) && |p| <= MAX_FRAME && FragmentSize(r, k, limit) > 0
    ensures var f := Fragment(p, r, k, limit, recalculate);
      && (r.tcp ==> Be32(f, r.l4Offset + 4) == (Be32(p, r.l4Offset + 4) + Start(k, limit)) % TWO32)
      && (!r.tcp ==> Be16(f, r.l4Offset + 4) == 8 + FragmentSize(r, k, limit))
  {
    hide Start, FragmentSize, WithIpLength, WithIpChecksum, WithTransportField, WithTransportChecksum;
    SliceInBounds(r, k, limit);
    var f0 := Copied(p, r, k, limit);
    var f1 := WithIpLength(f0, r);
    IpLengthStep(f0, r);
    var f2 := if recalculate && r.ipv4 then WithIpChecksum(f1, r) else f1;
    if recalculate && r.ipv4 {
      IpChecksumStep(f1, r);
    }
    TransportFieldStep(f2, r, Start(k, limit));
    var f3 := WithTransportField(f2, r, Start(k, limit));
    if recalculate {
      TransportChecksumFrame(f3, r);
    }
    var f4 := Fragment(p, r, k, limit, recalculate);
    assert f4[r.l4Offset + 4..r.l4Offset + 6] == f3[r.l4Offset + 4..r.l4Offset + 6];
    if r.tcp {
      assert Be32(f2, r.l4Offset + 4) == Be32(p, r.l4Offset + 4);
      assert Be32(f4, r.l4Offset + 4) == Be32(f3, r.l4Offset + 4);
    } else {
      assert Be16(f4, r.l4Offset + 4) == Be16(f3, r.l4Offset + 4);
    }
  }

  /** With recalculation the sums over the IPv4 header and over the segment with its pseudo header are right. */
  lemma RecalculatedSums(p: seq<byte>, r: Layout, k: nat, limit: int)
    requires InBounds(r, |p|) && |p| <= MAX_FRAME && FragmentSize(r, k, limit) > 0
    ensures var f := Fragment(p, r, k, limit, true);
      && (r.ipv4 ==> SumsToOnes(IpHeader(f, r))) && SumsToOnes(Protected(f, r))
      && (!r.tcp ==> Be16(f, r.l4Offset + 6) != 0)
  {
    hide Start, FragmentSize, WithIpLength, WithIpChecksum, WithTransportField, WithTransportChecksum, WordSum, Fold, Pseudo;
    SliceInBounds(r, k, limit);
    var f1 := WithIpLength(Copied(p, r, k, limit), r);
    var f2 := if r.ipv4 then WithIpChecksum(f1, r) else f1;
    var f3 := WithTransportField(f2, r, Start(k, limit));
    TransportFieldStep(f2, r, Start(k, limit));
    TransportChecksumFrame(f3, r);
    TransportChecksumSum(f3, r);
    var f := WithTransportChecksum(f3, r);
    assert f == Fragment(p, r, k, limit, true);
    if r.ipv4 {
      IpChecksumStep(f1, r);
      assert IpHeader(f, r) == IpHeader(f2, r);
    }
  }

  // ---- what a receiver checks ------------------------------------------------------------------------

  /** A receiver that sums 16-bit words in network order finds no error. */
  ghost predicate Verifies(b: seq<byte>) {
    NetworkSum(b) < TWO32 && Fold(NetworkSum(b)) == 0xFFFF
  }

  /** The pseudo header of RFC 793 and RFC 768 over IPv4: addresses, zero, protocol, segment length. */
  function Pseudo4(f: seq<byte>, ip: nat, length: nat): seq<byte>
    requires ip + 20 <= |f| && length < 0x10000
  {
    f[ip + 12..ip + 20] + [0, f[ip + 9]] + PutBe16(length)
  }

  /** The pseudo header of section 8.1 of RFC 8200: addresses, 32-bit length, three zeros, next header. */
  function Pseudo6(f: seq<byte>, ip: nat, last: byte, length: nat): seq<byte>
    requires ip + 40 <= |f| && length < 0x1_0000_0000
  {
    f[ip + 8..ip + 40] + PutBe32(length) + [0, 0, 0, last]
  }

  /** The chain of extension headers leads to protocol `last` at l4, and the segment there is right for it. */
  ghost predicate SegmentVerifies6(f: seq<byte>, ip: nat, l4: nat, last: byte)
    requires ip + 40 <= l4 <= |f| <= MAX_FRAME
  {
    LeadsTo(f, f[ip + 6], ip + 40, last, l4) && Verifies(Pseudo6(f, ip, last, |f| - l4) + f[l4..])
  }

  /**
    What a receiver checks, on the bytes of the frame alone: the IPv4 header, and the segment with the pseudo
    header that the IP header calls for; over IPv6 the upper-layer protocol is the one that the chain of
    extension headers leads to. A UDP checksum is never left out.
   */
  ghost predicate ChecksumsVerify(f: seq<byte>, r: Layout) {
    && r.ipOffset + r.ipHdrLen <= r.l4Offset && r.l4Offset + 8 <= |f| <= MAX_FRAME
    && (r.ipv4 ==>
          && r.ipHdrLen >= 20 && Verifies(f[r.ipOffset..r.ipOffset + r.ipHdrLen])
          && Verifies(Pseudo4(f, r.ipOffset, |f| - r.l4Offset) + f[r.l4Offset..]))
    && (!r.ipv4 ==>
          && r.ipHdrLen == 40
          && exists last: byte :: SegmentVerifies6(f, r.ipOffset, r.l4Offset, last))
    && (!r.tcp ==> Be16(f, r.l4Offset + 6) != 0)
  }

  lemma OnesVerify(b: seq<byte>)
    requires |b| <= 65535 + 40 && SumsToOnes(b)
    ensures Verifies(b)
  {
    hide Fold, WordSum, NetworkSum;
    ByteOrderDoesNotMatter(b);
  }

  lemma WideLength(n: nat)
    requires n < 0x10000
    ensures PutBe32(n) == [0, 0] + PutBe16(n)
  {
    assert PutBe32(n) == PutBe16(n / 0x10000) + PutBe16(n % 0x10000);
  }

  /** The two forms of the pseudo header have the same sum. */
  lemma PseudoForms(a: seq<byte>, protocol: byte, n: nat, s: seq<byte>)
    requires |a| % 2 == 0 && n < 0x10000
    ensures WordSum(a + PutBe32(n) + [0, 0, 0, protocol] + s) == WordSum(a + [0, protocol] + PutBe16(n) + s)
  {
    hide WordSum, PutBe16, PutBe32;
    WideLength(n);
    var x, y := a + PutBe32(n) + [0, 0, 0, protocol] + s, a + [0, protocol] + PutBe16(n) + s;
    WordSumSplit(x, |a| + 8);
    WordSumSplit(y, |a| + 4);
    assert x[|a| + 8..] == s && y[|a| + 4..] == s;
    var u, v := x[..|a| + 8], y[..|a| + 4];
    WordSumSplit(u, |a|);
    WordSumSplit(v, |a|);
    assert u[..|a|] == a && v[..|a|] == a;
    TailSums(u[|a|..], v[|a|..], protocol, n);
  }

  lemma TailSums(u: seq<byte>, v: seq<byte>, protocol: byte, n: nat)
    requires n < 0x10000 && u == [0, 0] + PutBe16(n) + [0, 0, 0, protocol] && v == [0, protocol] + PutBe16(n)
    ensures WordSum(u) == WordSum(v)
  {
    Sum2(u, 0);
    Sum2(u, 2);
    Sum2(u, 4);
    Sum2(u, 6);
    Sum2(v, 0);
    Sum2(v, 2);
    assert u[0..] == u && v[0..] == v && u[8..] == [] && v[4..] == [];
  }

  /** The protocol a parsed frame names. */
  lemma ProtocolIsNamed(f: seq<byte>, r: Layout)
    requires Parse(f) == Some(r)
    ensures r.ipv4 ==> r.ipOffset + 20 <= |f| && f[r.ipOffset + 9] == Protocol(r)
    ensures !r.ipv4 ==> r.ipOffset + 40 <= |f| && LeadsTo(f, f[r.ipOffset + 6], r.ipOffset + 40, Protocol(r), r.l4Offset)
  {
    hide Parse, LeadsTo;
    ParseMeans(f, r);
  }

  /** With recalculation every checksum of a fragment is right, for a receiver that knows nothing but its bytes. */
  lemma RecalculatedChecksumsVerify(p: seq<byte>, r: Layout, k: nat, limit: int)
    requires |p| <= MAX_FRAME && Parse(p) == Some(r) && FragmentSize(r, k, limit) > 0
    ensures InBounds(r, |p|) && ChecksumsVerify(Fragment(p, r, k, limit, true), r)
  {
    hide Start, FragmentSize, Fragment, Parse, WordSum, Verifies, LeadsTo, SumsToOnes, PutBe32;
    FragmentParses(p, r, k, limit, true);
    var f := Fragment(p, r, k, limit, true);
    ProtocolIsNamed(f, Parse(f).value);
    RecalculatedSums(p, r, k, limit);
    var n, s := |f| - r.l4Offset, f[r.l4Offset..];
    if r.ipv4 {
      OnesVerify(IpHeader(f, r));
      assert Protected(f, r) == Pseudo4(f, r.ipOffset, n) + s;
      OnesVerify(Protected(f, r));
    } else {
      var a, last := f[r.ipOffset + 8..r.ipOffset + 40], Protocol(r);
      PseudoForms(a, last, n, s);
      SameSums(Protected(f, r), Pseudo6(f, r.ipOffset, last, n) + s);
      OnesVerify(Pseudo6(f, r.ipOffset, last, n) + s);
      assert SegmentVerifies6(f, r.ipOffset, r.l4Offset, last);
    }
  }

  lemma SameSums(a: seq<byte>, b: seq<byte>)
    requires WordSum(a) == WordSum(b) && SumsToOnes(a)
    ensures SumsToOnes(b)
  {
  }

  /** Without recalculation the checksum fields are the packet's own. */
  lemma CopiedChecksums(p: seq<byte>, r: Layout, k: nat, limit: int)
    requires InBounds(r, |p|) && |p| <= MAX_FRAME && FragmentSize(r, k, limit) > 0
    ensures var f := Fragment(p, r, k, limit, false);
      && (r.ipv4 ==> Be16(f, r.ipOffset + 10) == Be16(p, r.ipOffset + 10))
      && Be16(f, r.l4Offset + CheckAt(r)) == Be16(p, r.l4Offset + CheckAt(r))
  {
    hide Start, FragmentSize, WithIpLength, WithTransportField;
    SliceInBounds(r, k, limit);
    var f0 := Copied(p, r, k, limit);
    IpLengthStep(f0, r);
    TransportFieldStep(WithIpLength(f0, r), r, Start(k, limit));
  }

  // ---- all fragments -------------------------------------------------------------------------------

  /** The payloads of the first m fragments, one after the other. */
  function Carried(p: seq<byte>, r: Layout, limit: int, recalculate: bool, m: nat): seq<byte>
    requires InBounds(r, |p|) && |p| <= MAX_FRAME && 0 < limit < r.payloadLen && m <= FragmentCount(r, limit)
  {
    if m == 0 then []
    else
      SizesAreRight(r, m - 1, limit);
      Carried(p, r, limit, recalculate, m - 1) + Fragment(p, r, m - 1, limit, recalculate)[r.payloadOffset..]
  }

  lemma CountIsExact(r: Layout, limit: int)
    requires 0 < limit < r.payloadLen
    ensures FragmentCount(r, limit) >= 2
    ensures Start(FragmentCount(r, limit) - 1, limit) < r.payloadLen <= Start(FragmentCount(r, limit), limit)
  {
    var c := FragmentCount(r, limit);
    Ceiling(r.payloadLen, limit, c);
  }

  lemma Ceiling(n: nat, d: nat, c: nat)
    requires 0 < d < n && c == (n + d - 1) / d
    ensures c >= 2 && (c - 1) * d < n <= c * d
  {
    var m := (n + d - 1) % d;
    assert n + d - 1 == c * d + m;
    assert (c - 1) * d == c * d - d;
    assert c * d >= n > d;
    assert c < 2 ==> c * d <= d;
  }

  /** Fragments exist, and are non-empty and at most `limit`, exactly below the count. */
  lemma SizesAreRight(r: Layout, k: nat, limit: int)
    requires 0 < limit < r.payloadLen
    ensures k < FragmentCount(r, limit) <==> FragmentSize(r, k, limit) > 0
    ensures k < FragmentCount(r, limit) ==>
              FragmentSize(r, k, limit) == Min(Start(k + 1, limit), r.payloadLen) - Start(k, limit) <= limit
  {
    CountIsExact(r, limit);
    var c := FragmentCount(r, limit);
    if k < c {
      Product(k, c - 1, limit);
    } else {
      Product(c, k, limit);
    }
    assert Start(k + 1, limit) == Start(k, limit) + limit;
  }

  lemma Product(a: nat, b: nat, limit: int)
    requires a <= b && 0 < limit
    ensures Start(a, limit) <= Start(b, limit)
  {
  }

  lemma CarriedStep(p: seq<byte>, r: Layout, limit: int, recalculate: bool, m: nat)
    requires InBounds(r, |p|) && |p| <= MAX_FRAME && 0 < limit < r.payloadLen && 0 < m <= FragmentCount(r, limit)
    ensures FragmentSize(r, m - 1, limit) > 0
    ensures Carried(p, r, limit, recalculate, m) == Carried(p, r, limit, recalculate, m - 1) + Slice(p, r, m - 1, limit)
  {
    hide Fragment, FragmentSize, FragmentCount, Start, Slice, Payload, SaysLength, SameHeaders;
    SizesAreRight(r, m - 1, limit);
    FragmentHeaders(p, r, m - 1, limit, recalculate);
  }

  lemma SliceJoins(p: seq<byte>, r: Layout, limit: int, k: nat)
    requires InBounds(r, |p|) && 0 < limit < r.payloadLen && k < FragmentCount(r, limit)
    ensures FragmentSize(r, k, limit) > 0 && 0 <= Start(k, limit) <= r.payloadLen && Start(k + 1, limit) >= 0
    ensures Payload(p, r)[..Start(k, limit)] + Slice(p, r, k, limit) == Payload(p, r)[..Min(Start(k + 1, limit), r.payloadLen)]
  {
    hide FragmentSize, FragmentCount, Start, Payload;
    SizesAreRight(r, k, limit);
    SliceInBounds(r, k, limit);
    JoinSlices(Payload(p, r), Start(k, limit), FragmentSize(r, k, limit));
  }

  lemma {:induction false} CarriedPrefix(p: seq<byte>, r: Layout, limit: int, recalculate: bool, m: nat)
    requires InBounds(r, |p|) && |p| <= MAX_FRAME && 0 < limit < r.payloadLen && m <= FragmentCount(r, limit)
    ensures Start(m, limit) >= 0 && Carried(p, r, limit, recalculate, m) == Payload(p, r)[..Min(Start(m, limit), r.payloadLen)]
  {
    hide Fragment, FragmentSize, FragmentCount, Slice, Payload;
    if m > 0 {
      hide Start;
      CarriedPrefix(p, r, limit, recalculate, m - 1);
      CarriedStep(p, r, limit, recalculate, m);
      SliceJoins(p, r, limit, m - 1);
    }
  }

  lemma JoinSlices(s: seq<byte>, a: nat, n: nat)
    requires a + n <= |s|
    ensures s[..a] + s[a..a + n] == s[..a + n]
  {
  }

  /** Together the fragments carry exactly the payload, once and in order. */
  lemma FragmentsCarryThePayload(p: seq<byte>, r: Layout, limit: int, recalculate: bool)
    requires InBounds(r, |p|) && |p| <= MAX_FRAME && 0 < limit < r.payloadLen
    ensures Carried(p, r, limit, recalculate, FragmentCount(r, limit)) == Payload(p, r)
  {
    hide Fragment, FragmentSize, FragmentCount, Start;
    CarriedPrefix(p, r, limit, recalculate, FragmentCount(r, limit));
    CountIsExact(r, limit);
  }

  lemma CarriedLength(p: seq<byte>, r: Layout, limit: int, recalculate: bool, k: nat)
    requires InBounds(r, |p|) && |p| <= MAX_FRAME && 0 < limit < r.payloadLen && k < FragmentCount(r, limit)
    ensures FragmentSize(r, k, limit) > 0 && |Carried(p, r, limit, recalculate, k)| == Start(k, limit)
  {
    hide Fragment, FragmentSize, FragmentCount, Start;
    SizesAreRight(r, k, limit);
    SliceInBounds(r, k, limit);
    CarriedPrefix(p, r, limit, recalculate, k);
  }

  /** TCP fragments continue each other: each starts where the data sent before it ends, modulo 2^32. */
  lemma SequenceNumbersContinue(p: seq<byte>, r: Layout, limit: int, recalculate: bool, k: nat)
    requires InBounds(r, |p|) && |p| <= MAX_FRAME && 0 < limit < r.payloadLen && r.tcp && k < FragmentCount(r, limit)
    ensures FragmentSize(r, k, limit) > 0
    ensures Be32(Fragment(p, r, k, limit, recalculate), r.l4Offset + 4)
         == (Be32(p, r.l4Offset + 4) + |Carried(p, r, limit, recalculate, k)|) % TWO32
  {
    hide Fragment, FragmentSize, FragmentCount, Start, Be32, Carried;
    CarriedLength(p, r, limit, recalculate, k);
    FragmentNumbers(p, r, k, limit, recalculate);
  }
}
