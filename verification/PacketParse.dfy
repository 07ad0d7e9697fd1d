/**
  Locating the transport payload of an Ethernet frame: VLAN tags, IPv4 or IPv6 with skipped extension
  headers, then TCP or UDP. `Parse` says what is found; `ParsePacket` is the scan with 16-bit offsets.
 */
module PacketParse {
  import opened Basics
  import opened Bytes

  const MAX_FRAME: nat := 65535
  const ETHERTYPE_IP: nat := 0x0800
  const ETHERTYPE_IPV6: nat := 0x86DD
  const TCP: byte := 6
  const UDP: byte := 17

  datatype Layout = Layout(
    ipv4: bool,
    tcp: bool,
    vlanOffset: Option<nat>,
    ipOffset: nat,
    ipHdrLen: nat,
    extLen: nat,
    l4Offset: nat,
    l4HdrLen: nat,
    payloadOffset: nat,
    payloadLen: nat)

  predicate IsVlan(etherType: nat) {
    etherType == 0x8100 || etherType == 0x88A8 || etherType == 0x9100 || etherType == 0x9200
  }

  /** Hop-by-hop options, routing and destination options: the extension headers that are skipped. */
  predicate IsExtension(nextHeader: byte) {
    nextHeader == 0 || nextHeader == 43 || nextHeader == 60
  }

  function Min(a: int, b: int): int { if a < b then a else b }

  function U16(x: nat): (r: nat)
    ensures x < 0x10000 ==> r == x
  {
    x % 0x10000
  }

  // ---- what a frame contains -----------------------------------------------------------------------

  /** The first type that is not a VLAN type, and where its header starts. */
  function SkipVlans(p: seq<byte>, etherType: nat, at: nat): (r: Option<(nat, nat)>)
    ensures r.Some? && at <= |p| ==> at <= r.value.1 <= |p|
    decreases |p| - at
  {
    if !IsVlan(etherType) then Some((etherType, at))
    else if |p| < at + 4 then None
    else SkipVlans(p, Be16(p, at + 2), at + 4)
  }

  function ExtensionLen(p: seq<byte>, at: nat): (n: nat)
    requires at + 2 <= |p|
    ensures 8 <= n <= 2048
  {
    (p[at + 1] as int + 1) * 8
  }

  /** The first header that is not a skipped extension, and where it starts. */
  function SkipExtensions(p: seq<byte>, nextHeader: byte, at: nat): (r: Option<(byte, nat)>)
    ensures r.Some? && at <= |p| ==> at <= r.value.1 <= |p|
    decreases |p| - at
  {
    if !IsExtension(nextHeader) then Some((nextHeader, at))
    else if |p| < at + 2 || |p| < at + ExtensionLen(p, at) then None
    else SkipExtensions(p, p[at], at + ExtensionLen(p, at))
  }

  /** Whether the segment is TCP, and the length of its header. */
  function Transport(p: seq<byte>, protocol: byte, at: nat): (r: Option<(bool, nat)>)
    ensures r.Some? ==> 8 <= r.value.1 <= 60 && at + r.value.1 <= |p|
    ensures r.Some? && r.value.0 ==> r.value.1 >= 20
  {
    if protocol == TCP then
      if |p| < at + 20 || p[at + 12] / 16 < 5 || |p| < at + p[at + 12] as int / 16 * 4 then None
      else Some((true, p[at + 12] as int / 16 * 4))
    else if protocol == UDP then
      if |p| < at + 8 then None else Some((false, 8))
    else None
  }

  /** An unfragmented IPv4 packet at `ip`. */
  function Parse4(p: seq<byte>, vlan: Option<nat>, ip: nat): Option<Layout> {
    if |p| < ip + 20 then None else
    var n := p[ip] as int % 16 * 4;
    if n < 20 || |p| < ip + n || Be16(p, ip + 6) % 0x4000 != 0 then None else
    match Transport(p, p[ip + 9], ip + n)
    case None => None
    case Some((tcp, m)) =>
      if Be16(p, ip + 2) < n + m then None
      else Some(Layout(true, tcp, vlan, ip, n, 0, ip + n, m, ip + n + m,
                       Min(Be16(p, ip + 2) - n - m, |p| - (ip + n + m))))
  }

  function Parse6(p: seq<byte>, vlan: Option<nat>, ip: nat): Option<Layout> {
    if |p| < ip + 40 then None else
    match SkipExtensions(p, p[ip + 6], ip + 40)
    case None => None
    case Some((protocol, l4)) =>
      match Transport(p, protocol, l4)
      case None => None
      case Some((tcp, m)) =>
        var ext := l4 - ip - 40;
        if Be16(p, ip + 4) < ext + m then None
        else Some(Layout(false, tcp, vlan, ip, 40, ext, l4, m, l4 + m,
                         Min(Be16(p, ip + 4) - ext - m, |p| - (l4 + m))))
  }

  function Parse(p: seq<byte>): Option<Layout> {
    if |p| < 14 then None else
    var vlan := if IsVlan(Be16(p, 12)) then Some(14) else None;
    match SkipVlans(p, Be16(p, 12), 14)
    case None => None
    case Some((etherType, ip)) =>
      if etherType == ETHERTYPE_IP then Parse4(p, vlan, ip)
      else if etherType == ETHERTYPE_IPV6 then Parse6(p, vlan, ip)
      else None
  }

  /** Where the parts of a layout lie: headers one after the other, all within a frame of n bytes. */
  predicate InBounds(r: Layout, n: nat) {
    && 14 <= r.ipOffset
    && (if r.ipv4 then 20 <= r.ipHdrLen <= 60 && r.extLen == 0 else r.ipHdrLen == 40)
    && r.l4Offset == r.ipOffset + r.ipHdrLen + r.extLen
    && (if r.tcp then 20 <= r.l4HdrLen <= 60 else r.l4HdrLen == 8)
    && r.payloadOffset == r.l4Offset + r.l4HdrLen
    && r.payloadOffset + r.payloadLen <= n
    && (r.vlanOffset.Some? ==> r.vlanOffset.value + 4 <= r.ipOffset)
  }

  lemma ParseInBounds(p: seq<byte>)
    ensures Parse(p).Some? ==> InBounds(Parse(p).value, |p|)
  {
    if Parse(p).Some? && IsVlan(Be16(p, 12)) {
      SkipVlansMoves(p, Be16(p, 12), 14);
    }
  }

  lemma SkipVlansMoves(p: seq<byte>, etherType: nat, at: nat)
    requires IsVlan(etherType) && at <= |p| && SkipVlans(p, etherType, at).Some?
    ensures SkipVlans(p, etherType, at).value.1 >= at + 4
  {
  }

  // ---- the scan ------------------------------------------------------------------------------------

  /** The VLAN loop of the scan. */
  method ScanVlans(p: seq<byte>) returns (etherType: nat, at: nat, vlan: Option<nat>, ok: bool)
    requires 14 <= |p| <= MAX_FRAME
    ensures ok == SkipVlans(p, Be16(p, 12), 14).Some?
    ensures ok ==> SkipVlans(p, Be16(p, 12), 14) == Some((etherType, at)) && at <= |p|
    ensures ok ==> vlan == if IsVlan(Be16(p, 12)) then Some(14) else None
  {
    etherType, at, vlan := Be16(p, 12), 14, None;
    while IsVlan(etherType)
      invariant at <= |p| && SkipVlans(p, etherType, at) == SkipVlans(p, Be16(p, 12), 14)
      invariant vlan == if at == 14 then None else Some(14)
      invariant at == 14 ==> etherType == Be16(p, 12)
      invariant at >= 14 && (at > 14 ==> IsVlan(Be16(p, 12)))
      decreases |p| - at
    {
      if |p| < at + 4 {
        return etherType, at, vlan, false;
      }
      if vlan == None {
        vlan := Some(at);
      }
      etherType := Be16(p, at + 2);
      at := U16(at + 4);
    }
    ok := true;
  }

  /** The extension loop of the scan. */
  method ScanExtensions(p: seq<byte>, first: byte, start: nat) returns (nextHeader: byte, at: nat, ext: nat, ok: bool)
    requires start <= |p| <= MAX_FRAME
    ensures ok == SkipExtensions(p, first, start).Some?
    ensures ok ==> SkipExtensions(p, first, start) == Some((nextHeader, at)) && ext == at - start && at <= |p|
  {
    hide U16, ExtensionLen;
    nextHeader, at, ext := first, start, 0;
    while IsExtension(nextHeader)
      invariant start <= at <= |p| && ext == at - start
      invariant SkipExtensions(p, nextHeader, at) == SkipExtensions(p, first, start)
      decreases |p| - at
    {
      if |p| < at + 2 {
        return nextHeader, at, ext, false;
      }
      var total := U16(ExtensionLen(p, at));
      if |p| < at + total {
        return nextHeader, at, ext, false;
      }
      nextHeader := p[at];
      at := U16(at + total);
      ext := U16(ext + total);
    }
    ok := true;
  }

  method ScanTransport(p: seq<byte>, protocol: byte, start: nat) returns (tcp: bool, len: nat, ok: bool)
    requires start <= |p| <= MAX_FRAME
    ensures ok == Transport(p, protocol, start).Some?
    ensures ok ==> Transport(p, protocol, start) == Some((tcp, len))
  {
    tcp, len := false, 0;
    if protocol == TCP {
      if |p| < start + 20 || p[start + 12] / 16 < 5 {
        return tcp, len, false;
      }
      tcp, len := true, p[start + 12] as int / 16 * 4;
      return tcp, len, |p| >= start + len;
    } else if protocol == UDP {
      return false, 8, |p| >= start + 8;
    } else {
      return tcp, len, false;
    }
  }

  /** The whole scan, with offsets and lengths held in 16 bits. */
  method ParsePacket(p: seq<byte>) returns (r: Option<Layout>)
    requires |p| <= MAX_FRAME
    ensures r == Parse(p)
  {
    if |p| < 14 {
      return None;
    }
    var etherType, ip, vlan, ok := ScanVlans(p);
    if !ok {
      return None;
    }
    if etherType == ETHERTYPE_IP {
      r := ScanIpv4(p, vlan, ip);
    } else if etherType == ETHERTYPE_IPV6 {
      r := ScanIpv6(p, vlan, ip);
    } else {
      r := None;
    }
  }

  method ScanIpv4(p: seq<byte>, vlan: Option<nat>, ip: nat) returns (r: Option<Layout>)
    requires ip <= |p| <= MAX_FRAME
    ensures r == Parse4(p, vlan, ip)
  {
    hide Transport, SkipVlans, SkipExtensions, U16, Be16;
    if |p| < ip + 20 {
      return None;
    }
    var n := p[ip] as int % 16 * 4;
    if n < 20 || |p| < ip + n {
      return None;
    }
    if Be16(p, ip + 6) % 0x4000 != 0 {
      return None;
    }
    var l4 := U16(ip + n);
    var tcp, m, ok := ScanTransport(p, p[ip + 9], l4);
    if !ok {
      return None;
    }
    var headers := U16(n + m);
    if Be16(p, ip + 2) < headers {
      return None;
    }
    var payloadOffset := U16(l4 + m);
    r := Some(Layout(true, tcp, vlan, ip, n, 0, l4, m, payloadOffset,
                     Min(Be16(p, ip + 2) - headers, U16(|p| - payloadOffset))));
  }

  method ScanIpv6(p: seq<byte>, vlan: Option<nat>, ip: nat) returns (r: Option<Layout>)
    requires ip <= |p| <= MAX_FRAME
    ensures r == Parse6(p, vlan, ip)
  {
    hide Transport, SkipVlans, SkipExtensions, U16, Be16;
    if |p| < ip + 40 {
      return None;
    }
    var protocol, l4, ext, ok := ScanExtensions(p, p[ip + 6], U16(ip + 40));
    if !ok {
      return None;
    }
    var tcp, m, found := ScanTransport(p, protocol, l4);
    if !found {
      return None;
    }
    if Be16(p, ip + 4) < ext + m {
      return None;
    }
    var payloadOffset := U16(l4 + m);
    r := Some(Layout(false, tcp, vlan, ip, 40, ext, l4, m, payloadOffset,
                     Min(Be16(p, ip + 4) - ext - m, U16(|p| - payloadOffset))));
  }

  // ---- parsing a frame with other lengths ----------------------------------------------------------

  /** The header bytes a splitter rewrites: lengths, checksums and the TCP sequence number. */
  predicate Rewritten(r: Layout, i: nat) {
    || (r.ipv4 && r.ipOffset + 2 <= i < r.ipOffset + 4)
    || (r.ipv4 && r.ipOffset + 10 <= i < r.ipOffset + 12)
    || (!r.ipv4 && r.ipOffset + 4 <= i < r.ipOffset + 6)
    || r.l4Offset + 4 <= i < r.l4Offset + 8
    || (r.tcp && r.l4Offset + 16 <= i < r.l4Offset + 18)
  }

  ghost predicate SameHeaders(p: seq<byte>, q: seq<byte>, r: Layout) {
    && r.payloadOffset <= |p| && r.payloadOffset <= |q|
    && forall i :: 0 <= i < r.payloadOffset && !Rewritten(r, i) ==> q[i] == p[i]
  }

  /** The length field of the IP header says that n payload bytes follow the headers. */
  predicate SaysLength(q: seq<byte>, r: Layout, n: nat)
    requires r.ipOffset + 6 <= |q|
  {
    if r.ipv4 then Be16(q, r.ipOffset + 2) == r.ipHdrLen + r.l4HdrLen + n
    else Be16(q, r.ipOffset + 4) == r.extLen + r.l4HdrLen + n
  }

  lemma {:induction false} SkipVlansSame(p: seq<byte>, q: seq<byte>, etherType: nat, at: nat)
    requires at <= |p| && SkipVlans(p, etherType, at).Some? && SkipVlans(p, etherType, at).value.1 <= |q|
    requires forall i :: at <= i < SkipVlans(p, etherType, at).value.1 ==> q[i] == p[i]
    ensures SkipVlans(q, etherType, at) == SkipVlans(p, etherType, at)
    decreases |p| - at
  {
    if IsVlan(etherType) {
      SkipVlansMoves(p, etherType, at);
      assert SkipVlans(p, etherType, at) == SkipVlans(p, Be16(p, at + 2), at + 4);
      SkipVlansSame(p, q, Be16(p, at + 2), at + 4);
    }
  }

  lemma {:induction false} SkipExtensionsSame(p: seq<byte>, q: seq<byte>, nextHeader: byte, at: nat)
    requires at <= |p| && SkipExtensions(p, nextHeader, at).Some? && SkipExtensions(p, nextHeader, at).value.1 <= |q|
    requires forall i :: at <= i < SkipExtensions(p, nextHeader, at).value.1 ==> q[i] == p[i]
    ensures SkipExtensions(q, nextHeader, at) == SkipExtensions(p, nextHeader, at)
    decreases |p| - at
  {
    if IsExtension(nextHeader) {
      var n := ExtensionLen(p, at);
      assert SkipExtensions(p, nextHeader, at) == SkipExtensions(p, p[at], at + n);
      assert q[at] == p[at] && q[at + 1] == p[at + 1];
      SkipExtensionsSame(p, q, p[at], at + n);
    }
  }

  lemma TransportSame(p: seq<byte>, q: seq<byte>, protocol: byte, at: nat)
    requires Transport(p, protocol, at).Some? && at + Transport(p, protocol, at).value.1 <= |q|
    requires protocol == TCP ==> q[at + 12] == p[at + 12]
    ensures Transport(q, protocol, at) == Transport(p, protocol, at)
  {
  }

  lemma Reparse4(p: seq<byte>, q: seq<byte>, vlan: Option<nat>, ip: nat, r: Layout, n: nat)
    requires 14 <= ip && Parse4(p, vlan, ip) == Some(r) && SameHeaders(p, q, r)
    requires |q| == r.payloadOffset + n && SaysLength(q, r, n)
    ensures Parse4(q, vlan, ip) == Some(r.(payloadLen := n))
  {
    hide Transport;
    assert q[ip] == p[ip] && q[ip + 6] == p[ip + 6] && q[ip + 7] == p[ip + 7] && q[ip + 9] == p[ip + 9];
    TransportFacts(p, p[ip + 9], r.l4Offset);
    TransportSame(p, q, p[ip + 9], r.l4Offset);
  }

  lemma TransportFacts(p: seq<byte>, protocol: byte, at: nat)
    requires Transport(p, protocol, at).Some?
    ensures Transport(p, protocol, at).value.0 <==> protocol == TCP
  {
  }

  lemma Reparse6(p: seq<byte>, q: seq<byte>, vlan: Option<nat>, ip: nat, r: Layout, n: nat)
    requires 14 <= ip && Parse6(p, vlan, ip) == Some(r) && SameHeaders(p, q, r)
    requires |q| == r.payloadOffset + n && SaysLength(q, r, n)
    ensures Parse6(q, vlan, ip) == Some(r.(payloadLen := n))
  {
    hide Transport, SkipExtensions;
    assert q[ip + 6] == p[ip + 6];
    SkipExtensionsSame(p, q, p[ip + 6], ip + 40);
    var protocol := SkipExtensions(p, p[ip + 6], ip + 40).value.0;
    TransportFacts(p, protocol, r.l4Offset);
    TransportSame(p, q, protocol, r.l4Offset);
  }

  /**
    A frame with the same headers, up to the rewritten fields, whose IP length says n parses to the
    same layout with a payload of n bytes.
   */
  lemma Reparse(p: seq<byte>, q: seq<byte>, r: Layout, n: nat)
    requires Parse(p) == Some(r) && SameHeaders(p, q, r)
    requires r.ipOffset + 6 <= |q| == r.payloadOffset + n && SaysLength(q, r, n)
    ensures Parse(q) == Some(r.(payloadLen := n))
  {
    hide SkipVlans, SkipExtensions, Transport, Parse4, Parse6;
    ParseInBounds(p);
    ParsedAt(p);
    assert q[12] == p[12] && q[13] == p[13];
    SkipVlansSame(p, q, Be16(p, 12), 14);
    if r.ipv4 {
      Reparse4(p, q, r.vlanOffset, r.ipOffset, r, n);
    } else {
      Reparse6(p, q, r.vlanOffset, r.ipOffset, r, n);
    }
  }

  lemma ParsedAt(p: seq<byte>)
    requires Parse(p).Some?
    ensures |p| >= 14
    ensures var r := Parse(p).value;
      && SkipVlans(p, Be16(p, 12), 14) == Some((if r.ipv4 then ETHERTYPE_IP else ETHERTYPE_IPV6, r.ipOffset))
      && r.vlanOffset == (if IsVlan(Be16(p, 12)) then Some(14) else None)
      && (r.ipv4 ==> Parse4(p, r.vlanOffset, r.ipOffset) == Some(r))
      && (!r.ipv4 ==> Parse6(p, r.vlanOffset, r.ipOffset) == Some(r))
  {
    hide SkipVlans, SkipExtensions, Transport;
  }
}
