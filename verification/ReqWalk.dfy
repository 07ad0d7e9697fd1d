/** The addresses and ports that request patterns are matched against: a walk over the headers of a frame. */
module ReqWalk {
  import opened Basics
  import opened Bytes
  import opened PacketParse
  import opened ReqParser

  // ---- the ends of a packet ------------------------------------------------------------------------

  /** What the walk over the headers has found so far; inner headers overwrite outer ones. */
  datatype Ends = Ends(hasIp: bool, hasPort: bool, src: Option<Address>, dst: Option<Address>, sport: nat, dport: nat)

  /** An address is known on both sides once an IP header was seen. */
  predicate Complete(e: Ends) { e.hasIp ==> e.src.Some? && e.dst.Some? }

  const NOTHING := Ends(false, false, None, None, 0, 0)

  function WalkEther(p: seq<byte>, at: nat, e: Ends): (r: Ends)
    requires Complete(e)
    ensures Complete(r)
    decreases |p| - at, 3
  {
    if |p| < at + 14 then e
    else
      match SkipVlans(p, Be16(p, at + 12), at + 14)
      case None => e
      case Some((etherType, ip)) =>
        if etherType == ETHERTYPE_IP then WalkIpv4(p, ip, e)
        else if etherType == ETHERTYPE_IPV6 then WalkIpv6(p, ip, e)
        else e
  }

  /** The header length is not checked here: even a zero length leads forward. */
  function WalkIpv4(p: seq<byte>, at: nat, e: Ends): (r: Ends)
    requires Complete(e)
    ensures Complete(r)
    decreases |p| - at, 2
  {
    if |p| < at + 20 then e
    else
      var found := Ends(true, e.hasPort, Some(V4(p[at + 12..at + 16])), Some(V4(p[at + 16..at + 20])), 0, 0);
      WalkTransport(p, p[at + 9], at + p[at] as int % 16 * 4, found)
  }

  /** Extension headers are not skipped here. */
  function WalkIpv6(p: seq<byte>, at: nat, e: Ends): (r: Ends)
    requires Complete(e)
    ensures Complete(r)
    decreases |p| - at, 2
  {
    if |p| < at + 40 then e
    else
      var found := Ends(true, e.hasPort, Some(V6(p[at + 8..at + 24])), Some(V6(p[at + 24..at + 40])), 0, 0);
      WalkTransport(p, p[at + 6], at + 40, found)
  }

  function WalkTransport(p: seq<byte>, protocol: byte, at: nat, e: Ends): (r: Ends)
    requires Complete(e)
    ensures Complete(r)
    decreases |p| - at, 1
  {
    if protocol == TCP && |p| >= at + 20 then e.(hasPort := true, sport := Be16(p, at), dport := Be16(p, at + 2))
    else if protocol == UDP && |p| >= at + 8 then
      var found := e.(hasPort := true, sport := Be16(p, at), dport := Be16(p, at + 2));
      // VXLAN on UDP ports 4700 to 4799: walk the inner frame if it could hold an IPv4 header
      if 4700 <= found.dport < 4800 && |p| >= at + 8 + 8 + 14 + 20 then WalkEther(p, at + 8 + 8, found) else found
    else e
  }

  /** Ends that agree on everything but whether a port was seen. */
  predicate SameEnds(a: Ends, b: Ends) {
    a.hasIp == b.hasIp && a.src == b.src && a.dst == b.dst && a.sport == b.sport && a.dport == b.dport
  }

  /**
    A walk either finds nothing and changes nothing, or its addresses and ports are all those of the frame
    itself, whatever was found outside it.
   */
  lemma {:induction false} InnerFrameDecides(p: seq<byte>, at: nat, e: Ends)
    requires Complete(e)
    ensures !WalkEther(p, at, NOTHING).hasIp ==> WalkEther(p, at, e) == e
    ensures WalkEther(p, at, NOTHING).hasIp ==> SameEnds(WalkEther(p, at, e), WalkEther(p, at, NOTHING))
    ensures WalkEther(p, at, e).hasPort <==> e.hasPort || WalkEther(p, at, NOTHING).hasPort
    decreases |p| - at, 3
  {
    hide WalkIpv4, WalkIpv6, WalkTransport;
    if |p| >= at + 14 && SkipVlans(p, Be16(p, at + 12), at + 14).Some? {
      var (etherType, ip) := SkipVlans(p, Be16(p, at + 12), at + 14).value;
      if etherType == ETHERTYPE_IP {
        Ipv4Decides(p, ip, e);
        Ipv4Decides(p, ip, NOTHING);
      } else if etherType == ETHERTYPE_IPV6 {
        Ipv6Decides(p, ip, e);
        Ipv6Decides(p, ip, NOTHING);
      }
    }
  }

  lemma {:induction false} Ipv4Decides(p: seq<byte>, at: nat, e: Ends)
    requires Complete(e)
    ensures |p| < at + 20 ==> WalkIpv4(p, at, e) == e
    ensures |p| >= at + 20 ==> WalkIpv4(p, at, e).hasIp && SameEnds(WalkIpv4(p, at, e), WalkIpv4(p, at, NOTHING))
    ensures WalkIpv4(p, at, e).hasPort <==> e.hasPort || WalkIpv4(p, at, NOTHING).hasPort
    decreases |p| - at, 2
  {
    hide WalkTransport;
    if |p| >= at + 20 {
      var found := Ends(true, e.hasPort, Some(V4(p[at + 12..at + 16])), Some(V4(p[at + 16..at + 20])), 0, 0);
      TransportDecides(p, p[at + 9], at + p[at] as int % 16 * 4, found);
    }
  }

  lemma {:induction false} Ipv6Decides(p: seq<byte>, at: nat, e: Ends)
    requires Complete(e)
    ensures |p| < at + 40 ==> WalkIpv6(p, at, e) == e
    ensures |p| >= at + 40 ==> WalkIpv6(p, at, e).hasIp && SameEnds(WalkIpv6(p, at, e), WalkIpv6(p, at, NOTHING))
    ensures WalkIpv6(p, at, e).hasPort <==> e.hasPort || WalkIpv6(p, at, NOTHING).hasPort
    decreases |p| - at, 2
  {
    hide WalkTransport;
    if |p| >= at + 40 {
      var found := Ends(true, e.hasPort, Some(V6(p[at + 8..at + 24])), Some(V6(p[at + 24..at + 40])), 0, 0);
      TransportDecides(p, p[at + 6], at + 40, found);
    }
  }

  /** A port seen before makes no difference but for the flag. */
  lemma {:induction false} TransportDecides(p: seq<byte>, protocol: byte, at: nat, e: Ends)
    requires e.hasIp && Complete(e)
    ensures var other := e.(hasPort := false);
      && WalkTransport(p, protocol, at, e).hasIp
      && SameEnds(WalkTransport(p, protocol, at, e), WalkTransport(p, protocol, at, other))
      && (WalkTransport(p, protocol, at, e).hasPort <==> e.hasPort || WalkTransport(p, protocol, at, other).hasPort)
    decreases |p| - at, 1
  {
    hide WalkEther;
    if protocol == UDP && |p| >= at + 8 {
      var found := e.(hasPort := true, sport := Be16(p, at), dport := Be16(p, at + 2));
      if 4700 <= found.dport < 4800 && |p| >= at + 8 + 8 + 14 + 20 {
        InnerFrameDecides(p, at + 16, found);
      }
    }
  }

  /** The source (i = 0) or destination (i = 1) address of a parsed packet. */
  function EndOf(p: seq<byte>, r: Layout, i: nat): Address
    requires i < 2 && r.ipOffset + (if r.ipv4 then 20 else 40) <= |p|
  {
    if r.ipv4 then var at := r.ipOffset + 12 + 4 * i; V4(p[at..at + 4])
    else var at := r.ipOffset + 8 + 16 * i; V6(p[at..at + 16])
  }

  /**
    The walk and the splitter's parser look at the same transport header exactly when no IPv6 extension
    header lies before it. (A UDP packet on a VXLAN port is walked further in.)
   */
  lemma WalkSeesTheParsedPorts(p: seq<byte>)
    requires Parse(p).Some?
    requires var r := Parse(p).value; InBounds(r, |p|) && (r.tcp || !(4700 <= Be16(p, r.l4Offset + 2) < 4800))
    ensures var r := Parse(p).value;
      var e := WalkEther(p, 0, NOTHING);
      && e.hasIp && e.src == Some(EndOf(p, r, 0)) && e.dst == Some(EndOf(p, r, 1))
      && (e.hasPort <==> r.extLen == 0)
      && (e.hasPort ==> e.sport == Be16(p, r.l4Offset) && e.dport == Be16(p, r.l4Offset + 2))
  {
    hide SkipVlans, SkipExtensions, Parse, Parse4, Parse6, WalkIpv4, WalkIpv6;
    ParsedAt(p);
    var r := Parse(p).value;
    if r.ipv4 {
      Ipv4SeesThePorts(p, r);
    } else {
      Ipv6SeesThePorts(p, r);
    }
  }

  lemma Ipv4SeesThePorts(p: seq<byte>, r: Layout)
    requires Parse4(p, r.vlanOffset, r.ipOffset) == Some(r) && r.ipv4 && InBounds(r, |p|)
    requires r.tcp || !(4700 <= Be16(p, r.l4Offset + 2) < 4800)
    ensures var e := WalkIpv4(p, r.ipOffset, NOTHING);
      && e.hasIp && e.src == Some(EndOf(p, r, 0)) && e.dst == Some(EndOf(p, r, 1))
      && e.hasPort && r.extLen == 0 && e.sport == Be16(p, r.l4Offset) && e.dport == Be16(p, r.l4Offset + 2)
  {
    TransportFacts(p, p[r.ipOffset + 9], r.l4Offset);
  }

  lemma Ipv6SeesThePorts(p: seq<byte>, r: Layout)
    requires Parse6(p, r.vlanOffset, r.ipOffset) == Some(r) && !r.ipv4 && InBounds(r, |p|)
    requires r.tcp || !(4700 <= Be16(p, r.l4Offset + 2) < 4800)
    ensures var e := WalkIpv6(p, r.ipOffset, NOTHING);
      && e.hasIp && e.src == Some(EndOf(p, r, 0)) && e.dst == Some(EndOf(p, r, 1))
      && (e.hasPort <==> r.extLen == 0)
      && (e.hasPort ==> e.sport == Be16(p, r.l4Offset) && e.dport == Be16(p, r.l4Offset + 2))
  {
    hide SkipExtensions;
    ExtensionsMove(p, p[r.ipOffset + 6], r.ipOffset + 40);
  }

  lemma ExtensionsMove(p: seq<byte>, nextHeader: byte, at: nat)
    requires at <= |p| && SkipExtensions(p, nextHeader, at).Some?
    ensures var (last, end) := SkipExtensions(p, nextHeader, at).value;
      (end == at <==> !IsExtension(nextHeader)) && (end == at ==> last == nextHeader)
  {
  }

  // ---- tunnels -------------------------------------------------------------------------------------

  lemma {:induction false} VlansShift(p: seq<byte>, k: nat, etherType: nat, at: nat)
    requires k <= |p|
    ensures var s := SkipVlans(p[k..], etherType, at);
      SkipVlans(p, etherType, k + at) == if s.Some? then Some((s.value.0, k + s.value.1)) else None
    decreases |p| - k - at
  {
    var q := p[k..];
    if IsVlan(etherType) && |q| >= at + 4 {
      assert q[at + 2] == p[k + at + 2] && q[at + 3] == p[k + at + 3];
      VlansShift(p, k, Be16(q, at + 2), at + 4);
    }
  }

  /** A walk depends only on the bytes from where it starts. */
  lemma {:induction false} WalkShifts(p: seq<byte>, k: nat, at: nat, e: Ends)
    requires k <= |p| && Complete(e)
    ensures WalkEther(p, k + at, e) == WalkEther(p[k..], at, e)
    decreases |p| - k - at, 3
  {
    hide WalkTransport, SkipVlans;
    var q := p[k..];
    if |q| >= at + 14 {
      assert q[at + 12] == p[k + at + 12] && q[at + 13] == p[k + at + 13];
      VlansShift(p, k, Be16(q, at + 12), at + 14);
      if SkipVlans(q, Be16(q, at + 12), at + 14).Some? {
        var (etherType, ip) := SkipVlans(q, Be16(q, at + 12), at + 14).value;
        if etherType == ETHERTYPE_IP && |q| >= ip + 20 {
          Ipv4Shifts(p, k, ip, e);
        } else if etherType == ETHERTYPE_IPV6 && |q| >= ip + 40 {
          Ipv6Shifts(p, k, ip, e);
        }
      }
    }
  }

  lemma {:induction false} Ipv4Shifts(p: seq<byte>, k: nat, at: nat, e: Ends)
    requires k + at + 20 <= |p| && Complete(e)
    ensures WalkIpv4(p, k + at, e) == WalkIpv4(p[k..], at, e)
    decreases |p| - k - at, 2
  {
    hide WalkTransport;
    var q := p[k..];
    assert q[at] == p[k + at] && q[at + 9] == p[k + at + 9];
    assert q[at + 12..at + 16] == p[k + at + 12..k + at + 16] && q[at + 16..at + 20] == p[k + at + 16..k + at + 20];
    var found := Ends(true, e.hasPort, Some(V4(q[at + 12..at + 16])), Some(V4(q[at + 16..at + 20])), 0, 0);
    TransportShifts(p, k, q[at + 9], at + q[at] as int % 16 * 4, found);
  }

  lemma {:induction false} Ipv6Shifts(p: seq<byte>, k: nat, at: nat, e: Ends)
    requires k + at + 40 <= |p| && Complete(e)
    ensures WalkIpv6(p, k + at, e) == WalkIpv6(p[k..], at, e)
    decreases |p| - k - at, 2
  {
    hide WalkTransport;
    var q := p[k..];
    assert q[at + 6] == p[k + at + 6];
    assert q[at + 8..at + 24] == p[k + at + 8..k + at + 24] && q[at + 24..at + 40] == p[k + at + 24..k + at + 40];
    var found := Ends(true, e.hasPort, Some(V6(q[at + 8..at + 24])), Some(V6(q[at + 24..at + 40])), 0, 0);
    TransportShifts(p, k, q[at + 6], at + 40, found);
  }

  lemma {:induction false} TransportShifts(p: seq<byte>, k: nat, protocol: byte, at: nat, e: Ends)
    requires k <= |p| && Complete(e)
    ensures WalkTransport(p, protocol, k + at, e) == WalkTransport(p[k..], protocol, at, e)
    decreases |p| - k - at, 1
  {
    hide WalkEther;
    var q := p[k..];
    if |q| >= at + 8 {
      assert q[at] == p[k + at] && q[at + 1] == p[k + at + 1] && q[at + 2] == p[k + at + 2] && q[at + 3] == p[k + at + 3];
      if protocol == UDP && 4700 <= Be16(q, at + 2) < 4800 && |q| >= at + 50 {
        WalkShifts(p, k, at + 16, e.(hasPort := true, sport := Be16(q, at), dport := Be16(q, at + 2)));
      }
    }
  }

  /**
    Inside a tunnel: behind a UDP header to a VXLAN port and the 8-byte VXLAN header, a frame with an IP header
    gives the addresses and ports that it gives on its own.
   */
  lemma TunnelledFrameDecides(p: seq<byte>)
    requires Parse(p).Some? && InBounds(Parse(p).value, |p|)
    requires var r := Parse(p).value;
      && !r.tcp && r.extLen == 0 && 4700 <= Be16(p, r.l4Offset + 2) < 4800 && |p| >= r.l4Offset + 50
      && WalkEther(p[r.l4Offset + 16..], 0, NOTHING).hasIp
    ensures SameEnds(WalkEther(p, 0, NOTHING), WalkEther(p[Parse(p).value.l4Offset + 16..], 0, NOTHING))
  {
    hide SkipVlans, SkipExtensions, Parse, Parse4, Parse6, WalkIpv4, WalkIpv6, WalkEther;
    var r := Parse(p).value;
    var at := r.l4Offset;
    WalkShifts(p, at + 16, 0, NOTHING);
    WalkReachesTransport(p, r);
    var e := FoundBefore(p, r);
    InnerFrameDecides(p, at + 16, e.(hasPort := true, sport := Be16(p, at), dport := Be16(p, at + 2)));
  }

  /** What the walk has found at the transport header of a parsed frame. */
  function FoundBefore(p: seq<byte>, r: Layout): (e: Ends)
    requires r.ipOffset + (if r.ipv4 then 20 else 40) <= |p|
    ensures Complete(e)
  {
    Ends(true, false, Some(EndOf(p, r, 0)), Some(EndOf(p, r, 1)), 0, 0)
  }

  lemma WalkReachesTransport(p: seq<byte>, r: Layout)
    requires Parse(p) == Some(r) && InBounds(r, |p|) && r.extLen == 0
    ensures WalkEther(p, 0, NOTHING) == WalkTransport(p, if r.tcp then TCP else UDP, r.l4Offset, FoundBefore(p, r))
  {
    hide SkipVlans, SkipExtensions, Parse, WalkTransport;
    ParsedAt(p);
    if r.ipv4 {
      TransportFacts(p, p[r.ipOffset + 9], r.l4Offset);
    } else {
      ExtensionsMove(p, p[r.ipOffset + 6], r.ipOffset + 40);
      TransportFacts(p, p[r.ipOffset + 6], r.l4Offset);
    }
  }
}
