/**
  The direction of a packet, and both directions of a conversation. The reply to a frame is the frame with
  the addresses and ports that the walk finds exchanged in place, also inside a VXLAN tunnel.
 */
module ReqReply {
  import opened Basics
  import opened Bytes
  import opened Outputs
  import opened PacketParse
  import opened ReqParser
  import opened ReqMatch
  import opened ReqWalk

  // ---- direction -----------------------------------------------------------------------------------

  const OUTGOING: int := 2
  const INCOMING: int := 1

  /** A packet goes out if its source matches, else comes in if its destination does. */
  function Direction(n: Node, p: seq<byte>): int {
    var e := WalkEther(p, 0, NOTHING);
    if !e.hasIp then DIR_UNKNOWN
    else if Matches(n, e.src.value, e.sport) then OUTGOING
    else if Matches(n, e.dst.value, e.dport) then INCOMING
    else DIR_UNKNOWN
  }

  // ---- where the walk finds the ends -----------------------------------------------------------------

  /** The innermost IP header, and the ports behind it if there are any. */
  datatype Spot = Spot(ipv4: bool, ip: nat, ports: Option<nat>)

  predicate Tunnels(p: seq<byte>, at: nat)
    requires at + 8 <= |p|
  {
    4700 <= Be16(p, at + 2) < 4800 && |p| >= at + 8 + 8 + 14 + 20
  }

  function SpotEther(p: seq<byte>, at: nat): (s: Option<Spot>)
    ensures s.Some? ==> at + 14 <= s.value.ip && Inside(p, s.value)
    decreases |p| - at, 3
  {
    if |p| < at + 14 then None
    else
      match SkipVlans(p, Be16(p, at + 12), at + 14)
      case None => None
      case Some((etherType, ip)) =>
        if etherType == ETHERTYPE_IP && |p| >= ip + 20 then
          Some(SpotTransport(p, p[ip + 9], ip + p[ip] as int % 16 * 4, true, ip))
        else if etherType == ETHERTYPE_IPV6 && |p| >= ip + 40 then Some(SpotTransport(p, p[ip + 6], ip + 40, false, ip))
        else None
  }

  function SpotTransport(p: seq<byte>, protocol: byte, at: nat, ipv4: bool, ip: nat): (s: Spot)
    requires ip <= at && ip + (if ipv4 then 20 else 40) <= |p| && (!ipv4 ==> at == ip + 40)
    ensures ((s.ip == ip && s.ipv4 == ipv4) || s.ip >= ip + 30) && Inside(p, s)
    decreases |p| - at, 1
  {
    if protocol == TCP && |p| >= at + 20 then Spot(ipv4, ip, Some(at))
    else if protocol == UDP && |p| >= at + 8 then
      if Tunnels(p, at) && SpotEther(p, at + 16).Some? then SpotEther(p, at + 16).value else Spot(ipv4, ip, Some(at))
    else Spot(ipv4, ip, None)
  }

  predicate Inside(p: seq<byte>, s: Spot) {
    && s.ip + (if s.ipv4 then 20 else 40) <= |p|
    && (s.ports.Some? ==> s.ip <= s.ports.value && s.ports.value + 8 <= |p| && (!s.ipv4 ==> s.ports.value == s.ip + 40))
  }

  /** The source (i = 0) or destination (i = 1) address and port at a spot. */
  function AddressAt(p: seq<byte>, s: Spot, i: nat): Address
    requires Inside(p, s) && i < 2
  {
    if s.ipv4 then var at := s.ip + 12 + 4 * i; V4(p[at..at + 4])
    else var at := s.ip + 8 + 16 * i; V6(p[at..at + 16])
  }

  function PortAt(p: seq<byte>, s: Spot, i: nat): nat
    requires Inside(p, s) && i < 2
  {
    if s.ports.Some? then Be16(p, s.ports.value + 2 * i) else 0
  }

  predicate EndsAre(e: Ends, p: seq<byte>, s: Spot)
    requires Inside(p, s)
  {
    && e.hasIp && e.src == Some(AddressAt(p, s, 0)) && e.dst == Some(AddressAt(p, s, 1))
    && e.sport == PortAt(p, s, 0) && e.dport == PortAt(p, s, 1)
  }

  /** What the walk has found when it leaves an IP header. */
  function FoundAt(p: seq<byte>, ipv4: bool, ip: nat): (e: Ends)
    requires ip + (if ipv4 then 20 else 40) <= |p|
    ensures Complete(e) && EndsAre(e, p, Spot(ipv4, ip, None))
  {
    if ipv4 then Ends(true, false, Some(V4(p[ip + 12..ip + 16])), Some(V4(p[ip + 16..ip + 20])), 0, 0)
    else Ends(true, false, Some(V6(p[ip + 8..ip + 24])), Some(V6(p[ip + 24..ip + 40])), 0, 0)
  }

  /** The walk finds an IP header exactly when there is a spot, and then its ends are those of the spot. */
  lemma {:induction false} WalkFindsTheSpot(p: seq<byte>, at: nat)
    ensures WalkEther(p, at, NOTHING).hasIp <==> SpotEther(p, at).Some?
    ensures SpotEther(p, at).Some? ==> EndsAre(WalkEther(p, at, NOTHING), p, SpotEther(p, at).value)
    decreases |p| - at, 3
  {
    hide SpotTransport, WalkTransport, SkipVlans, EndsAre;
    if |p| >= at + 14 && SkipVlans(p, Be16(p, at + 12), at + 14).Some? {
      var (etherType, ip) := SkipVlans(p, Be16(p, at + 12), at + 14).value;
      if etherType == ETHERTYPE_IP && |p| >= ip + 20 {
        TransportFindsTheSpot(p, p[ip + 9], ip + p[ip] as int % 16 * 4, true, ip, FoundAt(p, true, ip));
      } else if etherType == ETHERTYPE_IPV6 && |p| >= ip + 40 {
        TransportFindsTheSpot(p, p[ip + 6], ip + 40, false, ip, FoundAt(p, false, ip));
      }
    }
  }

  lemma {:induction false} TransportFindsTheSpot(p: seq<byte>, protocol: byte, at: nat, ipv4: bool, ip: nat, e: Ends)
    requires ip <= at && ip + (if ipv4 then 20 else 40) <= |p| && (!ipv4 ==> at == ip + 40)
    requires EndsAre(e, p, Spot(ipv4, ip, None)) && Complete(e)
    ensures var w := WalkTransport(p, protocol, at, e); w.hasIp && EndsAre(w, p, SpotTransport(p, protocol, at, ipv4, ip))
    decreases |p| - at, 1
  {
    hide WalkEther, SpotEther;
    if protocol == UDP && |p| >= at + 8 && Tunnels(p, at) {
      var found := e.(hasPort := true, sport := Be16(p, at), dport := Be16(p, at + 2));
      InnerFrameDecides(p, at + 16, found);
      WalkFindsTheSpot(p, at + 16);
    }
  }

  // ---- the reply ---------------------------------------------------------------------------------------

  /** The ends do not overlap, and the source port of a UDP packet is not itself a VXLAN port. */
  predicate Reversible(p: seq<byte>, s: Spot)
    requires Inside(p, s)
  {
    && (s.ipv4 && s.ports.Some? ==> s.ports.value >= s.ip + 20)
    && (s.ports.Some? && p[s.ip + if s.ipv4 then 9 else 6] == UDP ==> !(4700 <= PortAt(p, s, 0) < 4800))
  }

  /** The byte that takes the place of byte i. */
  function Twin(s: Spot, i: nat): nat {
    var src, w := s.ip + (if s.ipv4 then 12 else 8), if s.ipv4 then 4 else 16;
    if src <= i < src + w then i + w
    else if src + w <= i < src + 2 * w then i - w
    else if s.ports.Some? && s.ports.value <= i < s.ports.value + 2 then i + 2
    else if s.ports.Some? && s.ports.value + 2 <= i < s.ports.value + 4 then i - 2
    else i
  }

  /** The frame with its two ends exchanged. */
  function Mirrored(p: seq<byte>, s: Spot): (q: seq<byte>)
    requires Inside(p, s)
    ensures |q| == |p|
  {
    seq(|p|, i requires 0 <= i < |p| => p[Twin(s, i)])
  }

  lemma MirroredTwice(p: seq<byte>, s: Spot)
    requires Inside(p, s) && (s.ipv4 && s.ports.Some? ==> s.ports.value >= s.ip + 20)
    ensures Mirrored(Mirrored(p, s), s) == p
  {
  }

  lemma MirroredAddresses(p: seq<byte>, s: Spot)
    requires Inside(p, s)
    ensures var q := Mirrored(p, s);
      AddressAt(q, s, 0) == AddressAt(p, s, 1) && AddressAt(q, s, 1) == AddressAt(p, s, 0)
  {
    var src, w, q := s.ip + (if s.ipv4 then 12 else 8), if s.ipv4 then 4 else 16, Mirrored(p, s);
    assert q[src..src + w] == p[src + w..src + 2 * w];
    assert q[src + w..src + 2 * w] == p[src..src + w];
  }

  lemma MirroredEnds(p: seq<byte>, s: Spot)
    requires Inside(p, s) && Reversible(p, s)
    ensures var q := Mirrored(p, s);
      && AddressAt(q, s, 0) == AddressAt(p, s, 1) && AddressAt(q, s, 1) == AddressAt(p, s, 0)
      && PortAt(q, s, 0) == PortAt(p, s, 1) && PortAt(q, s, 1) == PortAt(p, s, 0)
  {
    MirroredAddresses(p, s);
    hide AddressAt;
  }

  /** The headers that lead the walk to a spot are the same in both frames, and it goes no further. */
  ghost predicate LeadsHere(p: seq<byte>, q: seq<byte>, s: Spot) {
    && |q| == |p| && Inside(p, s)
    && (forall i :: 0 <= i < s.ip + (if s.ipv4 then 12 else 8) ==> q[i] == p[i])
    && (s.ports.Some? && p[s.ip + if s.ipv4 then 9 else 6] == UDP ==> !(4700 <= PortAt(q, s, 1) < 4800))
  }

  lemma {:induction false} SameSpot(p: seq<byte>, q: seq<byte>, at: nat, s: Spot)
    requires SpotEther(p, at) == Some(s) && LeadsHere(p, q, s)
    ensures SpotEther(q, at) == Some(s)
    decreases |p| - at, 3
  {
    hide SpotTransport, SkipVlans;
    var (etherType, ip) := SkipVlans(p, Be16(p, at + 12), at + 14).value;
    assert ip <= s.ip;
    SkipVlansSame(p, q, Be16(p, at + 12), at + 14);
    assert q[ip] == p[ip] && q[ip + 6] == p[ip + 6];
    if etherType == ETHERTYPE_IP {
      assert q[ip + 9] == p[ip + 9];
      SameTransportSpot(p, q, p[ip + 9], ip + p[ip] as int % 16 * 4, true, ip);
    } else {
      SameTransportSpot(p, q, p[ip + 6], ip + 40, false, ip);
    }
  }

  lemma {:induction false} SameTransportSpot(p: seq<byte>, q: seq<byte>, protocol: byte, at: nat, ipv4: bool, ip: nat)
    requires ip <= at && ip + (if ipv4 then 20 else 40) <= |p| && (!ipv4 ==> at == ip + 40)
    requires protocol == p[ip + if ipv4 then 9 else 6]
    requires LeadsHere(p, q, SpotTransport(p, protocol, at, ipv4, ip))
    ensures SpotTransport(q, protocol, at, ipv4, ip) == SpotTransport(p, protocol, at, ipv4, ip)
    decreases |p| - at, 1
  {
    hide SpotEther;
    if protocol == UDP && |p| >= at + 8 && Tunnels(p, at) && SpotEther(p, at + 16).Some? {
      assert q[at + 2] == p[at + 2] && q[at + 3] == p[at + 3];
      SameSpot(p, q, at + 16, SpotEther(p, at + 16).value);
    }
  }

  /** The reply of a packet: what the walk finds, exchanged. */
  predicate IsReply(p: seq<byte>, q: seq<byte>) {
    var a, b := WalkEther(p, 0, NOTHING), WalkEther(q, 0, NOTHING);
    a.hasIp && b.hasIp && b.src == a.dst && b.dst == a.src && b.sport == a.dport && b.dport == a.sport
  }

  /** Exchanging the ends in place gives a reply, and the reply to it is the frame again. */
  lemma MirroredIsReply(p: seq<byte>)
    requires SpotEther(p, 0).Some? && Reversible(p, SpotEther(p, 0).value)
    ensures var s := SpotEther(p, 0).value;
      var q := Mirrored(p, s);
      && IsReply(p, q) && SpotEther(q, 0) == Some(s) && Mirrored(q, s) == p
  {
    hide SpotEther, WalkEther, Mirrored;
    var s := SpotEther(p, 0).value;
    var q := Mirrored(p, s);
    MirroredEnds(p, s);
    MirroredTwice(p, s);
    HeadersStay(p, s);
    SameSpot(p, q, 0, s);
    WalkFindsTheSpot(p, 0);
    WalkFindsTheSpot(q, 0);
  }

  lemma HeadersStay(p: seq<byte>, s: Spot)
    requires Inside(p, s) && Reversible(p, s)
    ensures LeadsHere(p, Mirrored(p, s), s)
  {
    MirroredEnds(p, s);
  }

  /** A packet and its reply are told apart exactly when the pattern matches one end only. */
  lemma ReplyGoesTheOtherWay(n: Node, p: seq<byte>)
    requires SpotEther(p, 0).Some? && Reversible(p, SpotEther(p, 0).value)
    ensures var s := SpotEther(p, 0).value;
      var q := Mirrored(p, s);
      var out, in_ := Matches(n, AddressAt(p, s, 0), PortAt(p, s, 0)), Matches(n, AddressAt(p, s, 1), PortAt(p, s, 1));
      && (Direction(n, p) != Direction(n, q) <==> out != in_)
      && (Direction(n, p) == OUTGOING && Direction(n, q) == INCOMING <==> out && !in_)
      && (Direction(n, p) == OUTGOING <==> out) && (Direction(n, p) == INCOMING <==> !out && in_)
      && (Direction(n, p) == DIR_UNKNOWN <==> !out && !in_)
  {
    hide Matches, WalkEther, SpotEther, Mirrored;
    MirroredIsReply(p);
    WalkFindsTheSpot(p, 0);
  }
}
