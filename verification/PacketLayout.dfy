/**
  What the parser's answer means, without following its loops: a tag stack of n VLAN types, a chain of
  extension headers that starts where the IPv6 header ends, and the header fields where they must be.
 */
module PacketLayout {
  import opened Basics
  import opened Bytes
  import opened PacketParse

  // ---- VLAN tags -----------------------------------------------------------------------------------

  /** The type after k tags. */
  function TypeAt(p: seq<byte>, k: nat): nat
    requires 14 + 4 * k <= |p|
  {
    Be16(p, 12 + 4 * k)
  }

  /** Exactly n tags lie between the addresses and the type of the payload. */
  ghost predicate TagStack(p: seq<byte>, n: nat) {
    && 14 + 4 * n <= |p| && !IsVlan(TypeAt(p, n))
    && forall k :: 0 <= k < n ==> IsVlan(TypeAt(p, k))
  }

  lemma {:induction false} SkipsTheStack(p: seq<byte>, k: nat, n: nat)
    requires TagStack(p, n) && k <= n
    ensures SkipVlans(p, TypeAt(p, k), 14 + 4 * k) == Some((TypeAt(p, n), 14 + 4 * n))
    decreases n - k
  {
    if k < n {
      assert TypeAt(p, k + 1) == Be16(p, 14 + 4 * k + 2);
      SkipsTheStack(p, k + 1, n);
    }
  }

  lemma {:induction false} FindsTheStack(p: seq<byte>, k: nat) returns (n: nat)
    requires 14 + 4 * k <= |p| && SkipVlans(p, TypeAt(p, k), 14 + 4 * k).Some?
    requires forall i :: 0 <= i < k ==> IsVlan(TypeAt(p, i))
    ensures TagStack(p, n) && SkipVlans(p, TypeAt(p, k), 14 + 4 * k) == Some((TypeAt(p, n), 14 + 4 * n))
    decreases |p| - 4 * k
  {
    if IsVlan(TypeAt(p, k)) {
      assert TypeAt(p, k + 1) == Be16(p, 14 + 4 * k + 2);
      n := FindsTheStack(p, k + 1);
    } else {
      n := k;
    }
  }

  // ---- IPv6 extension headers ----------------------------------------------------------------------

  /** What kind of header starts at starts[k]: the IPv6 header names the first, each extension the next. */
  function KindAt(p: seq<byte>, first: byte, starts: seq<nat>, k: nat): byte
    requires k < |starts|
  {
    if k == 0 then first else if starts[k - 1] < |p| then p[starts[k - 1]] else 0
  }

  /** Header k is a complete extension, and the next one starts where it ends. */
  ghost predicate Linked(p: seq<byte>, first: byte, starts: seq<nat>, k: nat)
    requires k + 1 < |starts|
  {
    && IsExtension(KindAt(p, first, starts, k)) && starts[k] + 2 <= |p|
    && starts[k + 1] == starts[k] + ExtensionLen(p, starts[k]) <= |p|
  }

  /** Extension headers at all but the last of `starts`, and something else at the last. */
  ghost predicate Chain(p: seq<byte>, first: byte, at: nat, starts: seq<nat>) {
    && |starts| > 0 && starts[0] == at
    && (forall k :: 0 <= k < |starts| - 1 ==> Linked(p, first, starts, k))
    && !IsExtension(KindAt(p, first, starts, |starts| - 1))
  }

  function Last(p: seq<byte>, first: byte, starts: seq<nat>): (byte, nat)
    requires |starts| > 0
  {
    (KindAt(p, first, starts, |starts| - 1), starts[|starts| - 1])
  }

  lemma {:induction false} SkipsTheChain(p: seq<byte>, first: byte, at: nat, starts: seq<nat>)
    requires Chain(p, first, at, starts)
    ensures SkipExtensions(p, first, at) == Some(Last(p, first, starts))
    decreases |starts|
  {
    if |starts| > 1 {
      assert Linked(p, first, starts, 0);
      var next, rest := p[at], starts[1..];
      assert forall k :: 0 <= k < |rest| ==> KindAt(p, next, rest, k) == KindAt(p, first, starts, k + 1);
      forall k | 0 <= k < |rest| - 1
        ensures Linked(p, next, rest, k)
      {
        assert Linked(p, first, starts, k + 1);
      }
      SkipsTheChain(p, next, at + ExtensionLen(p, at), rest);
    }
  }

  lemma {:induction false} FindsTheChain(p: seq<byte>, first: byte, at: nat) returns (starts: seq<nat>)
    requires at <= |p| && SkipExtensions(p, first, at).Some?
    ensures Chain(p, first, at, starts) && SkipExtensions(p, first, at) == Some(Last(p, first, starts))
    decreases |p| - at
  {
    if IsExtension(first) {
      var end := at + ExtensionLen(p, at);
      var rest := FindsTheChain(p, p[at], end);
      starts := [at] + rest;
      forall k | 0 <= k < |rest|
        ensures KindAt(p, p[at], rest, k) == KindAt(p, first, starts, k + 1)
      {
      }
      forall k | 0 <= k < |starts| - 1
        ensures Linked(p, first, starts, k)
      {
        if k > 0 {
          assert Linked(p, p[at], rest, k - 1);
        }
      }
    } else {
      starts := [at];
    }
  }

  /** Some chain of extension headers from `at` ends with header `last` at `end`. */
  ghost predicate LeadsTo(p: seq<byte>, first: byte, at: nat, last: byte, end: nat) {
    exists starts :: Chain(p, first, at, starts) && Last(p, first, starts) == (last, end)
  }

  lemma SkippingLeadsTo(p: seq<byte>, first: byte, at: nat, last: byte, end: nat)
    requires at <= |p|
    ensures SkipExtensions(p, first, at) == Some((last, end)) <==> LeadsTo(p, first, at, last, end)
  {
    hide SkipExtensions;
    if SkipExtensions(p, first, at) == Some((last, end)) {
      var starts := FindsTheChain(p, first, at);
    }
    if LeadsTo(p, first, at, last, end) {
      var starts :| Chain(p, first, at, starts) && Last(p, first, starts) == (last, end);
      SkipsTheChain(p, first, at, starts);
    }
  }

  // ---- the whole frame -----------------------------------------------------------------------------

  /** A TCP or UDP header at the layout's place, complete. */
  predicate SegmentAt(p: seq<byte>, r: Layout, protocol: byte) {
    && protocol == (if r.tcp then TCP else UDP)
    && r.l4Offset + (if r.tcp then 20 else 8) <= |p|
    && r.l4HdrLen == (if r.tcp then p[r.l4Offset + 12] as int / 16 * 4 else 8)
    && r.l4HdrLen >= (if r.tcp then 20 else 8)
    && r.payloadOffset == r.l4Offset + r.l4HdrLen <= |p|
  }

  /** The payload is what the IP length announces after the headers, as far as it was captured. */
  predicate PayloadIs(p: seq<byte>, r: Layout, announced: int) {
    && announced >= 0 && r.payloadOffset <= |p|
    && r.payloadLen <= announced && r.payloadOffset + r.payloadLen <= |p|
    && (r.payloadLen == announced || r.payloadOffset + r.payloadLen == |p|)
  }

  /** An IPv4 header at the layout's place that is not of a fragment. */
  predicate Ipv4At(p: seq<byte>, r: Layout) {
    var ip := r.ipOffset;
    && ip + 20 <= |p| && 20 <= r.ipHdrLen == p[ip] as int % 16 * 4
    && r.extLen == 0 && r.l4Offset == ip + r.ipHdrLen <= |p|
    && Be16(p, ip + 6) % 0x4000 == 0
    && SegmentAt(p, r, p[ip + 9])
    && PayloadIs(p, r, Be16(p, ip + 2) - r.ipHdrLen - r.l4HdrLen)
  }

  ghost predicate Ipv6At(p: seq<byte>, r: Layout) {
    var ip := r.ipOffset;
    && ip + 40 <= |p| && r.ipHdrLen == 40
    && LeadsTo(p, p[ip + 6], ip + 40, if r.tcp then TCP else UDP, r.l4Offset)
    && r.l4Offset == ip + 40 + r.extLen
    && SegmentAt(p, r, if r.tcp then TCP else UDP)
    && PayloadIs(p, r, Be16(p, ip + 4) - r.extLen - r.l4HdrLen)
  }

  ghost predicate LaidOut(p: seq<byte>, r: Layout, tags: nat) {
    && TagStack(p, tags) && r.ipOffset == 14 + 4 * tags
    && r.vlanOffset == (if tags > 0 then Some(14) else None)
    && TypeAt(p, tags) == (if r.ipv4 then ETHERTYPE_IP else ETHERTYPE_IPV6)
    && (if r.ipv4 then Ipv4At(p, r) else Ipv6At(p, r))
  }

  lemma Parse4Is(p: seq<byte>, vlan: Option<nat>, ip: nat, r: Layout)
    requires r.ipv4 && r.vlanOffset == vlan && r.ipOffset == ip
    ensures Parse4(p, vlan, ip) == Some(r) <==> Ipv4At(p, r)
  {
  }

  lemma Parse6Is(p: seq<byte>, vlan: Option<nat>, ip: nat, r: Layout)
    requires !r.ipv4 && r.vlanOffset == vlan && r.ipOffset == ip
    ensures Parse6(p, vlan, ip) == Some(r) <==> Ipv6At(p, r)
  {
    hide SkipExtensions, LeadsTo;
    if ip + 40 <= |p| {
      SkippingLeadsTo(p, p[ip + 6], ip + 40, if r.tcp then TCP else UDP, r.l4Offset);
    }
    if Parse6(p, vlan, ip) == Some(r) {
      TransportFacts(p, SkipExtensions(p, p[ip + 6], ip + 40).value.0, r.l4Offset);
    }
  }

  /** The parser answers exactly with the layout a frame has. */
  lemma ParseMeans(p: seq<byte>, r: Layout)
    ensures Parse(p) == Some(r) <==> exists tags: nat :: LaidOut(p, r, tags)
  {
    hide SkipVlans, Parse4, Parse6, Ipv4At, Ipv6At;
    if Parse(p) == Some(r) {
      ParsedAt(p);
      assert TypeAt(p, 0) == Be16(p, 12);
      var n := FindsTheStack(p, 0);
      NoTagsMeans(p, n);
      if r.ipv4 {
        Parse4Is(p, r.vlanOffset, r.ipOffset, r);
      } else {
        Parse6Is(p, r.vlanOffset, r.ipOffset, r);
      }
      assert LaidOut(p, r, n);
    }
    if tags: nat :| LaidOut(p, r, tags) {
      assert TypeAt(p, 0) == Be16(p, 12);
      SkipsTheStack(p, 0, tags);
      NoTagsMeans(p, tags);
      if r.ipv4 {
        Parse4Is(p, r.vlanOffset, r.ipOffset, r);
      } else {
        Parse6Is(p, r.vlanOffset, r.ipOffset, r);
      }
    }
  }

  lemma NoTagsMeans(p: seq<byte>, n: nat)
    requires TagStack(p, n)
    ensures n > 0 <==> IsVlan(Be16(p, 12))
  {
    assert TypeAt(p, 0) == Be16(p, 12);
  }
}
