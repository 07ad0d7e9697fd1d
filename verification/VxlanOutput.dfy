/**
  The VXLAN output: classify a packet, then send it whole or split. The socket is a sequence of outcomes,
  one per call of sendto.
 */
module VxlanOutput {
  import opened Basics
  import opened Bytes
  import opened PacketParse
  import opened PacketSplit
  import opened PacketSplitProofs
  import opened Outputs
  import opened OutputStats
  import opened Stats
  import TB = TokenBucket

  const MAX_RETRIES: nat := 10
  const BUFFER_SIZE: nat := 65551

  datatype Outcome = Full | Partial | NoBuffers | OtherError

  // ---- what goes on the wire -----------------------------------------------------------------------

  function FirstFragments(p: seq<byte>, r: Layout, limit: int, recalculate: bool, m: nat): (fs: seq<seq<byte>>)
    requires InBounds(r, |p|) && |p| <= MAX_FRAME && 0 < limit < r.payloadLen && m <= FragmentCount(r, limit)
    ensures |fs| == m
  {
    if m == 0 then []
    else
      SizesAreRight(r, m - 1, limit);
      FirstFragments(p, r, limit, recalculate, m - 1) + [Fragment(p, r, m - 1, limit, recalculate)]
  }

  /** Whether a frame is split: a limit is set, and the frame is a TCP or UDP packet with more payload than that. */
  predicate Splits(p: seq<byte>, limit: nat) {
    limit > 0 && |p| > limit && Parse(p).Some? && Parse(p).value.payloadLen > limit
  }

  /** The frames sent for p. */
  function WireFrames(p: seq<byte>, limit: nat, recalculate: bool): (fs: seq<seq<byte>>)
    requires |p| <= MAX_FRAME
  {
    if Splits(p, limit) then
      ParseInBounds(p);
      FirstFragments(p, Parse(p).value, limit, recalculate, FragmentCount(Parse(p).value, limit))
    else [p]
  }

  lemma {:induction false} FragmentAt(p: seq<byte>, r: Layout, limit: int, recalculate: bool, m: nat, k: nat)
    requires InBounds(r, |p|) && |p| <= MAX_FRAME && 0 < limit < r.payloadLen && k < m <= FragmentCount(r, limit)
    ensures FragmentSize(r, k, limit) > 0
    ensures FirstFragments(p, r, limit, recalculate, m)[k] == Fragment(p, r, k, limit, recalculate)
  {
    hide Fragment, FragmentSize, FragmentCount;
    SizesAreRight(r, k, limit);
    if k < m - 1 {
      FragmentAt(p, r, limit, recalculate, m - 1, k);
    }
  }

  /** The transport payload of a frame, if it has one. */
  function PayloadOf(f: seq<byte>): seq<byte> {
    match Parse(f)
    case Some(r) => ParseInBounds(f); Payload(f, r)
    case None => []
  }

  function Payloads(fs: seq<seq<byte>>): seq<byte> {
    if fs == [] then [] else Payloads(fs[..|fs| - 1]) + PayloadOf(fs[|fs| - 1])
  }

  lemma PayloadOfFragment(p: seq<byte>, r: Layout, limit: int, recalculate: bool, k: nat)
    requires Parse(p) == Some(r) && InBounds(r, |p|) && |p| <= MAX_FRAME && FragmentSize(r, k, limit) > 0
    ensures PayloadOf(Fragment(p, r, k, limit, recalculate)) == Slice(p, r, k, limit)
  {
    hide Parse, Fragment, FragmentSize, Slice, Payload;
    FragmentParses(p, r, k, limit, recalculate);
  }

  lemma {:induction false} PayloadsAreCarried(p: seq<byte>, r: Layout, limit: int, recalculate: bool, m: nat)
    requires Parse(p) == Some(r) && InBounds(r, |p|)
    requires |p| <= MAX_FRAME && 0 < limit < r.payloadLen && m <= FragmentCount(r, limit)
    ensures Payloads(FirstFragments(p, r, limit, recalculate, m)) == Carried(p, r, limit, recalculate, m)
  {
    hide Parse, Fragment, FragmentSize, FragmentCount, Slice, PayloadOf, InBounds;
    if m > 0 {
      SizesAreRight(r, m - 1, limit);
      PayloadsAreCarried(p, r, limit, recalculate, m - 1);
      PayloadOfFragment(p, r, limit, recalculate, m - 1);
      CarriedStep(p, r, limit, recalculate, m);
      var fs := FirstFragments(p, r, limit, recalculate, m);
      assert fs[..m - 1] == FirstFragments(p, r, limit, recalculate, m - 1);
    }
  }

  /** What is sent for a frame carries its payload, once and in order, whether split or not. */
  lemma WireCarriesThePayload(p: seq<byte>, limit: nat, recalculate: bool)
    requires |p| <= MAX_FRAME && Parse(p).Some?
    ensures InBounds(Parse(p).value, |p|)
    ensures Payloads(WireFrames(p, limit, recalculate)) == Payload(p, Parse(p).value)
  {
    hide Parse, FirstFragments, FragmentCount, Payload;
    ParseInBounds(p);
    if Splits(p, limit) {
      var r := Parse(p).value;
      PayloadsAreCarried(p, r, limit, recalculate, FragmentCount(r, limit));
      FragmentsCarryThePayload(p, r, limit, recalculate);
    } else {
      assert [p][..0] == [] && Payloads([p]) == [] + PayloadOf(p);
    }
  }

  /** Something is sent for every frame. */
  lemma SomeFrame(p: seq<byte>, limit: nat, recalculate: bool)
    requires |p| <= MAX_FRAME
    ensures WireFrames(p, limit, recalculate) != []
  {
    hide FirstFragments, Parse;
    if Splits(p, limit) {
      ParseInBounds(p);
      CountIsExact(Parse(p).value, limit);
    }
  }

  /** Every frame of a split packet is a packet of the same kind with between 1 and `limit` payload bytes. */
  lemma SplitFramesAreSmall(p: seq<byte>, limit: nat, recalculate: bool, k: nat)
    requires |p| <= MAX_FRAME && Splits(p, limit) && k < |WireFrames(p, limit, recalculate)|
    ensures |WireFrames(p, limit, recalculate)| >= 2
    ensures var q := Parse(WireFrames(p, limit, recalculate)[k]);
      q.Some? && 0 < q.value.payloadLen <= limit && q.value.(payloadLen := 0) == Parse(p).value.(payloadLen := 0)
  {
    hide Parse, FirstFragments, FragmentCount, Fragment, FragmentSize;
    ParseInBounds(p);
    var r := Parse(p).value;
    CountIsExact(r, limit);
    FragmentAt(p, r, limit, recalculate, FragmentCount(r, limit), k);
    SizesAreRight(r, k, limit);
    FragmentParses(p, r, k, limit, recalculate);
  }

  /** With a limit set, nothing that is sent has more payload than that. */
  lemma WireFramesAreSmall(p: seq<byte>, limit: nat, recalculate: bool, k: nat)
    requires |p| <= MAX_FRAME && limit > 0 && k < |WireFrames(p, limit, recalculate)|
    ensures var q := Parse(WireFrames(p, limit, recalculate)[k]); q.Some? ==> q.value.payloadLen <= limit
  {
    hide Parse, FirstFragments;
    if Splits(p, limit) {
      SplitFramesAreSmall(p, limit, recalculate, k);
    } else {
      ParseInBounds(p);
    }
  }

  // ---- the output ----------------------------------------------------------------------------------

  /** A datagram: the frame it carries and its direction tag. */
  datatype Datagram = Datagram(frame: seq<byte>, direct: int)

  function Tagged(fs: seq<seq<byte>>, direct: int): (ds: seq<Datagram>)
    ensures |ds| == |fs|
    ensures forall k :: 0 <= k < |fs| ==> ds[k] == Datagram(fs[k], direct)
  {
    if fs == [] then [] else Tagged(fs[..|fs| - 1], direct) + [Datagram(fs[|fs| - 1], direct)]
  }

  class Output {
    const limit: nat
    const recalculate: bool
    const slice: int
    const limited: bool
    const throttle: TB.Throttle
    const fragmentBuf: array<byte>
    const socket: nat -> Outcome
    const stats: Statistics
    var calls: nat
    /** What this output added to the statistics it shares with others. */
    ghost var totals: Totals
    ghost var offered: Tally
    ghost var sent: seq<Datagram>

    ghost predicate Valid()
      reads this, throttle, stats, stats.Counters()
    {
      && throttle.Valid() && stats.Valid() && fragmentBuf.Length >= MAX_FRAME
      && PacketsOf(totals) == offered.packets && BytesOf(totals) == offered.bytes
    }

    constructor (limit: nat, recalculate: bool, slice: int, rateLimitMbps: nat, stats: Statistics, socket: nat -> Outcome)
      requires stats.Valid() && rateLimitMbps <= 0x7FFF_FFFF
      ensures Valid() && offered == NONE && sent == [] && this.stats == stats
      ensures limited == (rateLimitMbps > 0) && fresh(throttle) && fresh(fragmentBuf)
    {
      this.limit, this.recalculate, this.slice, limited := limit, recalculate, slice, rateLimitMbps > 0;
      throttle := new TB.Throttle(rateLimitMbps * 1_000_000);
      fragmentBuf := new byte[BUFFER_SIZE];
      this.stats, this.socket, calls := stats, socket, 0;
      totals, offered, sent := NO_TOTALS, NONE, [];
    }

    /** Sends one datagram, retrying while the kernel is out of buffers. */
    method DoSend(d: Datagram) returns (ok: bool)
      modifies this`calls, this`sent
      ensures old(calls) < calls <= old(calls) + MAX_RETRIES + 1
      ensures forall i :: old(calls) <= i < calls - 1 ==> socket(i) == NoBuffers
      ensures ok <==> socket(calls - 1) == Full
      ensures !ok && socket(calls - 1) == NoBuffers ==> calls == old(calls) + MAX_RETRIES + 1
      ensures sent == if ok then old(sent) + [d] else old(sent)
    {
      var retries := 0;
      while retries < MAX_RETRIES && socket(calls) == NoBuffers
        invariant retries <= MAX_RETRIES && calls == old(calls) + retries
        invariant forall i :: old(calls) <= i < calls ==> socket(i) == NoBuffers
        invariant sent == old(sent)
      {
        calls := calls + 1;
        retries := retries + 1;
      }
      ok := socket(calls) == Full;
      calls := calls + 1;
      if ok {
        sent := sent + [d];
      }
    }

    /** True exactly when every frame was sent; the first `count` frames were, in any case. */
    method SendWholeOrSplit(p: seq<byte>, direct: int) returns (ok: bool, ghost count: nat)
      requires Valid() && |p| <= MAX_FRAME
      modifies this`calls, this`sent, fragmentBuf
      ensures Valid() && count <= |WireFrames(p, limit, recalculate)|
      ensures ok <==> count == |WireFrames(p, limit, recalculate)|
      ensures sent == old(sent) + Tagged(WireFrames(p, limit, recalculate)[..count], direct)
    {
      hide Parse;
      if limit == 0 || |p| <= limit {
        ok, count := SendWhole(p, direct);
        return;
      }
      var parsed := ParsePacket(p);
      if parsed == None {
        ok, count := SendWhole(p, direct);
        return;
      }
      var r := parsed.value;
      if FragmentCount(r, limit) == 1 {
        assert r.payloadLen > limit ==> FragmentCount(r, limit) >= 2 by {
          if r.payloadLen > limit {
            CountIsExact(r, limit);
          }
        }
        ok, count := SendWhole(p, direct);
        return;
      }
      ok, count := SendFragments(p, r, direct);
    }

    method SendWhole(p: seq<byte>, direct: int) returns (ok: bool, ghost count: nat)
      requires Valid() && |p| <= MAX_FRAME && !Splits(p, limit)
      modifies this`calls, this`sent
      ensures Valid() && count <= |WireFrames(p, limit, recalculate)|
      ensures ok <==> count == |WireFrames(p, limit, recalculate)|
      ensures sent == old(sent) + Tagged(WireFrames(p, limit, recalculate)[..count], direct)
    {
      hide Splits;
      ok := DoSend(Datagram(p, direct));
      assert Tagged([p][..1], direct) == [Datagram(p, direct)];
      assert Tagged([p][..0], direct) == [];
      count := if ok then 1 else 0;
    }

    method SendFragments(p: seq<byte>, r: Layout, direct: int) returns (ok: bool, ghost count: nat)
      requires Valid() && |p| <= MAX_FRAME && Splits(p, limit) && Parse(p) == Some(r)
      modifies this`calls, this`sent, fragmentBuf
      ensures Valid() && count <= |WireFrames(p, limit, recalculate)|
      ensures ok <==> count == |WireFrames(p, limit, recalculate)|
      ensures sent == old(sent) + Tagged(WireFrames(p, limit, recalculate)[..count], direct)
    {
      hide FragmentCount, FragmentSize, Fragment, Parse;
      ParseInBounds(p);
      var fragments := FragmentCount(r, limit);
      ghost var fs := FirstFragments(p, r, limit, recalculate, fragments);
      count := 0;
      for i := 0 to fragments
        invariant Valid() && count == i
        invariant sent == old(sent) + Tagged(fs[..i], direct)
      {
        SizesAreRight(r, i, limit);
        FragmentAt(p, r, limit, recalculate, fragments, i);
        var n := BuildFragment(p, r, i, limit, recalculate, fragmentBuf);
        ok := DoSend(Datagram(fragmentBuf[..n], direct));
        if !ok {
          return;
        }
        assert fs[..i + 1][..i] == fs[..i];
        count := count + 1;
      }
      ok := true;
    }

    /** Adds a packet to the statistics and to the books of this output. */
    method Count(fate: Fate, n: nat)
      requires Valid() && n <= MAX_FRAME
      modifies this`totals, this`offered, stats`book, stats.Counters()
      ensures Valid() && MovesWith(old(totals), totals, old(stats.book), stats.book)
      ensures totals == Counted(old(totals), fate, n) && offered == Plus(old(offered), n)
    {
      hide Statistics.Valid;
      stats.CountPacket(fate, n);
      totals, offered := Counted(totals, fate, n), Plus(offered, n);
    }

    /**
      Each packet is counted once, with its frame length, under its fate. The first `count` of its frames
      were sent: all of them when it is forwarded, none when it is not even tried.
     */
    method SendPacket(data: seq<byte>, at: TB.Time, direct: int) returns (ok: bool, ghost fate: Fate, ghost count: nat)
      requires Valid() && TB.ValidTime(at)
      modifies this`calls, this`sent, this`totals, this`offered, throttle, fragmentBuf, stats`book, stats.Counters()
      ensures Valid() && MovesWith(old(totals), totals, old(stats.book), stats.book)
      ensures var n := FrameLen(|data|, slice, MAX_FRAME);
        var frames := WireFrames(data[..n], limit, recalculate);
        && totals == Counted(old(totals), fate, n) && offered == Plus(old(offered), n)
        && (fate == UnknownDirection <==> direct == DIR_UNKNOWN)
        && (fate == AboveRate <==> direct != DIR_UNKNOWN && limited && !TB.Step(old(throttle.State()), n, at).1)
        && count <= |frames| && sent == old(sent) + Tagged(frames[..count], direct)
        && (ok <==> fate == Forwarded) && (ok <==> count == |frames|)
        && (fate == UnknownDirection || fate == AboveRate ==> count == 0)
        && throttle.State() == (if direct != DIR_UNKNOWN && limited then TB.Step(old(throttle.State()), n, at).0
                                else old(throttle.State()))
    {
      hide WireFrames, TB.Step, Statistics.Valid, Counted, MovesWith;
      var n := FrameLen(|data|, slice, MAX_FRAME);
      SomeFrame(data[..n], limit, recalculate);
      ok, count := false, 0;
      if direct == DIR_UNKNOWN {
        fate := UnknownDirection;
        Count(UnknownDirection, n);
        return;
      }
      if limited {
        var admitted := throttle.Consume(n, at);
        if !admitted {
          fate := AboveRate;
          Count(AboveRate, n);
          return;
        }
      }
      ok, count := SendWholeOrSplit(data[..n], direct);
      fate := if ok then Forwarded else Failed;
      Count(if ok then Forwarded else Failed, n);
    }

    method SendAll(packets: seq<Capture>)
      requires Valid() && forall i :: 0 <= i < |packets| ==> TB.ValidTime(packets[i].at)
      modifies this`calls, this`sent, this`totals, this`offered, throttle, fragmentBuf, stats`book, stats.Counters()
      ensures Valid() && offered == Both(old(offered), Offered(packets, slice))
      ensures MovesWith(old(totals), totals, old(stats.book), stats.book)
    {
      hide WireFrames, TB.Step, Statistics.Valid, Counted, FrameLen;
      for i := 0 to |packets|
        invariant Valid() && offered == Both(old(offered), Offered(packets[..i], slice))
        invariant MovesWith(old(totals), totals, old(stats.book), stats.book)
      {
        assert packets[..i + 1][..i] == packets[..i];
        var ok, fate, count := SendPacket(packets[i].data, packets[i].at, packets[i].direct);
      }
      assert packets[..|packets|] == packets;
    }

    /**
      Any run of packets. Every one is offered, and the counters of the statistics advance by exactly the
      packets and bytes offered, modulo their ranges, and exactly while nothing has wrapped.
     */
    method Run(packets: seq<Capture>)
      requires Valid() && forall i :: 0 <= i < |packets| ==> TB.ValidTime(packets[i].at)
      modifies this`calls, this`sent, this`totals, this`offered, throttle, fragmentBuf, stats`book, stats.Counters()
      ensures Valid() && offered == Both(old(offered), Offered(packets, slice))
      ensures var n := Offered(packets, slice);
        && Range(PETA) > 0 && Rest(stats.PacketsShown(), Range(PETA)) == Rest(old(stats.PacketsShown()) + n.packets, Range(PETA))
        && Range(EIB) > 0 && Rest(stats.BytesShown(), Range(EIB)) == Rest(old(stats.BytesShown()) + n.bytes, Range(EIB))
        && (PacketsOf(stats.book) < Range(PETA) ==> stats.PacketsShown() == old(stats.PacketsShown()) + n.packets)
        && (BytesOf(stats.book) < Range(EIB) ==> stats.BytesShown() == old(stats.BytesShown()) + n.bytes)
    {
      hide WireFrames, TB.Step, Statistics.Valid, Statistics.PacketsShown, Statistics.BytesShown, Range, Rest;
      ghost var p0, b0, book0 := stats.PacketsShown(), stats.BytesShown(), stats.book;
      stats.CountersAddUp();
      SendAll(packets);
      stats.CountersAddUp();
      ShownGrows(Range(PETA), PacketsOf(book0), PacketsOf(stats.book), p0, stats.PacketsShown());
      ShownGrows(Range(EIB), BytesOf(book0), BytesOf(stats.book), b0, stats.BytesShown());
    }
  }

  /** A captured packet with its time and direction. */
  datatype Capture = Capture(data: seq<byte>, at: TB.Time, direct: int)

  /** All packets, with the bytes each counts for. */
  function Offered(packets: seq<Capture>, slice: int): (t: Tally)
    ensures t.packets == |packets|
  {
    if packets == [] then NONE
    else
      var k := |packets| - 1;
      Plus(Offered(packets[..k], slice), FrameLen(|packets[k].data|, slice, MAX_FRAME))
  }
}
