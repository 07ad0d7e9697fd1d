/**
  What the ZMQ output makes of the packets and clock ticks it is given, without batches or buffers: the
  records it adds, in order, and the packets it drops.
 */
module ZmqFeed {
  import opened Basics
  import opened Bytes
  import opened PacketParse
  import opened Outputs
  import opened ZmqCodec
  import opened ZmqBatches
  import TB = TokenBucket

  const MAX_RECORD_FRAME: nat := 65531
  const HEARTBEAT_FRAME: seq<byte> := [0, 0, 0, 0, 0, 0, 0, 0, 0, 0, 0, 0, 255, 255]

  function U32(x: int): (r: nat)
    ensures r < LIMIT32
  {
    x % LIMIT32
  }

  // ---- records -------------------------------------------------------------------------------------

  /** How much of a captured packet goes into a record: the slice, but always the whole layer 2 header. */
  function RecordLen(data: seq<byte>, slice: int, l2: nat): (n: nat)
    requires 14 <= l2 <= FrameLen(|data|, 0, MAX_RECORD_FRAME)
    ensures l2 <= n <= |data| && n <= MAX_RECORD_FRAME
  {
    var n := FrameLen(|data|, slice, MAX_RECORD_FRAME);
    if n < l2 then l2 else n
  }

  /** A record may hold n bytes: the whole layer 2 header, nothing beyond the capture, and no more than the slice. */
  predicate MayHold(data: seq<byte>, slice: int, l2: nat, n: nat) {
    l2 <= n <= |data| && n <= MAX_RECORD_FRAME && (slice > 0 ==> n <= slice || n == l2)
  }

  /** A record holds as much as it may. */
  lemma RecordHoldsTheMost(data: seq<byte>, slice: int, l2: nat, m: nat)
    requires 14 <= l2 <= FrameLen(|data|, 0, MAX_RECORD_FRAME)
    ensures MayHold(data, slice, l2, RecordLen(data, slice, l2))
    ensures MayHold(data, slice, l2, m) ==> m <= RecordLen(data, slice, l2)
    ensures L2Of(data) == Some(l2) && MayHold(data, slice, l2, m) ==> m <= CountedLen(data, slice)
  {
  }

  function CapturedRecord(data: seq<byte>, wireLen: nat, at: TB.Time, direct: nat, tag: nat, n: nat, l2: nat): (r: Record)
    requires 14 <= l2 <= n <= |data| && n <= MAX_RECORD_FRAME
    ensures Fits(r) && IsCaptured(r) && r.caplen == |r.data| == n + 4
  {
    Record(U32(at.sec), U32(at.usec), n + 4, U32(wireLen + 4), MplsFrame(data[..n], l2, Label(direct, tag)))
  }

  /** Cutting a frame behind its layer 2 header does not change that header. */
  lemma L2LenOfPrefix(f: seq<byte>, g: seq<byte>)
    requires L2Len(f).Some? && g <= f && L2Len(f).value <= |g|
    ensures L2Len(g) == L2Len(f)
  {
    assert g[12] == f[12] && g[13] == f[13];
    SkipVlansSame(f, g, Be16(f, 12), 14);
  }

  /** What a receiver can tell from the record of a packet: times, lengths, layer 2, direction, tag and payload. */
  lemma RecordTellsThePacket(data: seq<byte>, wireLen: nat, at: TB.Time, direct: nat, tag: nat, slice: int)
    requires L2Of(data).Some?
    ensures var l2 := L2Of(data).value;
      var n := RecordLen(data, slice, l2);
      var r := CapturedRecord(data, wireLen, at, direct, tag, n, l2);
      && (0 <= at.sec < LIMIT32 ==> r.sec == at.sec) && (at.usec < LIMIT32 ==> r.usec == at.usec)
      && r.caplen == n + 4 && (wireLen + 4 < LIMIT32 ==> r.len == wireLen + 4)
      && SkipVlans(r.data, Be16(r.data, 12), 14) == Some((MPLS, l2))
      && r.data[..l2 - 2] == data[..l2 - 2] && r.data[l2 + 4..] == data[l2..n]
      && LabelDirection(r.data[l2..l2 + 4]) == direct % 16 && LabelTag(r.data[l2..l2 + 4]) == tag % 4096
  {
    hide SkipVlans, L2Len, Label, LabelDirection, LabelTag, PutBe16;
    var whole := data[..FrameLen(|data|, 0, MAX_RECORD_FRAME)];
    var l2 := L2Len(whole).value;
    var n := RecordLen(data, slice, l2);
    var f, mark := data[..n], Label(direct, tag);
    L2LenOfPrefix(whole, f);
    MplsFrameIsFound(f, mark);
    LabelRoundTrip(direct, tag);
    LabelledParts(f, l2, mark);
    assert f[..l2 - 2] == data[..l2 - 2] && f[l2..] == data[l2..n];
  }

  lemma LabelledParts(f: seq<byte>, l2: nat, mark: seq<byte>)
    requires 14 <= l2 <= |f| && |mark| == 4
    ensures var d := MplsFrame(f, l2, mark);
      d[..l2 - 2] == f[..l2 - 2] && d[l2..l2 + 4] == mark && d[l2 + 4..] == f[l2..]
  {
  }

  function HeartbeatRecord(at: TB.Time): (r: Record)
    ensures Fits(r) && !IsCaptured(r) && r.caplen == r.len == |r.data| == 14 && Be16(r.data, 12) == 0xFFFF
    ensures (0 <= at.sec < LIMIT32 ==> r.sec == at.sec) && (at.usec < LIMIT32 ==> r.usec == at.usec)
  {
    Record(U32(at.sec), U32(at.usec), 14, 14, HEARTBEAT_FRAME)
  }

  // ---- heartbeats ----------------------------------------------------------------------------------

  /** Division that truncates toward zero. */
  function Quotient(a: int, b: nat): int
    requires b > 0
  {
    if a >= 0 then a / b else -(-a / b)
  }

  function ElapsedMs(now: TB.Time, last: TB.Time): int {
    (now.sec - last.sec) * 1000 + Quotient(now.usec - last.usec, 1000)
  }

  /** The coarse test in whole seconds that saves reading the clock. */
  predicate NotDueYet(now: int, last: TB.Time, intervalMs: int) {
    (now - last.sec) * 1000 < intervalMs - 1000
  }

  /** The coarse test never holds back a heartbeat that is due, if `now` is the second the clock shows. */
  lemma CoarseTestIsSafe(clock: TB.Time, last: TB.Time, intervalMs: int)
    requires TB.ValidTime(clock) && TB.ValidTime(last) && NotDueYet(clock.sec, last, intervalMs)
    ensures ElapsedMs(clock, last) < intervalMs
  {
  }

  /** A heartbeat goes out when enabled, when the coarse test lets it, and when the interval has passed. */
  predicate Due(intervalMs: int, now: int, clock: TB.Time, last: TB.Time) {
    intervalMs > 0 && !NotDueYet(now, last, intervalMs) && ElapsedMs(clock, last) >= intervalMs
  }

  /** The difference in milliseconds is that of the clocks, to within one. */
  lemma ElapsedMsIsClose(now: TB.Time, last: TB.Time)
    requires TB.ValidTime(now) && TB.ValidTime(last)
    ensures -1000 < 1000 * ElapsedMs(now, last) - (TB.Micros(now) - TB.Micros(last)) < 1000
  {
  }

  /** At a call made in the second the clock shows, a heartbeat goes out exactly when it is enabled and due. */
  lemma DueExactlyWhen(intervalMs: int, clock: TB.Time, last: TB.Time)
    requires TB.ValidTime(clock) && TB.ValidTime(last)
    ensures Due(intervalMs, clock.sec, clock, last) <==> intervalMs > 0 && ElapsedMs(clock, last) >= intervalMs
  {
    if NotDueYet(clock.sec, last, intervalMs) {
      CoarseTestIsSafe(clock, last, intervalMs);
    }
  }

  // ---- events --------------------------------------------------------------------------------------

  /** What happens to an output: a captured packet, or a periodic call at `now` when the clock shows `clock`. */
  datatype Event = Packet(data: seq<byte>, wireLen: nat, at: TB.Time, direct: int) | Tick(now: int, clock: TB.Time)

  predicate Proper(e: Event) {
    e.Packet? ==> |e.data| < LIMIT32 && TB.ValidTime(e.at) && e.direct >= DIR_UNKNOWN
  }

  ghost predicate AllProper(es: seq<Event>) {
    forall i :: 0 <= i < |es| ==> Proper(es[i])
  }

  /** How an output is configured. */
  datatype Setup = Setup(slice: int, tag: nat, limited: bool, heartbeatMs: int)

  /** The throttle, the time of the last record, the records added so far, and what was offered and dropped. */
  datatype Feed = Feed(bucket: TB.Bucket, last: TB.Time, log: seq<Record>,
                       offered: Tally, tooSmall: Tally, direction: Tally, rateLimited: Tally)

  /** The layer 2 length of what a record could hold of a packet. */
  function L2Of(data: seq<byte>): (n: Option<nat>)
    ensures n.Some? ==> 14 <= n.value <= FrameLen(|data|, 0, MAX_RECORD_FRAME)
  {
    L2Len(data[..FrameLen(|data|, 0, MAX_RECORD_FRAME)])
  }

  lemma L2OfIs(data: seq<byte>)
    ensures L2Of(data) == L2Len(data[..FrameLen(|data|, 0, MAX_RECORD_FRAME)])
  {
  }

  /** The bytes a packet counts for: those of its record, or all captured ones if it cannot form a record. */
  function CountedLen(data: seq<byte>, slice: int): (n: nat)
    ensures n <= |data| && (L2Of(data) == None ==> n == |data|)
    ensures L2Of(data).Some? ==> MayHold(data, slice, L2Of(data).value, n)
  {
    if L2Of(data) == None then |data| else RecordLen(data, slice, L2Of(data).value)
  }

  function FedPacket(c: Setup, f: Feed, data: seq<byte>, wireLen: nat, at: TB.Time, direct: int): (r: Feed)
    requires TB.Good(f.bucket) && TB.ValidTime(at) && direct >= DIR_UNKNOWN
    ensures TB.Good(r.bucket)
  {
    var n := CountedLen(data, c.slice);
    var g := f.(offered := Plus(f.offered, n));
    if L2Of(data) == None then g.(tooSmall := Plus(f.tooSmall, n))
    else if direct == DIR_UNKNOWN then g.(direction := Plus(f.direction, n))
    else
      var (bucket, ok) := if c.limited then TB.Step(f.bucket, n, at) else (f.bucket, true);
      if !ok then g.(bucket := bucket, rateLimited := Plus(f.rateLimited, n))
      else g.(bucket := bucket, last := at, log := f.log + [CapturedRecord(data, wireLen, at, direct, c.tag, n, L2Of(data).value)])
  }

  function Fed(c: Setup, f: Feed, e: Event): (r: Feed)
    requires TB.Good(f.bucket) && Proper(e)
    ensures TB.Good(r.bucket)
  {
    match e
    case Packet(data, wireLen, at, direct) => FedPacket(c, f, data, wireLen, at, direct)
    case Tick(now, clock) =>
      if Due(c.heartbeatMs, now, clock, f.last) then f.(last := clock, log := f.log + [HeartbeatRecord(clock)]) else f
  }

  function FeedAll(c: Setup, f: Feed, es: seq<Event>): (r: Feed)
    requires TB.Good(f.bucket) && AllProper(es)
    ensures TB.Good(r.bucket)
  {
    if es == [] then f else Fed(c, FeedAll(c, f, es[..|es| - 1]), es[|es| - 1])
  }

  /** The packets among events, with the bytes each counts for. */
  function OfferedBy(es: seq<Event>, slice: int): Tally {
    if es == [] then NONE
    else
      var t, e := OfferedBy(es[..|es| - 1], slice), es[|es| - 1];
      if e.Packet? then Plus(t, CountedLen(e.data, slice)) else t
  }

  /** Every packet is offered, whatever becomes of it. */
  lemma {:induction false} AllPacketsAreOffered(c: Setup, f: Feed, es: seq<Event>)
    requires TB.Good(f.bucket) && AllProper(es)
    ensures FeedAll(c, f, es).offered == Both(f.offered, OfferedBy(es, c.slice))
  {
    hide CountedLen, TB.Step, CapturedRecord;
    if es != [] {
      AllPacketsAreOffered(c, f, es[..|es| - 1]);
    }
  }

  /** Every packet offered has its record in the log or was dropped for one reason. */
  predicate Complete(f: Feed) {
    Both(Both(Captured(f.log), f.tooSmall), Both(f.direction, f.rateLimited)) == f.offered
  }

  lemma {:induction false} NothingIsMissing(c: Setup, f: Feed, es: seq<Event>)
    requires TB.Good(f.bucket) && AllProper(es) && Complete(f)
    ensures Complete(FeedAll(c, f, es))
  {
    if es != [] {
      NothingIsMissing(c, f, es[..|es| - 1]);
      StepIsComplete(c, FeedAll(c, f, es[..|es| - 1]), es[|es| - 1]);
    }
  }

  lemma StepIsComplete(c: Setup, f: Feed, e: Event)
    requires TB.Good(f.bucket) && Proper(e) && Complete(f)
    ensures Complete(Fed(c, f, e))
  {
    hide TB.Step, CapturedRecord, Captured, L2Of, IsCaptured;
    var g := Fed(c, f, e);
    if |g.log| > |f.log| {
      CapturedAppend(f.log, g.log[|f.log|]);
    }
  }

  /** The records added by events do not depend on those added before. */
  function Accepted(c: Setup, f: Feed, es: seq<Event>): seq<Record>
    requires TB.Good(f.bucket) && AllProper(es)
  {
    FeedAll(c, f.(log := []), es).log
  }

  lemma {:induction false} LogGrows(c: Setup, f: Feed, es: seq<Event>)
    requires TB.Good(f.bucket) && AllProper(es)
    ensures FeedAll(c, f, es) == FeedAll(c, f.(log := []), es).(log := f.log + Accepted(c, f, es))
  {
    hide TB.Step, CapturedRecord, CountedLen, L2Of;
    if es != [] {
      LogGrows(c, f, es[..|es| - 1]);
    }
  }

  // ---- which packets get a record ----------------------------------------------------------------------

  /** A packet that can form a record and whose direction is known. */
  predicate Eligible(e: Event) {
    e.Packet? && L2Of(e.data).Some? && e.direct != DIR_UNKNOWN
  }

  function RecordOf(c: Setup, e: Event): Record
    requires Proper(e) && Eligible(e)
  {
    CapturedRecord(e.data, e.wireLen, e.at, e.direct, c.tag, CountedLen(e.data, c.slice), L2Of(e.data).value)
  }

  /** What the rate limit is asked for: the eligible packets, with the bytes each counts for. */
  function Asked(c: Setup, es: seq<Event>): (ps: seq<TB.Packet>)
    requires AllProper(es)
    ensures TB.Timed(ps)
  {
    if es == [] then []
    else
      var k := |es| - 1;
      Asked(c, es[..k]) + if Eligible(es[k]) then [TB.Packet(CountedLen(es[k].data, c.slice), es[k].at)] else []
  }

  /** The limit, if there is one, lets an eligible packet pass after what it was asked before. */
  predicate LetsPass(c: Setup, b: TB.Bucket, before: seq<Event>, e: Event)
    requires TB.Good(b) && AllProper(before) && Proper(e) && Eligible(e)
  {
    c.limited ==> TB.Step(TB.After(b, Asked(c, before)), CountedLen(e.data, c.slice), e.at).1
  }

  /** The records of the eligible packets that pass, in order. */
  function Passing(c: Setup, b: TB.Bucket, es: seq<Event>): seq<Record>
    requires TB.Good(b) && AllProper(es)
  {
    if es == [] then []
    else
      var k := |es| - 1;
      Passing(c, b, es[..k])
      + if Eligible(es[k]) && LetsPass(c, b, es[..k], es[k]) then [RecordOf(c, es[k])] else []
  }

  /** The records of captured packets among all. */
  function PacketRecords(rs: seq<Record>): seq<Record> {
    if rs == [] then []
    else PacketRecords(rs[..|rs| - 1]) + if IsCaptured(rs[|rs| - 1]) then [rs[|rs| - 1]] else []
  }

  lemma PacketRecordsAppend(rs: seq<Record>, r: Record)
    ensures PacketRecords(rs + [r]) == PacketRecords(rs) + if IsCaptured(r) then [r] else []
  {
    assert (rs + [r])[..|rs|] == rs;
  }

  lemma AskedAppend(c: Setup, es: seq<Event>, b: TB.Bucket)
    requires AllProper(es) && es != [] && TB.Good(b)
    ensures var k := |es| - 1;
      TB.After(b, Asked(c, es)) == if Eligible(es[k]) then TB.Step(TB.After(b, Asked(c, es[..k])), CountedLen(es[k].data, c.slice), es[k].at).0
                                   else TB.After(b, Asked(c, es[..k]))
  {
    hide TB.Step, TB.After, CountedLen, L2Of;
    var k := |es| - 1;
    var ps := Asked(c, es[..k]);
    if Eligible(es[k]) {
      TB.AfterAppend(b, ps, TB.Packet(CountedLen(es[k].data, c.slice), es[k].at));
    } else {
      assert ps + [] == ps;
    }
  }

  lemma FedOnce(c: Setup, f: Feed, e: Event)
    requires TB.Good(f.bucket) && Proper(e)
    ensures var g := Fed(c, f, e);
      if Eligible(e) then
        && g.bucket == (if c.limited then TB.Step(f.bucket, CountedLen(e.data, c.slice), e.at).0 else f.bucket)
        && g.log == f.log + (if c.limited ==> TB.Step(f.bucket, CountedLen(e.data, c.slice), e.at).1 then [RecordOf(c, e)] else [])
      else g.bucket == f.bucket && PacketRecords(g.log) == PacketRecords(f.log)
  {
    hide TB.Step, CountedLen, L2Of, CapturedRecord;
    if e.Tick? {
      PacketRecordsAppend(f.log, HeartbeatRecord(e.clock));
    }
  }

  /**
    Which packets get a record, over any run: exactly those with a complete layer 2 and a known direction
    that the limit lets pass, in the order of the packets.
   */
  lemma {:induction false} RecordsAreThoseThatPass(c: Setup, f: Feed, es: seq<Event>)
    requires TB.Good(f.bucket) && AllProper(es)
    ensures PacketRecords(Accepted(c, f, es)) == Passing(c, f.bucket, es)
    ensures FeedAll(c, f, es).bucket == if c.limited then TB.After(f.bucket, Asked(c, es)) else f.bucket
  {
    hide TB.Step, CountedLen, L2Of, CapturedRecord, Fed;
    if es != [] {
      var k := |es| - 1;
      RecordsAreThoseThatPass(c, f, es[..k]);
      LogGrows(c, f, es[..k]);
      var g := FeedAll(c, f.(log := []), es[..k]);
      FedOnce(c, g, es[k]);
      FedOnce(c, FeedAll(c, f, es[..k]), es[k]);
      AskedAppend(c, es, f.bucket);
      if Eligible(es[k]) {
        PacketRecordsAppend(g.log, RecordOf(c, es[k]));
        assert g.log + [] == g.log;
      }
    }
  }

  /** The records of all packets with a complete layer 2 and a known direction, in order. */
  function EligibleRecords(c: Setup, es: seq<Event>): seq<Record>
    requires AllProper(es)
  {
    if es == [] then []
    else
      var k := |es| - 1;
      EligibleRecords(c, es[..k]) + if Eligible(es[k]) then [RecordOf(c, es[k])] else []
  }

  /** Without a limit every such packet gets its record. */
  lemma {:induction false} UnlimitedPassesAll(c: Setup, f: Feed, es: seq<Event>)
    requires TB.Good(f.bucket) && AllProper(es) && !c.limited
    ensures PacketRecords(Accepted(c, f, es)) == EligibleRecords(c, es)
  {
    hide CountedLen, L2Of, CapturedRecord, Accepted, PacketRecords;
    RecordsAreThoseThatPass(c, f, es);
    AllPass(c, f.bucket, es);
  }

  lemma {:induction false} AllPass(c: Setup, b: TB.Bucket, es: seq<Event>)
    requires TB.Good(b) && AllProper(es) && !c.limited
    ensures Passing(c, b, es) == EligibleRecords(c, es)
  {
    hide CountedLen, L2Of, CapturedRecord;
    if es != [] {
      AllPass(c, b, es[..|es| - 1]);
    }
  }
}
