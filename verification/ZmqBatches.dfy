/** What the ZMQ output has flushed: batches of records, the messages they became, and the counters for them. */
module ZmqBatches {
  import opened Basics
  import opened Bytes
  import opened Outputs
  import opened ZmqCodec

  /** Records of captured packets hold a label; a heartbeat is a bare Ethernet header. */
  predicate IsCaptured(r: Record) { |r.data| >= 18 }

  /** The captured packets among records, with their counted bytes. */
  function Captured(rs: seq<Record>): (t: Tally)
    ensures t.packets <= |rs|
  {
    if rs == [] then NONE
    else
      var t := Captured(rs[..|rs| - 1]);
      var r := rs[|rs| - 1];
      if IsCaptured(r) then Plus(t, |r.data| - 4) else t
  }

  /** A flushed batch and whether the socket took it. */
  datatype Batch = Batch(records: seq<Record>, sent: bool)

  /** The captured packets in batches that were, or were not, sent. */
  function CapturedIn(bs: seq<Batch>, sent: bool): Tally {
    if bs == [] then NONE
    else
      var t := CapturedIn(bs[..|bs| - 1], sent);
      var b := bs[|bs| - 1];
      if b.sent == sent then Both(t, Captured(b.records)) else t
  }

  /** The heartbeats in batches that were sent. */
  function HeartbeatsIn(bs: seq<Batch>): nat {
    if bs == [] then 0
    else
      var b := bs[|bs| - 1];
      HeartbeatsIn(bs[..|bs| - 1]) + if b.sent then |b.records| - Captured(b.records).packets else 0
  }

  /** All records of batches, in the order they were added. */
  function RecordsOf(bs: seq<Batch>): seq<Record> {
    if bs == [] then [] else RecordsOf(bs[..|bs| - 1]) + bs[|bs| - 1].records
  }

  /** No batch is empty, and all fit the wire format. */
  ghost predicate Sendable(bs: seq<Batch>) {
    forall i :: 0 <= i < |bs| ==> AllFit(bs[i].records) && Exact(bs[i].records) && 0 < |bs[i].records| < 0x10000
  }

  /** The messages of the batches that were sent. */
  ghost function Messages(bs: seq<Batch>, keybit: nat, uuid: seq<byte>): seq<seq<byte>>
    requires keybit < LIMIT32 && |uuid| == 16 && Sendable(bs)
  {
    if bs == [] then []
    else
      var b := bs[|bs| - 1];
      Messages(bs[..|bs| - 1], keybit, uuid) + if b.sent then [EncodeBatch(keybit, uuid, b.records)] else []
  }

  lemma CapturedAppend(rs: seq<Record>, r: Record)
    ensures Captured(rs + [r]) == if IsCaptured(r) then Plus(Captured(rs), |r.data| - 4) else Captured(rs)
  {
    assert (rs + [r])[..|rs|] == rs;
  }

  /** What a flush adds to the account of the batches. */
  lemma BatchAppend(bs: seq<Batch>, b: Batch)
    ensures CapturedIn(bs + [b], b.sent) == Both(CapturedIn(bs, b.sent), Captured(b.records))
    ensures CapturedIn(bs + [b], !b.sent) == CapturedIn(bs, !b.sent)
    ensures HeartbeatsIn(bs + [b]) == HeartbeatsIn(bs) + if b.sent then |b.records| - Captured(b.records).packets else 0
    ensures RecordsOf(bs + [b]) == RecordsOf(bs) + b.records
  {
    assert (bs + [b])[..|bs|] == bs;
  }

  lemma MessageAppend(bs: seq<Batch>, b: Batch, keybit: nat, uuid: seq<byte>)
    requires keybit < LIMIT32 && |uuid| == 16 && Sendable(bs) && AllFit(b.records) && Exact(b.records) && 0 < |b.records| < 0x10000
    ensures Sendable(bs + [b])
    ensures Messages(bs + [b], keybit, uuid)
         == Messages(bs, keybit, uuid) + if b.sent then [EncodeBatch(keybit, uuid, b.records)] else []
  {
    assert (bs + [b])[..|bs|] == bs;
  }

  /** The totals are those of the batches flushed so far, and the messages sent are theirs. */
  ghost predicate Account(totals: Totals, tooSmall: Tally, bs: seq<Batch>, sent: seq<seq<byte>>, keybit: nat, uuid: seq<byte>) {
    && totals.forwarded == CapturedIn(bs, true)
    && totals.errors == Both(tooSmall, CapturedIn(bs, false))
    && totals.heartbeats == HeartbeatsIn(bs)
    && |uuid| == 16 && keybit < LIMIT32 && Sendable(bs) && sent == Messages(bs, keybit, uuid)
  }

  /** Every packet offered is counted once or pending. */
  predicate Balanced(totals: Totals, pending: seq<Record>, offered: Tally) {
    && PacketsOf(totals) + Captured(pending).packets == offered.packets
    && BytesOf(totals) + Captured(pending).bytes == offered.bytes
  }

  function AfterFlush(totals: Totals, pending: seq<Record>, ok: bool): Totals {
    var t := Captured(pending);
    if ok then totals.(forwarded := Both(totals.forwarded, t), heartbeats := totals.heartbeats + (|pending| - t.packets))
    else totals.(errors := Both(totals.errors, t))
  }

  lemma FlushKeepsAccount(totals: Totals, tooSmall: Tally, bs: seq<Batch>, sent: seq<seq<byte>>, keybit: nat, uuid: seq<byte>,
                          pending: seq<Record>, offered: Tally, ok: bool)
    requires Account(totals, tooSmall, bs, sent, keybit, uuid) && Balanced(totals, pending, offered)
    requires AllFit(pending) && Exact(pending) && 0 < |pending| < 0x10000
    ensures Balanced(AfterFlush(totals, pending, ok), [], offered)
    ensures Account(AfterFlush(totals, pending, ok), tooSmall, bs + [Batch(pending, ok)],
                    if ok then sent + [EncodeBatch(keybit, uuid, pending)] else sent, keybit, uuid)
    ensures RecordsOf(bs + [Batch(pending, ok)]) == RecordsOf(bs) + pending
  {
    hide CapturedIn, HeartbeatsIn, Messages, RecordsOf, EncodeBatch, AllFit, Sendable, Captured;
    var b := Batch(pending, ok);
    BatchAppend(bs, b);
    MessageAppend(bs, b, keybit, uuid);
    NothingCaptured([]);
  }

  /** A new output: nothing flushed, nothing counted. */
  lemma EmptyAccount(totals: Totals, none: Tally, bs: seq<Batch>, sent: seq<seq<byte>>, keybit: nat, uuid: seq<byte>)
    requires totals == NO_TOTALS && none == NONE && bs == [] && sent == [] && |uuid| == 16 && keybit < LIMIT32
    ensures Account(totals, none, bs, sent, keybit, uuid)
  {
    hide CapturedIn, HeartbeatsIn, Messages, RecordsOf, Sendable;
    NoBatches(bs);
    NoMessages(bs, sent, keybit, uuid);
  }

  lemma EmptyBalance(totals: Totals, none: Tally, rs: seq<Record>)
    requires totals == NO_TOTALS && none == NONE && rs == []
    ensures Balanced(totals, rs, none)
  {
    hide Captured;
    NothingCaptured(rs);
  }

  lemma NoBatches(bs: seq<Batch>)
    requires bs == []
    ensures forall sent :: CapturedIn(bs, sent) == NONE
    ensures HeartbeatsIn(bs) == 0 && RecordsOf(bs) == []
  {
  }

  lemma NoMessages(bs: seq<Batch>, sent: seq<seq<byte>>, keybit: nat, uuid: seq<byte>)
    requires bs == [] && sent == [] && |uuid| == 16 && keybit < LIMIT32
    ensures Sendable(bs) && sent == Messages(bs, keybit, uuid)
  {
  }

  lemma EmptyBatch(rs: seq<Record>)
    requires rs == []
    ensures AllFit(rs) && Exact(rs) && EncodeRecords(rs) == []
  {
  }

  lemma NothingCaptured(rs: seq<Record>)
    requires rs == []
    ensures Captured(rs) == NONE
  {
  }

  // ---- what a receiver sees ------------------------------------------------------------------------

  function SentRecords(bs: seq<Batch>): seq<Record> {
    if bs == [] then []
    else SentRecords(bs[..|bs| - 1]) + if bs[|bs| - 1].sent then bs[|bs| - 1].records else []
  }

  /** The records a receiver finds in a message. */
  function RecordsIn(m: seq<byte>): seq<Record> {
    if |m| < BATCH_HEADER then [] else Decode(m, BATCH_HEADER, Be16(m, 2)).0
  }

  /** All records found in messages, in order. */
  function Received(ms: seq<seq<byte>>): seq<Record> {
    if ms == [] then [] else Received(ms[..|ms| - 1]) + RecordsIn(ms[|ms| - 1])
  }

  /** A message that decodes without error, with true capture lengths, and ends with its last record. */
  ghost predicate Decodes(m: seq<byte>) {
    && |m| >= BATCH_HEADER
    && var d := Decode(m, BATCH_HEADER, Be16(m, 2));
    d.1 && AllFit(d.0) && Exact(d.0) && m[BATCH_HEADER..] == EncodeRecords(d.0)
  }

  /** A receiver that writes what it takes to a file handles such a message to the end and writes each record's data. */
  lemma DecodingMessagesAreTakenWhole(m: seq<byte>, ending: Ending, taken: seq<seq<byte>>)
    requires Decodes(m) && Handled(m, RecordsIn(m), true, Some(_ => true), ending, taken)
    ensures ending == Finished && |taken| == |RecordsIn(m)|
    ensures forall i :: 0 <= i < |taken| ==> taken[i] == RecordsIn(m)[i].data
  {
    hide EncodeRecords, Exact, AllFit, Decode, DataAt;
    var rs := RecordsIn(m);
    forall i | 0 <= i < |rs|
      ensures TakesInside(m, rs, i)
      ensures m[DataAt(rs, i)..DataAt(rs, i) + rs[i].caplen] == rs[i].data
    {
      ExactMessagesAreTakenWhole(m, rs, i);
    }
  }

  /** Every message sent decodes, and together they give the records of the batches sent, in order. */
  lemma {:induction false} ReceivedAreSent(bs: seq<Batch>, keybit: nat, uuid: seq<byte>)
    requires keybit < LIMIT32 && |uuid| == 16 && Sendable(bs)
    ensures forall i :: 0 <= i < |Messages(bs, keybit, uuid)| ==> Decodes(Messages(bs, keybit, uuid)[i])
    ensures Received(Messages(bs, keybit, uuid)) == SentRecords(bs)
  {
    hide EncodeBatch, Decode, EncodeRecords, Exact, AllFit;
    if bs != [] {
      var b := bs[|bs| - 1];
      var before := Messages(bs[..|bs| - 1], keybit, uuid);
      ReceivedAreSent(bs[..|bs| - 1], keybit, uuid);
      if b.sent {
        BatchRoundTrip(keybit, uuid, b.records);
        var m := EncodeBatch(keybit, uuid, b.records);
        assert (before + [m])[..|before|] == before;
      } else {
        assert Messages(bs, keybit, uuid) == before;
      }
    }
  }

  lemma {:induction false} CapturedJoin(a: seq<Record>, b: seq<Record>)
    ensures Captured(a + b) == Both(Captured(a), Captured(b))
  {
    if b == [] {
      assert a + b == a;
    } else {
      var n := |b| - 1;
      CapturedJoin(a, b[..n]);
      CapturedAppend(a + b[..n], b[n]);
      assert a + b == a + b[..n] + [b[n]];
    }
  }

  lemma {:induction false} SentAreCounted(bs: seq<Batch>)
    ensures Captured(SentRecords(bs)) == CapturedIn(bs, true)
    ensures |SentRecords(bs)| == CapturedIn(bs, true).packets + HeartbeatsIn(bs)
    ensures Sendable(bs) ==> Exact(SentRecords(bs))
  {
    if bs != [] {
      SentAreCounted(bs[..|bs| - 1]);
      CapturedJoin(SentRecords(bs[..|bs| - 1]), if bs[|bs| - 1].sent then bs[|bs| - 1].records else []);
    }
  }

  /**
    The counters agree with the other end: a receiver of the messages sent decodes exactly as many captured
    packets, with exactly as many bytes, as are counted forwarded, and exactly the counted heartbeats.
   */
  lemma CountersMatchReceiver(totals: Totals, tooSmall: Tally, bs: seq<Batch>, sent: seq<seq<byte>>, keybit: nat, uuid: seq<byte>)
    requires Account(totals, tooSmall, bs, sent, keybit, uuid)
    ensures forall i :: 0 <= i < |sent| ==> Decodes(sent[i])
    ensures Received(sent) == SentRecords(bs) && Exact(Received(sent)) && Captured(Received(sent)) == totals.forwarded
    ensures |Received(sent)| == totals.forwarded.packets + totals.heartbeats
  {
    hide Captured, CapturedIn, HeartbeatsIn, Exact, Received;
    ReceivedAreSent(bs, keybit, uuid);
    SentAreCounted(bs);
  }
}
