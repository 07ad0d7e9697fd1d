/**
  The ZMQ output: captured packets and heartbeats collect in one batch buffer, which is flushed as a single
  message. The socket is a sequence of outcomes, one per call of zmq_send.
 */
module ZmqOutput {
  import opened Basics
  import opened Bytes
  import opened PacketParse
  import opened Outputs
  import opened OutputStats
  import opened Stats
  import opened ZmqCodec
  import opened ZmqBatches
  import opened ZmqFeed
  import TB = TokenBucket

  const BUFFER_SIZE: nat := 1048576
  const FLUSH_SECONDS: int := 1
  const FLUSH_RECORDS: nat := 65535

  /** A batch that waits although its first packet is more than a second old. */
  predicate Stale(num: nat, first: int, now: int) {
    num > 0 && first != 0 && now > first + FLUSH_SECONDS
  }

  /** A batch that has to go before a record of n frame bytes joins it: full in number, too old, or out of space. */
  predicate MustFlush(num: nat, first: int, pos: nat, n: nat, sec: int) {
    num >= FLUSH_RECORDS || Stale(num, first, sec) || pos + RECORD_HEADER + n + 4 > BUFFER_SIZE
  }

  class Output {
    const slice: int
    const tag: nat
    const keybit: nat
    const uuid: seq<byte>
    const limited: bool
    const throttle: TB.Throttle
    const heartbeatMs: int
    const stats: Statistics
    const socket: nat -> bool
    const buf: array<byte>
    var calls: nat
    var pos: nat
    var num: nat
    var heartbeatNum: nat
    var dataBytes: nat
    var first: int
    var lastPacket: TB.Time
    /** What this output added to the statistics it shares with others. */
    ghost var totals: Totals
    ghost var pending: seq<Record>
    ghost var batches: seq<Batch>
    ghost var offered: Tally
    ghost var tooSmall: Tally
    ghost var sent: seq<seq<byte>>

    /** The buffer holds the pending records, and the counts are theirs. */
    ghost predicate Buffered()
      reads this, buf
    {
      && |uuid| == 16 && keybit < LIMIT32
      && buf.Length == BUFFER_SIZE && BATCH_HEADER <= pos <= BUFFER_SIZE
      && AllFit(pending) && Exact(pending) && num == |pending| && 32 * num <= pos - BATCH_HEADER && dataBytes <= pos - BATCH_HEADER
      && buf[BATCH_HEADER..pos] == EncodeRecords(pending)
      && heartbeatNum <= num && Captured(pending) == Tally(num - heartbeatNum, dataBytes)
    }

    /** The totals are those of the batches, and every packet offered is counted once or pending. */
    ghost predicate Booked()
      reads this, stats, stats.Counters()
    {
      stats.Valid() && Account(totals, tooSmall, batches, sent, keybit, uuid) && Balanced(totals, pending, offered)
    }

    /** Between calls no heartbeat is pending: each flushes at once. */
    ghost predicate Valid()
      reads this, buf, throttle, stats, stats.Counters()
    {
      throttle.Valid() && Buffered() && Booked() && heartbeatNum == 0
    }

    /** The statistics moved by exactly what this output added. */
    twostate predicate Posted()
      reads this, stats
    {
      MovesWith(old(totals), totals, old(stats.book), stats.book)
    }

    /** Every record added so far, in order: those flushed, then those pending. */
    ghost function Log(): seq<Record>
      reads this
    {
      RecordsOf(batches) + pending
    }

    ghost function Configured(): Setup {
      Setup(slice, tag, limited, heartbeatMs)
    }

    ghost function Fed(): Feed
      reads this, throttle
    {
      Feed(throttle.State(), lastPacket, Log(), offered, tooSmall, totals.direction, totals.rateLimited)
    }

    constructor (slice: int, serviceTag: nat, uuid: seq<byte>, rateLimitMbps: nat, heartbeatMs: int, now: TB.Time,
                 stats: Statistics, socket: nat -> bool)
      requires serviceTag < LIMIT32 && |uuid| == 16 && rateLimitMbps <= 0x7FFF_FFFF && stats.Valid()
      ensures Valid() && Log() == [] && offered == NONE && sent == [] && this.stats == stats
      ensures fresh(throttle) && fresh(buf)
    {
      hide Account, Balanced, EncodeRecords, Captured, AllFit, Exact, Shows, Statistics.Apart, RecordsOf;
      this.slice, tag, keybit, this.uuid := slice, serviceTag % 0x10000, serviceTag, uuid;
      limited := rateLimitMbps > 0;
      throttle := new TB.Throttle(rateLimitMbps * 1_000_000);
      this.heartbeatMs, this.stats, this.socket, calls := heartbeatMs, stats, socket, 0;
      buf := new byte[BUFFER_SIZE];
      pos, num, heartbeatNum, dataBytes, first, lastPacket := BATCH_HEADER, 0, 0, 0, 0, now;
      totals, pending, batches, offered, tooSmall, sent := NO_TOTALS, [], [], NONE, NONE, [];
      new;
      EmptyBatch(pending);
      NothingCaptured(pending);
      NoBatches(batches);
      EmptyAccount(totals, tooSmall, batches, sent, keybit, uuid);
      EmptyBalance(totals, offered, pending);
    }

    // ---- writing into the buffer -----------------------------------------------------------------

    method Write(x: seq<byte>)
      requires pos + |x| <= buf.Length
      modifies this`pos, buf
      ensures pos == old(pos) + |x| && buf[..pos] == old(buf[..pos]) + x
    {
      forall i | 0 <= i < |x| {
        buf[pos + i] := x[i];
      }
      pos := pos + |x|;
      assert buf[..pos] == buf[..old(pos)] + buf[old(pos)..pos];
      assert buf[..old(pos)] == old(buf[..pos]);
      assert buf[old(pos)..pos] == x;
    }

    method WriteMplsType()
      requires 2 <= pos <= buf.Length
      modifies buf
      ensures buf[..pos] == old(buf[..pos - 2]) + PutBe16(MPLS)
    {
      var x := PutBe16(MPLS);
      buf[pos - 2], buf[pos - 1] := x[0], x[1];
    }

    /** The layer 2 header with its last type replaced by MPLS. */
    method WriteL2(data: seq<byte>, l2: nat)
      requires 14 <= l2 <= |data| && pos + l2 <= buf.Length
      modifies this`pos, buf
      ensures pos == old(pos) + l2 && buf[..pos] == old(buf[..pos]) + (data[..l2 - 2] + PutBe16(MPLS))
    {
      hide PutBe16;
      ghost var before := buf[..pos];
      if l2 == 14 {
        Write(data[..12] + PutBe16(MPLS));
      } else {
        Write(data[..14]);
        Write(data[14..l2]);
        assert buf[..pos] == before + data[..l2];
        assert buf[..pos - 2] == buf[..pos][..pos - 2] == before + data[..l2 - 2];
        WriteMplsType();
        assert buf[..pos] == before + data[..l2 - 2] + PutBe16(MPLS);
      }
    }

    method WriteHeader(r: Record)
      requires Fits(r) && pos + RECORD_HEADER <= buf.Length
      modifies this`pos, buf
      ensures pos == old(pos) + RECORD_HEADER
      ensures buf[..pos] == old(buf[..pos]) + (PutBe16(|r.data|) + PacketHeader(r))
    {
      hide PutBe16, PacketHeader;
      Write(PutBe16(|r.data|));
      Write(PacketHeader(r));
    }

    /** The record of a packet, part by part. */
    method WriteCaptured(data: seq<byte>, wireLen: nat, at: TB.Time, direct: nat, n: nat, l2: nat)
      requires 14 <= l2 <= n <= |data| && n <= MAX_RECORD_FRAME && pos + RECORD_HEADER + n + 4 <= buf.Length
      modifies this`pos, buf
      ensures pos == old(pos) + RECORD_HEADER + n + 4
      ensures buf[..pos] == old(buf[..pos]) + EncodeRecord(CapturedRecord(data, wireLen, at, direct, tag, n, l2))
    {
      hide PutBe16, PacketHeader, Label;
      var r := CapturedRecord(data, wireLen, at, direct, tag, n, l2);
      ghost var before := buf[..pos];
      ghost var head := PutBe16(|r.data|) + PacketHeader(r);
      ghost var layer2 := data[..l2 - 2] + PutBe16(MPLS);
      WriteHeader(r);
      WriteL2(data, l2);
      Write(Label(direct, tag));
      Write(data[l2..n]);
      assert buf[..pos] == before + head + layer2 + Label(direct, tag) + data[l2..n];
      assert data[..n][..l2 - 2] == data[..l2 - 2] && data[..n][l2..] == data[l2..n];
      assert r.data == layer2 + Label(direct, tag) + data[l2..n];
    }

    // ---- flushing --------------------------------------------------------------------------------

    /** Puts the batch header in front of the records. */
    method Seal()
      requires Buffered()
      modifies buf
      ensures Buffered() && num < 0x10000 && buf[..pos] == EncodeBatch(keybit, uuid, pending)
    {
      hide EncodeRecords, Captured, AllFit, BatchHeader;
      var header := BatchHeader(num, keybit, uuid);
      forall i | 0 <= i < BATCH_HEADER {
        buf[i] := header[i];
      }
      assert buf[BATCH_HEADER..pos] == old(buf[BATCH_HEADER..pos]);
      assert buf[..pos] == buf[..BATCH_HEADER] + buf[BATCH_HEADER..pos];
      assert buf[..BATCH_HEADER] == header;
    }

    /** Sends the pending records as one message; they count as forwarded or as dropped. */
    method Flush()
      requires Buffered() && Booked() && num > 0
      modifies this`calls, this`totals, this`sent, this`batches, this`first, this`pos, this`num, this`heartbeatNum,
               this`dataBytes, this`pending, buf, stats`book, stats.Counters()
      ensures Buffered() && Booked() && Posted()
      ensures num == 0 && heartbeatNum == 0 && first == 0 && pos == BATCH_HEADER && pending == []
      ensures batches == old(batches) + [Batch(old(pending), socket(old(calls)))] && calls == old(calls) + 1
      ensures Log() == old(Log())
      ensures totals.direction == old(totals.direction) && totals.rateLimited == old(totals.rateLimited)
    {
      hide EncodeBatch, Account, Balanced, RecordsOf, Exact, AllFit, EncodeRecords, Captured, Statistics.Valid, MovesWith;
      Seal();
      var ok := socket(calls);
      calls := calls + 1;
      Settle(ok);
      Reset();
    }

    /** Moves the pending records into the statistics. */
    method Settle(ok: bool)
      requires Buffered() && Booked() && 0 < num < 0x10000 && buf[..pos] == EncodeBatch(keybit, uuid, pending)
      modifies this`totals, this`sent, this`batches, stats`book, stats.Counters()
      ensures stats.Valid() && Account(totals, tooSmall, batches, sent, keybit, uuid) && Balanced(totals, [], offered)
      ensures Posted()
      ensures batches == old(batches) + [Batch(pending, ok)] && RecordsOf(batches) == old(Log())
      ensures totals.direction == old(totals.direction) && totals.rateLimited == old(totals.rateLimited)
    {
      hide EncodeRecords, EncodeBatch, Captured, Account, Balanced, AllFit, Exact, RecordsOf, Statistics.Valid;
      FlushKeepsAccount(totals, tooSmall, batches, sent, keybit, uuid, pending, offered, ok);
      if ok {
        stats.AddForwarded(num - heartbeatNum, dataBytes);
        stats.AddHeartbeats(heartbeatNum);
        sent := sent + [buf[..pos]];
      } else {
        stats.AddErrors(num - heartbeatNum, dataBytes);
      }
      totals := AfterFlush(totals, pending, ok);
      batches := batches + [Batch(pending, ok)];
    }

    method Reset()
      requires Buffered()
      modifies this`first, this`pos, this`num, this`heartbeatNum, this`dataBytes, this`pending
      ensures Buffered() && num == 0 && heartbeatNum == 0 && first == 0 && pos == BATCH_HEADER && pending == []
    {
      hide EncodeRecords, AllFit, Exact, Captured;
      first, pos, num, heartbeatNum, dataBytes := 0, BATCH_HEADER, 0, 0, 0;
      pending := [];
      EmptyBatch(pending);
      NothingCaptured(pending);
    }

    method FlushIfStale(now: int)
      requires Valid()
      modifies this`calls, this`totals, this`sent, this`batches, this`first, this`pos, this`num, this`heartbeatNum,
               this`dataBytes, this`pending, buf, stats`book, stats.Counters()
      ensures Valid() && Posted() && !Stale(num, first, now) && Fed() == old(Fed())
      ensures if old(Stale(num, first, now)) then num == 0 else batches == old(batches) && num == old(num) && first == old(first)
    {
      hide Account, Balanced, RecordsOf, Exact, AllFit, EncodeRecords, Captured, Statistics.Valid;
      if num > 0 && first != 0 && now > first + FLUSH_SECONDS {
        Flush();
      }
    }

    // ---- captured packets ------------------------------------------------------------------------

    /** Adds the record of a packet to the batch. */
    method Accept(data: seq<byte>, wireLen: nat, at: TB.Time, direct: nat, n: nat, l2: nat)
      requires Buffered() && Booked()
      requires 14 <= l2 <= n <= |data| && n <= MAX_RECORD_FRAME && pos + RECORD_HEADER + n + 4 <= BUFFER_SIZE
      modifies this`pos, this`num, this`dataBytes, this`pending, this`offered, buf
      ensures Buffered() && Booked() && num == old(num) + 1 && offered == Plus(old(offered), n)
      ensures Log() == old(Log()) + [CapturedRecord(data, wireLen, at, direct, tag, n, l2)]
    {
      hide Account, EncodeRecords, EncodeRecord, CapturedRecord, Captured, AllFit, RecordsOf, Shows, Statistics.Apart;
      ghost var r := CapturedRecord(data, wireLen, at, direct, tag, n, l2);
      EncodeAppend(pending, r);
      CapturedAppend(pending, r);
      WriteCaptured(data, wireLen, at, direct, n, l2);
      assert buf[BATCH_HEADER..pos] == buf[..pos][BATCH_HEADER..] == old(buf[..pos])[BATCH_HEADER..] + EncodeRecord(r);
      assert old(buf[..pos])[BATCH_HEADER..] == old(buf[BATCH_HEADER..pos]);
      num := U16(num + 1);
      dataBytes := U32(dataBytes + n);
      pending, offered := pending + [r], Plus(offered, n);
    }

    /** The flushes that make room, and the time stamp of the batch. */
    method MakeRoom(n: nat, sec: int)
      requires Valid() && n <= MAX_RECORD_FRAME
      modifies this`calls, this`totals, this`sent, this`batches, this`first, this`pos, this`num, this`heartbeatNum,
               this`dataBytes, this`pending, buf, stats`book, stats.Counters()
      ensures Valid() && Posted() && Fed() == old(Fed()) && pos + RECORD_HEADER + n + 4 <= BUFFER_SIZE
      ensures first != 0 ==> sec <= first + FLUSH_SECONDS
      ensures num == 0 ==> first == sec
      ensures num > 0 ==> num == old(num) && (old(first) != 0 ==> first == old(first))
      ensures batches == old(batches) <==> !MustFlush(old(num), old(first), old(pos), n, sec)
    {
      hide Account, Balanced, Captured, EncodeRecords, RecordsOf, AllFit, Exact, Statistics.Valid, Output.Buffered, Output.Booked;
      if num == 0 {
        SetFirst(sec);
      }
      var tooMany := num >= FLUSH_RECORDS;
      var tooOld := first != 0 && sec > first + FLUSH_SECONDS;
      var full := pos + RECORD_HEADER + n + 4 > BUFFER_SIZE;
      if tooMany || tooOld || full {
        SomePending();
        Flush();
        SetFirst(sec);
      }
      if first == 0 {
        SetFirst(sec);
      }
    }

    method SetFirst(sec: int)
      requires Valid()
      modifies this`first
      ensures Valid() && first == sec && Fed() == old(Fed())
    {
      hide Account, Balanced, Captured, EncodeRecords, RecordsOf, AllFit, Exact, Shows, Statistics.Apart;
      first := sec;
    }

    /** An empty batch leaves the whole buffer. */
    lemma SomePending()
      requires Buffered()
      ensures num == 0 ==> pos == BATCH_HEADER
    {
      hide AllFit, Exact, Captured, EncodeRecords;
      if num == 0 {
        EmptyBatch(pending);
      }
    }

    /** Counts a packet that gets no record: too small, of unknown direction, or above the rate limit. */
    method Drop(fate: Fate, n: nat, now: int)
      requires Valid() && n < LIMIT32 && fate != Forwarded
      modifies this`calls, this`totals, this`sent, this`batches, this`first, this`pos, this`num, this`heartbeatNum,
               this`dataBytes, this`pending, this`offered, this`tooSmall, buf, stats`book, stats.Counters()
      ensures Valid() && Posted() && !Stale(num, first, now)
      ensures var f := old(Fed()).(offered := Plus(old(offered), n));
        Fed() == match fate
                 case UnknownDirection => f.(direction := Plus(f.direction, n))
                 case AboveRate => f.(rateLimited := Plus(f.rateLimited, n))
                 case _ => f.(tooSmall := Plus(f.tooSmall, n))
      ensures !old(Stale(num, first, now)) ==> batches == old(batches)
    {
      hide Account, Balanced, RecordsOf, Exact, AllFit, EncodeRecords, Captured, Statistics.Valid;
      DropKeepsBooks(fate, n);
      stats.CountPacket(fate, n);
      totals, offered := Counted(totals, fate, n), Plus(offered, n);
      if fate == Failed {
        tooSmall := Plus(tooSmall, n);
      }
      FlushIfStale(now);
    }

    lemma DropKeepsBooks(fate: Fate, n: nat)
      requires Booked() && fate != Forwarded
      ensures Account(Counted(totals, fate, n), if fate == Failed then Plus(tooSmall, n) else tooSmall, batches, sent, keybit, uuid)
      ensures Balanced(Counted(totals, fate, n), pending, Plus(offered, n))
    {
      hide CapturedIn, HeartbeatsIn, Messages, Sendable, Captured;
    }

    /** The rate limit, if one is set. */
    method Admit(n: nat, at: TB.Time) returns (ok: bool)
      requires Valid() && n < LIMIT32 && TB.ValidTime(at)
      modifies throttle
      ensures Valid()
      ensures (throttle.State(), ok) == if limited then TB.Step(old(throttle.State()), n, at) else (old(throttle.State()), true)
    {
      hide Account, Balanced, Captured, EncodeRecords, RecordsOf, TB.Step, Exact, AllFit, Shows, Statistics.Apart;
      ok := true;
      if limited {
        ok := throttle.Consume(n, at);
      }
    }

    /** Makes room for the record of a packet and adds it. */
    method Enqueue(data: seq<byte>, wireLen: nat, at: TB.Time, direct: nat, n: nat, l2: nat)
      requires Valid() && 14 <= l2 <= n <= |data| && n <= MAX_RECORD_FRAME
      modifies this, buf, stats`book, stats.Counters()
      ensures Valid() && Posted() && !Stale(num, first, at.sec)
      ensures var f := old(Fed());
        Fed() == f.(last := at, offered := Plus(f.offered, n),
                    log := f.log + [CapturedRecord(data, wireLen, at, direct, tag, n, l2)])
      ensures batches == old(batches) <==> !MustFlush(old(num), old(first), old(pos), n, at.sec)
    {
      hide Output.Buffered, Output.Booked, RecordsOf, CapturedRecord, MovesWith;
      MakeRoom(n, at.sec);
      Accept(data, wireLen, at, direct, n, l2);
      Stamp(at);
    }

    /** What becomes of one captured packet. */
    method SendPacket(data: seq<byte>, wireLen: nat, at: TB.Time, direct: int) returns (ok: bool)
      requires Valid() && Proper(Packet(data, wireLen, at, direct))
      modifies this, buf, throttle, stats`book, stats.Counters()
      ensures Valid() && Posted() && !Stale(num, first, at.sec)
      ensures Fed() == FedPacket(Configured(), old(Fed()), data, wireLen, at, direct)
      ensures var n, l2 := CountedLen(data, slice), L2Of(data);
        var paid := TB.Step(old(throttle.State()), n, at);
        var asked := l2.Some? && direct != DIR_UNKNOWN && limited;
        && (ok <==> l2.Some? && direct != DIR_UNKNOWN && (limited ==> paid.1))
        && Log() == old(Log()) + (if ok then [CapturedRecord(data, wireLen, at, direct, tag, n, l2.value)] else [])
        && throttle.State() == (if asked then paid.0 else old(throttle.State()))
        && offered == Plus(old(offered), n)
        && tooSmall == (if l2 == None then Plus(old(tooSmall), n) else old(tooSmall))
        && totals.direction == (if l2.Some? && direct == DIR_UNKNOWN then Plus(old(totals.direction), n) else old(totals.direction))
        && totals.rateLimited == (if asked && !paid.1 then Plus(old(totals.rateLimited), n) else old(totals.rateLimited))
        && (batches != old(batches) ==> old(Stale(num, first, at.sec)) || (ok && MustFlush(old(num), old(first), old(pos), n, at.sec)))
    {
      hide Output.Buffered, Output.Booked, RecordsOf, L2Of, TB.Step, CapturedRecord, MovesWith;
      var l2 := L2HeaderLen(data[..FrameLen(|data|, 0, MAX_RECORD_FRAME)]);
      L2OfIs(data);
      if l2 == 0 {
        Drop(Failed, |data|, at.sec);
        return false;
      }
      var n := RecordLen(data, slice, l2);
      if direct == DIR_UNKNOWN {
        Drop(UnknownDirection, n, at.sec);
        return false;
      }
      var admitted := Admit(n, at);
      if !admitted {
        Drop(AboveRate, n, at.sec);
        return false;
      }
      Enqueue(data, wireLen, at, direct, n, l2);
      ok := true;
    }

    // ---- heartbeats ------------------------------------------------------------------------------

    /** Adds a heartbeat and flushes at once. */
    method SendHeartbeat(at: TB.Time)
      requires Valid()
      modifies this, buf, stats`book, stats.Counters()
      ensures Valid() && Posted() && pending == []
      ensures Fed() == old(Fed()).(last := at, log := old(Fed()).log + [HeartbeatRecord(at)])
    {
      hide Output.Buffered, Output.Booked, RecordsOf, HeartbeatRecord, MovesWith;
      RoomForHeartbeat(at);
      ghost var t, b := totals, stats.book;
      AddHeartbeat(at);
      Flush();
      MovesOn(old(totals), t, totals, old(stats.book), b, stats.book);
      Stamp(at);
    }

    /** Remembers when the last record was added. */
    method Stamp(at: TB.Time)
      requires Buffered() && Booked()
      modifies this`lastPacket
      ensures Buffered() && Booked() && lastPacket == at
    {
      hide Account, Balanced, Captured, EncodeRecords, AllFit, Exact, Shows, Statistics.Apart;
      lastPacket := at;
    }

    method RoomForHeartbeat(at: TB.Time)
      requires Valid()
      modifies this`calls, this`totals, this`sent, this`batches, this`first, this`pos, this`num, this`heartbeatNum,
               this`dataBytes, this`pending, buf, stats`book, stats.Counters()
      ensures Valid() && Posted() && Fed() == old(Fed()) && pos + RECORD_HEADER + 14 <= BUFFER_SIZE
    {
      hide Account, Balanced, Captured, EncodeRecords, RecordsOf, AllFit, Exact, Shows, Statistics.Apart;
      if pos + RECORD_HEADER + 14 > BUFFER_SIZE {
        assert num > 0 by {
          SomePending();
        }
        Flush();
      }
      if num == 0 {
        first := at.sec;
      }
    }

    method AddHeartbeat(at: TB.Time)
      requires Buffered() && Booked() && heartbeatNum == 0 && pos + RECORD_HEADER + 14 <= BUFFER_SIZE
      modifies this`pos, this`num, this`heartbeatNum, this`pending, buf
      ensures Buffered() && Booked() && num == old(num) + 1
      ensures Log() == old(Log()) + [HeartbeatRecord(at)]
    {
      hide Account, EncodeRecords, PacketHeader, Captured, AllFit, RecordsOf, Fits, PutBe16, Messages, U16, Shows, Statistics.Apart;
      var r := HeartbeatRecord(at);
      ghost var before := buf[..pos];
      EncodeAppend(pending, r);
      CapturedAppend(pending, r);
      WriteHeader(r);
      Write(r.data);
      assert buf[..pos] == before + EncodeRecord(r);
      assert buf[BATCH_HEADER..pos] == buf[..pos][BATCH_HEADER..] == before[BATCH_HEADER..] + EncodeRecord(r);
      assert before[BATCH_HEADER..] == old(buf[BATCH_HEADER..pos]);
      heartbeatNum := U16(heartbeatNum + 1);
      num := U16(num + 1);
      pending := pending + [r];
    }

    /** The periodic call: a stale batch is flushed, and a heartbeat goes out when one is due. */
    method Heartbeat(now: int, clock: TB.Time)
      requires Valid()
      modifies this, buf, stats`book, stats.Counters()
      ensures Valid() && Posted() && !Stale(num, first, now)
      ensures Fed() == ZmqFeed.Fed(Configured(), old(Fed()), Tick(now, clock))
      ensures Due(heartbeatMs, now, clock, old(lastPacket)) ==> pending == []
    {
      hide Account, Balanced, Captured, EncodeRecords, RecordsOf, HeartbeatRecord, AllFit, Exact, Statistics.Valid;
      FlushIfStale(now);
      if heartbeatMs <= 0 || NotDueYet(now, lastPacket, heartbeatMs) {
        return;
      }
      if ElapsedMs(clock, lastPacket) >= heartbeatMs {
        SendHeartbeat(clock);
      }
    }

    /** The end of the output: what is pending is flushed, and every packet offered is counted. */
    method Destroy()
      requires Valid()
      modifies this, buf, stats`book, stats.Counters()
      ensures Valid() && Posted() && pending == [] && Fed() == old(Fed()) && RecordsOf(batches) == old(Log())
      ensures PacketsOf(totals) == offered.packets && BytesOf(totals) == offered.bytes
    {
      hide Account, RecordsOf, EncodeRecords, AllFit, Exact, Captured, Statistics.Valid;
      if num > 0 {
        Flush();
      }
      NothingCaptured(pending);
    }

    // ---- whole runs ------------------------------------------------------------------------------

    method Handle(e: Event)
      requires Valid() && Proper(e)
      modifies this, buf, throttle, stats`book, stats.Counters()
      ensures Valid() && Posted() && Fed() == ZmqFeed.Fed(Configured(), old(Fed()), e)
    {
      hide Account, Balanced, Captured, EncodeRecords, RecordsOf, FedPacket, Exact, AllFit, Statistics.Valid, MovesWith, Due;
      match e {
        case Packet(data, wireLen, at, direct) =>
          var ok := SendPacket(data, wireLen, at, direct);
        case Tick(now, clock) =>
          Heartbeat(now, clock);
      }
    }

    method HandleAll(events: seq<Event>)
      requires Valid() && AllProper(events)
      modifies this, buf, throttle, stats`book, stats.Counters()
      ensures Valid() && Posted() && Fed() == FeedAll(Configured(), old(Fed()), events)
    {
      hide Account, Balanced, Captured, EncodeRecords, RecordsOf, ZmqFeed.Fed, Exact, AllFit, Statistics.Valid, Proper, MovesWith;
      MovesNot(totals, stats.book);
      for i := 0 to |events|
        invariant Valid() && Posted() && Fed() == FeedAll(Configured(), old(Fed()), events[..i])
      {
        assert events[..i + 1][..i] == events[..i];
        ghost var t, b := totals, stats.book;
        Handle(events[i]);
        MovesOn(old(totals), t, totals, old(stats.book), b, stats.book);
      }
      assert events[..|events|] == events;
    }

    /**
      Any run of packets and periodic calls, then the end. The records flushed are exactly those the events
      add, in order; every message sent decodes without error and ends with its last record, and together
      the messages give the records of the batches sent. The totals are those of the records received.
     */
    method Run(events: seq<Event>)
      requires Valid() && AllProper(events)
      modifies this, buf, throttle, stats`book, stats.Counters()
      ensures Valid() && Posted() && pending == []
      ensures RecordsOf(batches) == old(Log()) + Accepted(Configured(), old(Fed()), events)
      ensures PacketRecords(Accepted(Configured(), old(Fed()), events)) == Passing(Configured(), old(throttle.State()), events)
      ensures offered == Both(old(offered), OfferedBy(events, slice))
      ensures PacketsOf(totals) == offered.packets && BytesOf(totals) == offered.bytes
      ensures forall i :: 0 <= i < |sent| ==> Decodes(sent[i])
      ensures Received(sent) == SentRecords(batches) && Captured(Received(sent)) == totals.forwarded
      ensures |Received(sent)| == totals.forwarded.packets + totals.heartbeats
    {
      hide Account, Balanced, Captured, EncodeRecords, RecordsOf, Exact, AllFit, Statistics.Valid, FeedAll, Decodes, Received;
      hide PacketRecords, Passing, Accepted;
      HandleAll(events);
      LogGrows(Configured(), old(Fed()), events);
      AllPacketsAreOffered(Configured(), old(Fed()), events);
      RecordsAreThoseThatPass(Configured(), old(Fed()), events);
      Destroy();
      CountersMatchReceiver(totals, tooSmall, batches, sent, keybit, uuid);
    }

    /**
      Over any run the shared counters advance by exactly the packets and bytes of the run and those pending
      before it, modulo their ranges, and exactly while nothing has wrapped.
     */
    method RunIsCounted(events: seq<Event>)
      requires Valid() && AllProper(events)
      modifies this, buf, throttle, stats`book, stats.Counters()
      ensures Valid() && pending == []
      ensures var n := Both(OfferedBy(events, slice), Captured(old(pending)));
        && Range(PETA) > 0 && Rest(stats.PacketsShown(), Range(PETA)) == Rest(old(stats.PacketsShown()) + n.packets, Range(PETA))
        && Range(EIB) > 0 && Rest(stats.BytesShown(), Range(EIB)) == Rest(old(stats.BytesShown()) + n.bytes, Range(EIB))
        && (PacketsOf(stats.book) < Range(PETA) ==> stats.PacketsShown() == old(stats.PacketsShown()) + n.packets)
        && (BytesOf(stats.book) < Range(EIB) ==> stats.BytesShown() == old(stats.BytesShown()) + n.bytes)
    {
      hide Account, Captured, EncodeRecords, RecordsOf, Exact, AllFit, Statistics.Valid, Decodes, Received, Accepted, OfferedBy;
      hide Range, Rest, Statistics.PacketsShown, Statistics.BytesShown;
      ghost var p0, b0, book0 := stats.PacketsShown(), stats.BytesShown(), stats.book;
      stats.CountersAddUp();
      Run(events);
      stats.CountersAddUp();
      ShownGrows(Range(PETA), PacketsOf(book0), PacketsOf(stats.book), p0, stats.PacketsShown());
      ShownGrows(Range(EIB), BytesOf(book0), BytesOf(stats.book), b0, stats.BytesShown());
    }
  }
}
