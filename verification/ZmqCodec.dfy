/**
  The batch message that the ZMQ output sends and the receiver tool takes apart: a 24-byte header, then
  records of a 2-byte length, a 16-byte packet header and the packet data.
 */
module ZmqCodec {
  import opened Basics
  import opened Bytes
  import opened PacketLayout
  import opened PacketParse

  const BATCH_HEADER: nat := 24
  const RECORD_HEADER: nat := 18
  const VERSION: nat := 2
  const LIMIT32: nat := 0x1_0000_0000

  datatype Record = Record(sec: nat, usec: nat, caplen: nat, len: nat, data: seq<byte>)

  predicate Fits(r: Record) {
    r.sec < LIMIT32 && r.usec < LIMIT32 && r.caplen < LIMIT32 && r.len < LIMIT32 && |r.data| < 0x10000
  }

  ghost predicate AllFit(rs: seq<Record>) {
    forall i :: 0 <= i < |rs| ==> Fits(rs[i])
  }

  function PacketHeader(r: Record): (b: seq<byte>)
    requires Fits(r)
    ensures |b| == 16
  {
    PutBe32(r.sec) + PutBe32(r.usec) + PutBe32(r.caplen) + PutBe32(r.len)
  }

  function EncodeRecord(r: Record): (b: seq<byte>)
    requires Fits(r)
    ensures |b| == RECORD_HEADER + |r.data|
  {
    PutBe16(|r.data|) + PacketHeader(r) + r.data
  }

  function EncodeRecords(rs: seq<Record>): seq<byte>
    requires AllFit(rs)
  {
    if rs == [] then [] else EncodeRecord(rs[0]) + EncodeRecords(rs[1..])
  }

  function BatchHeader(count: nat, keybit: nat, uuid: seq<byte>): (b: seq<byte>)
    requires count < 0x10000 && keybit < LIMIT32 && |uuid| == 16
    ensures |b| == BATCH_HEADER
  {
    PutBe16(VERSION) + PutBe16(count) + PutBe32(keybit) + uuid
  }

  function EncodeBatch(keybit: nat, uuid: seq<byte>, rs: seq<Record>): seq<byte>
    requires keybit < LIMIT32 && |uuid| == 16 && AllFit(rs) && |rs| < 0x10000
  {
    BatchHeader(|rs|, keybit, uuid) + EncodeRecords(rs)
  }

  /** Appending a record to a batch appends its bytes. */
  lemma {:induction false} EncodeAppend(rs: seq<Record>, r: Record)
    requires AllFit(rs) && Fits(r)
    ensures AllFit(rs + [r]) && EncodeRecords(rs + [r]) == EncodeRecords(rs) + EncodeRecord(r)
  {
    hide EncodeRecord;
    if rs == [] {
      assert (rs + [r])[1..] == [];
    } else {
      assert (rs + [r])[1..] == rs[1..] + [r];
      EncodeAppend(rs[1..], r);
    }
  }

  // ---- decoding ------------------------------------------------------------------------------------

  /** The record whose length field is at `at`. */
  function RecordAt(m: seq<byte>, at: nat): Record
    requires at + RECORD_HEADER <= |m| && at + RECORD_HEADER + Be16(m, at) <= |m|
  {
    var data := at + RECORD_HEADER;
    Record(Be32(m, at + 2), Be32(m, at + 6), Be32(m, at + 10), Be32(m, at + 14), m[data..data + Be16(m, at)])
  }

  /** The records found from `at` on, at most n, and whether all n were complete. */
  function Decode(m: seq<byte>, at: nat, n: nat): (seq<Record>, bool)
    requires at <= |m|
    decreases n
  {
    if n == 0 then ([], true)
    else if |m| - at < RECORD_HEADER || |m| - at - RECORD_HEADER < Be16(m, at) then ([], false)
    else
      var rest := Decode(m, at + RECORD_HEADER + Be16(m, at), n - 1);
      ([RecordAt(m, at)] + rest.0, rest.1)
  }

  lemma Shift32(m: seq<byte>, at: nat, n: nat, i: nat)
    requires at + n <= |m| && i + 4 <= n
    ensures Be32(m, at + i) == Be32(m[at..at + n], i)
  {
    var w := m[at..at + n];
    assert w[i] == m[at + i] && w[i + 1] == m[at + i + 1] && w[i + 2] == m[at + i + 2] && w[i + 3] == m[at + i + 3];
  }

  lemma Field32(b: seq<byte>, i: nat, v: nat)
    requires i + 4 <= |b| && v < LIMIT32 && b[i..i + 4] == PutBe32(v)
    ensures Be32(b, i) == v
  {
    hide PutBe32, Be32;
    Shift32(b, i, 4, 0);
  }

  /** Where each field of a record is on the wire. */
  lemma RecordOnTheWire(r: Record)
    requires Fits(r)
    ensures var b := EncodeRecord(r);
      && Be16(b, 0) == |r.data| && Be32(b, 2) == r.sec && Be32(b, 6) == r.usec
      && Be32(b, 10) == r.caplen && Be32(b, 14) == r.len && b[RECORD_HEADER..] == r.data
  {
    hide PutBe16, PutBe32, Be32;
    var b := EncodeRecord(r);
    assert Be16(b, 0) == Be16(PutBe16(|r.data|), 0);
    assert b[2..6] == PutBe32(r.sec) && b[6..10] == PutBe32(r.usec);
    assert b[10..14] == PutBe32(r.caplen) && b[14..18] == PutBe32(r.len);
    Field32(b, 2, r.sec);
    Field32(b, 6, r.usec);
    Field32(b, 10, r.caplen);
    Field32(b, 14, r.len);
  }

  lemma ReadRecord(m: seq<byte>, at: nat, r: Record)
    requires Fits(r) && at + RECORD_HEADER + |r.data| <= |m|
    requires m[at..at + RECORD_HEADER + |r.data|] == EncodeRecord(r)
    ensures Be16(m, at) == |r.data| && RecordAt(m, at) == r
  {
    hide PutBe16, PutBe32, Be32;
    var b := EncodeRecord(r);
    var n := RECORD_HEADER + |r.data|;
    RecordOnTheWire(r);
    assert m[at] == b[0] && m[at + 1] == b[1];
    Shift32(m, at, n, 2);
    Shift32(m, at, n, 6);
    Shift32(m, at, n, 10);
    Shift32(m, at, n, 14);
    assert m[at + RECORD_HEADER..at + n] == m[at..at + n][RECORD_HEADER..] == r.data;
  }

  /** Decoding reads back exactly the records that were encoded, in order, whatever follows them. */
  lemma {:induction false} DecodeEncoded(m: seq<byte>, at: nat, rs: seq<Record>)
    requires AllFit(rs) && at <= |m| && EncodeRecords(rs) <= m[at..]
    ensures Decode(m, at, |rs|) == (rs, true)
    decreases |rs|
  {
    hide EncodeRecord, RecordAt;
    if rs != [] {
      var b, rest := EncodeRecord(rs[0]), EncodeRecords(rs[1..]);
      assert b <= b + rest <= m[at..];
      assert m[at..][..|b|] == m[at..at + |b|] == b;
      ReadRecord(m, at, rs[0]);
      assert m[at + |b|..] == m[at..][|b|..];
      assert rest == (b + rest)[|b|..] <= m[at..][|b|..];
      DecodeEncoded(m, at + |b|, rs[1..]);
      assert rs == [rs[0]] + rs[1..];
    }
  }

  lemma Bytes16(m: seq<byte>, at: nat)
    requires at + 2 <= |m|
    ensures m[at..at + 2] == PutBe16(Be16(m, at))
  {
    assert m[at..at + 2] == [m[at], m[at + 1]];
  }

  lemma Bytes32(m: seq<byte>, at: nat)
    requires at + 4 <= |m|
    ensures m[at..at + 4] == PutBe32(Be32(m, at))
  {
    hide PutBe16, Be16;
    Bytes16(m, at);
    Bytes16(m, at + 2);
    HighAndLow(Be16(m, at), Be16(m, at + 2));
    assert m[at..at + 4] == m[at..at + 2] + m[at + 2..at + 4];
  }

  lemma HighAndLow(high: nat, low: nat)
    requires low < 0x10000
    ensures (high * 0x10000 + low) / 0x10000 == high && (high * 0x10000 + low) % 0x10000 == low
  {
  }

  lemma RecordBytes(m: seq<byte>, at: nat)
    requires at + RECORD_HEADER <= |m| && at + RECORD_HEADER + Be16(m, at) <= |m|
    ensures Fits(RecordAt(m, at)) && EncodeRecord(RecordAt(m, at)) == m[at..at + RECORD_HEADER + Be16(m, at)]
  {
    hide PutBe16, PutBe32, Be16, Be32;
    Bytes16(m, at);
    Bytes32(m, at + 2);
    Bytes32(m, at + 6);
    Bytes32(m, at + 10);
    Bytes32(m, at + 14);
    var end := at + RECORD_HEADER + Be16(m, at);
    assert m[at..end] == m[at..at + 2] + (m[at + 2..at + 6] + m[at + 6..at + 10] + m[at + 10..at + 14] + m[at + 14..at + 18])
                         + m[at + RECORD_HEADER..end];
  }

  /** For any message, what is decoded is what its bytes say: encoding it again gives back the bytes read. */
  lemma {:induction false} DecodedIsEncoded(m: seq<byte>, at: nat, n: nat)
    requires at <= |m|
    ensures var rs := Decode(m, at, n).0; AllFit(rs) && |rs| <= n && EncodeRecords(rs) <= m[at..]
    ensures Decode(m, at, n).1 <==> |Decode(m, at, n).0| == n
    decreases n
  {
    hide EncodeRecord, RecordAt, Be16, Decode, Fits;
    if n == 0 {
      DecodeNone(m, at);
    } else {
      DecodeNext(m, at, n);
      if |m| - at >= RECORD_HEADER && |m| - at - RECORD_HEADER >= Be16(m, at) {
        var end := at + RECORD_HEADER + Be16(m, at);
        DecodedIsEncoded(m, end, n - 1);
        RecordBytes(m, at);
        var rs, rest := Decode(m, at, n).0, Decode(m, end, n - 1).0;
        assert rs[1..] == rest;
        assert m[at..] == m[at..end] + m[end..];
      }
    }
  }

  /** A whole batch message: the header fields and the records come back, and the records end where it ends. */
  lemma BatchRoundTrip(keybit: nat, uuid: seq<byte>, rs: seq<Record>)
    requires keybit < LIMIT32 && |uuid| == 16 && AllFit(rs) && |rs| < 0x10000
    ensures var m := EncodeBatch(keybit, uuid, rs);
      && |m| >= BATCH_HEADER
      && Be16(m, 0) == VERSION && Be16(m, 2) == |rs| && Be32(m, 4) == keybit && m[8..BATCH_HEADER] == uuid
      && Decode(m, BATCH_HEADER, Be16(m, 2)) == (rs, true)
      && m[BATCH_HEADER..] == EncodeRecords(rs)
  {
    hide EncodeRecords, PutBe16, PutBe32, Be32;
    var m := EncodeBatch(keybit, uuid, rs);
    var h := BatchHeader(|rs|, keybit, uuid);
    assert forall i :: 0 <= i < BATCH_HEADER ==> m[i] == h[i];
    assert Be16(m, 0) == Be16(PutBe16(VERSION), 0);
    assert Be16(m, 2) == Be16(PutBe16(|rs|), 0);
    assert m[4..8] == h[4..8] == PutBe32(keybit);
    Field32(m, 4, keybit);
    assert m[8..BATCH_HEADER] == h[8..] == uuid;
    assert m[BATCH_HEADER..] == EncodeRecords(rs);
    DecodeEncoded(m, BATCH_HEADER, rs);
  }

  lemma DecodeNext(m: seq<byte>, at: nat, n: nat)
    requires at <= |m| && n > 0
    ensures var cut := |m| - at < RECORD_HEADER || |m| - at - RECORD_HEADER < Be16(m, at);
      && (cut ==> Decode(m, at, n) == ([], false))
      && (!cut ==> var rest := Decode(m, at + RECORD_HEADER + Be16(m, at), n - 1);
                   Decode(m, at, n) == ([RecordAt(m, at)] + rest.0, rest.1))
  {
  }

  // ---- the receiver --------------------------------------------------------------------------------

  /** The capture length of each record is that of its data. */
  ghost predicate Exact(rs: seq<Record>) {
    forall i :: 0 <= i < |rs| ==> rs[i].caplen == |rs[i].data|
  }

  /** Where the data of record i starts in a message that holds the records. */
  ghost function DataAt(rs: seq<Record>, i: nat): nat
    requires AllFit(rs) && i < |rs|
  {
    BATCH_HEADER + |EncodeRecords(rs[..i])| + RECORD_HEADER
  }

  /** The bytes the output takes, by the capture length the record claims, lie in the message. */
  ghost predicate TakesInside(m: seq<byte>, rs: seq<Record>, i: nat)
    requires AllFit(rs) && i < |rs|
  {
    DataAt(rs, i) + rs[i].caplen <= |m|
  }

  /**
    How handling a message ends: with all of it handed on, with a message that is cut or refused, or with
    the output taking bytes past the end of the message.
   */
  datatype Ending = Finished | Rejected | Overran

  /** The first records were all inside, accepted, and taken as claimed. */
  ghost predicate TakenAs(m: seq<byte>, rs: seq<Record>, accepts: nat -> bool, taken: seq<seq<byte>>)
    requires AllFit(rs) && |taken| <= |rs|
  {
    forall i :: 0 <= i < |taken| ==> TakesInside(m, rs, i) && accepts(i)
                                     && taken[i] == m[DataAt(rs, i)..DataAt(rs, i) + rs[i].caplen]
  }

  /**
    What became of the records of a message when `taken` were handed on: each lay in the message and was
    accepted, and the rest was not reached. Without an output nothing is taken and nothing refused.
   */
  ghost predicate Handled(m: seq<byte>, rs: seq<Record>, complete: bool, output: Option<nat -> bool>,
                          ending: Ending, taken: seq<seq<byte>>)
    requires AllFit(rs)
  {
    var n := |taken|;
    && n <= |rs|
    && (output == None ==> n == |rs| && ending != Overran)
    && (output.Some? ==>
          && TakenAs(m, rs, output.value, taken)
          && (n < |rs| ==> !TakesInside(m, rs, n) || !output.value(n))
          && (ending == Overran <==> n < |rs| && !TakesInside(m, rs, n)))
    && (ending == Finished <==> complete && n == |rs|)
  }

  /**
    The receiver's loop. The output, if there is one, takes as many bytes as the record's header claims;
    its argument says which records it accepts.
   */
  method HandleMessage(m: seq<byte>, output: Option<nat -> bool>) returns (ending: Ending, taken: seq<seq<byte>>)
    ensures |m| < BATCH_HEADER ==> ending == Rejected && taken == []
    ensures |m| >= BATCH_HEADER ==>
              var all := Decode(m, BATCH_HEADER, Be16(m, 2));
              AllFit(all.0) && Handled(m, all.0, all.1, output, ending, taken)
  {
    hide RecordAt, Decode, Be16, EncodeRecords, EncodeRecord, AllFit, TakenAs, Fits;
    taken := [];
    if |m| < BATCH_HEADER {
      return Rejected, taken;
    }
    var n := Be16(m, 2);
    var at: nat := BATCH_HEADER;
    ghost var records, complete := Decode(m, BATCH_HEADER, n).0, Decode(m, BATCH_HEADER, n).1;
    DecodedIsEncoded(m, BATCH_HEADER, n);
    ghost var seen: seq<Record> := [];
    NothingEncoded(seen);
    assert output.Some? ==> TakenAs(m, records, output.value, taken) by {
      NothingTaken(m, records, taken);
    }
    for i := 0 to n
      invariant at <= |m| && |seen| == |taken| == i
      invariant records == seen + Decode(m, at, n - i).0 && complete == Decode(m, at, n - i).1
      invariant AllFit(seen) && at == BATCH_HEADER + |EncodeRecords(seen)|
      invariant i <= |records| && (output.Some? ==> TakenAs(m, records, output.value, taken))
    {
      DecodeNext(m, at, n - i);
      if |m| - at < RECORD_HEADER {
        return Rejected, taken;
      }
      var len := Be16(m, at);
      if |m| - at - RECORD_HEADER < len {
        return Rejected, taken;
      }
      var r := RecordAt(m, at);
      var data := at + RECORD_HEADER;
      ghost var rest := Decode(m, data + len, n - i - 1).0;
      assert records == seen + [r] + rest;
      assert records[i] == r && records[..i] == seen && DataAt(records, i) == data;
      var bytes := [];
      if output.Some? {
        if data + r.caplen > |m| {
          return Overran, taken;
        }
        bytes := m[data..data + r.caplen];
        if !output.value(i) {
          return Rejected, taken;
        }
        TakesNext(m, records, output.value, taken);
      }
      RecordLength(m, at);
      EncodeAppend(seen, r);
      at := data + len;
      taken, seen := taken + [bytes], seen + [r];
    }
    DecodeNone(m, at);
    ending := Finished;
  }

  lemma TakesNext(m: seq<byte>, rs: seq<Record>, accepts: nat -> bool, taken: seq<seq<byte>>)
    requires AllFit(rs) && |taken| < |rs| && TakenAs(m, rs, accepts, taken)
    requires TakesInside(m, rs, |taken|) && accepts(|taken|)
    ensures var at := DataAt(rs, |taken|); TakenAs(m, rs, accepts, taken + [m[at..at + rs[|taken|].caplen]])
  {
    hide DataAt, AllFit, EncodeRecords;
  }

  lemma NothingTaken(m: seq<byte>, rs: seq<Record>, taken: seq<seq<byte>>)
    requires AllFit(rs) && taken == []
    ensures forall accepts :: TakenAs(m, rs, accepts, taken)
  {
  }

  lemma NothingEncoded(rs: seq<Record>)
    requires rs == []
    ensures AllFit(rs) && EncodeRecords(rs) == []
  {
  }

  lemma RecordLength(m: seq<byte>, at: nat)
    requires at + RECORD_HEADER <= |m| && at + RECORD_HEADER + Be16(m, at) <= |m|
    ensures Fits(RecordAt(m, at)) && |EncodeRecord(RecordAt(m, at))| == RECORD_HEADER + Be16(m, at)
  {
    hide Be32, Be16;
  }

  /**
    An output that accepts everything, as the capture file does, stays inside the message exactly when
    every record's data offset plus claimed capture length does.
   */
  lemma TakesInsideExactlyWhen(m: seq<byte>, rs: seq<Record>, complete: bool, ending: Ending, taken: seq<seq<byte>>)
    requires AllFit(rs) && Handled(m, rs, complete, Some(_ => true), ending, taken)
    ensures ending != Overran <==> forall i :: 0 <= i < |rs| ==> TakesInside(m, rs, i)
  {
  }

  /** A record's data follows the records before it and its own headers. */
  lemma DataFollows(rs: seq<Record>, i: nat) returns (before: seq<byte>, head: seq<byte>, after: seq<byte>)
    requires AllFit(rs) && i < |rs|
    ensures EncodeRecords(rs) == before + (head + rs[i].data) + after
    ensures |before| == |EncodeRecords(rs[..i])| && |head| == RECORD_HEADER
  {
    EncodeSplit(rs, i);
    before, head, after := EncodeRecords(rs[..i]), PutBe16(|rs[i].data|) + PacketHeader(rs[i]), EncodeRecords(rs[i + 1..]);
  }

  /** From a message with true capture lengths an output takes exactly the data of each record. */
  lemma ExactMessagesAreTakenWhole(m: seq<byte>, rs: seq<Record>, i: nat)
    requires AllFit(rs) && Exact(rs) && i < |rs| && |m| >= BATCH_HEADER && m[BATCH_HEADER..] == EncodeRecords(rs)
    ensures TakesInside(m, rs, i) && m[DataAt(rs, i)..DataAt(rs, i) + rs[i].caplen] == rs[i].data
  {
    hide EncodeRecords, AllFit;
    var before, head, after := DataFollows(rs, i);
    MiddleOf(m, BATCH_HEADER, before, head, rs[i].data, after);
  }

  lemma MiddleOf(m: seq<byte>, k: nat, a: seq<byte>, b: seq<byte>, c: seq<byte>, d: seq<byte>)
    requires k <= |m| && m[k..] == a + (b + c) + d
    ensures var at := k + |a| + |b|; at + |c| <= |m| && m[at..at + |c|] == c
  {
    var at, tail := k + |a| + |b|, m[k..];
    forall j | 0 <= j < |c|
      ensures m[at + j] == c[j]
    {
      assert m[at + j] == tail[|a| + |b| + j];
    }
  }

  lemma {:induction false} EncodeSplit(rs: seq<Record>, i: nat)
    requires AllFit(rs) && i < |rs|
    ensures EncodeRecords(rs) == EncodeRecords(rs[..i]) + EncodeRecord(rs[i]) + EncodeRecords(rs[i + 1..])
  {
    hide EncodeRecord;
    if i > 0 {
      EncodeSplit(rs[1..], i - 1);
      assert rs[1..][..i - 1] == rs[..i][1..] && rs[1..][i..] == rs[i + 1..];
    } else {
      assert rs[..0] == [];
    }
  }

  /** A message of 42 bytes whose record holds no data but claims more: the output is led past the end. */
  lemma ClaimedLengthOverruns(keybit: nat, uuid: seq<byte>, claimed: nat)
    requires keybit < LIMIT32 && |uuid| == 16 && 0 < claimed < LIMIT32
    ensures var rs := [Record(0, 0, claimed, 0, [])];
      var m := EncodeBatch(keybit, uuid, rs);
      && |m| == 42 && Decode(m, BATCH_HEADER, Be16(m, 2)) == (rs, true)
      && AllFit(rs) && !TakesInside(m, rs, 0)
  {
    var rs := [Record(0, 0, claimed, 0, [])];
    BatchRoundTrip(keybit, uuid, rs);
    EncodeSplit(rs, 0);
    assert rs[..0] == [] && rs[1..] == [];
  }

  lemma DecodeNone(m: seq<byte>, at: nat)
    requires at <= |m|
    ensures Decode(m, at, 0) == ([], true)
  {
  }

  // ---- frames in records ---------------------------------------------------------------------------

  const MPLS: nat := 0x8847

  /** The length of the Ethernet header and all VLAN tags, if the captured bytes hold them. */
  function L2Len(f: seq<byte>): (n: Option<nat>)
    ensures n.Some? ==> 14 <= n.value <= |f|
  {
    if |f| < 14 then None
    else match SkipVlans(f, Be16(f, 12), 14)
         case None => None
         case Some((_, at)) => Some(at)
  }

  /** A frame has a complete layer 2 exactly when a stack of VLAN tags ends inside it, and it ends there. */
  lemma L2LenMeans(f: seq<byte>, n: nat)
    ensures L2Len(f) == Some(n) <==> exists tags: nat :: TagStack(f, tags) && n == 14 + 4 * tags
  {
    hide SkipVlans;
    if |f| >= 14 {
      assert TypeAt(f, 0) == Be16(f, 12);
      if L2Len(f).Some? {
        var tags := FindsTheStack(f, 0);
      }
      forall tags: nat | TagStack(f, tags)
        ensures L2Len(f) == Some(14 + 4 * tags)
      {
        SkipsTheStack(f, 0, tags);
      }
    }
  }

  method L2HeaderLen(f: seq<byte>) returns (n: nat)
    ensures n == if L2Len(f).Some? then L2Len(f).value else 0
  {
    if |f| < 14 {
      return 0;
    }
    var etherType := Be16(f, 12);
    n := 14;
    while IsVlan(etherType)
      invariant 14 <= n <= |f| && SkipVlans(f, etherType, n) == SkipVlans(f, Be16(f, 12), 14)
      decreases |f| - n
    {
      if n + 4 > |f| {
        return 0;
      }
      etherType := Be16(f, n + 2);
      n := n + 4;
    }
  }

  /** The label that carries the direction and the low 12 bits of the service tag. */
  function Label(direct: nat, tag: nat): (b: seq<byte>)
    ensures |b| == 4
  {
    [128 + direct % 16 * 8, tag / 16 % 256, tag % 16 * 16 + 1, 255]
  }

  function LabelDirection(b: seq<byte>): nat
    requires |b| == 4
  {
    b[0] as int % 128 / 8
  }

  function LabelTag(b: seq<byte>): nat
    requires |b| == 4
  {
    b[1] as int * 16 + b[2] as int / 16
  }

  lemma LabelRoundTrip(direct: nat, tag: nat)
    ensures LabelDirection(Label(direct, tag)) == direct % 16
    ensures LabelTag(Label(direct, tag)) == tag % 4096
  {
    Nibbles(direct % 16);
    SplitTag(tag);
  }

  /** The label on the wire, as a 32-bit field: magic bit, direction, the tag's 12 bits, bottom of stack, 0xFF. */
  lemma LabelOnTheWire(direct: nat, tag: nat)
    ensures Be32(Label(direct, tag), 0) == 0x8000_0000 + direct % 16 * 0x0800_0000 + tag % 4096 * 0x1000 + 0x1FF
  {
    SplitTag(tag);
    assert (tag % 16 * 16 + 1) / 16 == tag % 16;
  }

  lemma Nibbles(d: nat)
    requires d < 16
    ensures (128 + d * 8) % 128 / 8 == d
  {
  }

  lemma SplitTag(tag: nat)
    ensures tag / 16 % 256 * 16 + (tag % 16 * 16 + 1) / 16 == tag % 4096
  {
    var high, low := tag / 16, tag % 16;
    assert tag == 4096 * (high / 256) + (high % 256 * 16 + low);
  }

  /** The frame as it goes into a record: the type before the payload becomes MPLS and the label follows it. */
  function MplsFrame(f: seq<byte>, l2: nat, mark: seq<byte>): (d: seq<byte>)
    requires 14 <= l2 <= |f| && |mark| == 4
    ensures |d| == |f| + 4
  {
    f[..l2 - 2] + PutBe16(MPLS) + mark + f[l2..]
  }

  /** Undoing it needs the type that was replaced: the record does not hold it. */
  function Unlabelled(d: seq<byte>, l2: nat, etherType: nat): seq<byte>
    requires 14 <= l2 && l2 + 4 <= |d| && etherType < 0x10000
  {
    d[..l2 - 2] + PutBe16(etherType) + d[l2 + 4..]
  }

  lemma MplsFrameRoundTrip(f: seq<byte>, l2: nat, mark: seq<byte>)
    requires 14 <= l2 <= |f| && |mark| == 4
    ensures var d := MplsFrame(f, l2, mark);
      d[l2..l2 + 4] == mark && Unlabelled(d, l2, Be16(f, l2 - 2)) == f
  {
    hide PutBe16;
    var d := MplsFrame(f, l2, mark);
    var e := PutBe16(Be16(f, l2 - 2));
    assert Be16(e, 0) == Be16(f, l2 - 2);
    Be16Injective(e, 0, f, l2 - 2);
    assert d[..l2 - 2] == f[..l2 - 2] && d[l2 + 4..] == f[l2..];
    assert f == f[..l2 - 2] + f[l2 - 2..l2] + f[l2..];
    assert f[l2 - 2..l2] == e;
  }

  lemma Be16Injective(a: seq<byte>, i: nat, b: seq<byte>, j: nat)
    requires i + 2 <= |a| && j + 2 <= |b| && Be16(a, i) == Be16(b, j)
    ensures a[i] == b[j] && a[i + 1] == b[j + 1]
  {
  }

  /** A reader that walks the VLAN tags of the record finds the MPLS type and then the label. */
  lemma MplsFrameIsFound(f: seq<byte>, mark: seq<byte>)
    requires L2Len(f).Some? && |mark| == 4
    ensures var d := MplsFrame(f, L2Len(f).value, mark);
      SkipVlans(d, Be16(d, 12), 14) == Some((MPLS, L2Len(f).value))
  {
    var l2 := L2Len(f).value;
    var d := MplsFrame(f, l2, mark);
    FoundFrom(f, d, Be16(f, 12), 14, l2);
  }

  lemma {:induction false} FoundFrom(f: seq<byte>, d: seq<byte>, etherType: nat, at: nat, l2: nat)
    requires 14 <= at <= l2 <= |f| && |d| >= |f| && etherType == Be16(f, at - 2)
    requires SkipVlans(f, etherType, at).Some? && SkipVlans(f, etherType, at).value.1 == l2
    requires forall i :: 0 <= i < l2 - 2 ==> d[i] == f[i]
    requires Be16(d, l2 - 2) == MPLS
    ensures SkipVlans(d, Be16(d, at - 2), at) == Some((MPLS, l2))
    decreases l2 - at
  {
    if IsVlan(etherType) {
      SkipVlansMoves(f, etherType, at);
      assert SkipVlans(f, etherType, at) == SkipVlans(f, Be16(f, at + 2), at + 4);
      FoundFrom(f, d, Be16(f, at + 2), at + 4, l2);
      assert Be16(d, at - 2) == etherType;
    }
  }
}
