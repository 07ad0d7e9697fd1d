/**
  The statistics all outputs add to: packets and bytes in two-limb counters, by what became of them.
  `book` is what was added so far, as plain numbers; every counter shows its part of it modulo its range.
 */
module OutputStats {
  import opened Outputs
  import opened Stats

  /** A counter of the unit that shows n. */
  ghost predicate Shows(c: Counter, unit: nat, n: nat)
    reads c
  {
    c.Valid() && c.unit == unit && Range(unit) > 0 && c.Value() == Rest(n, Range(unit))
  }

  method NewCounter(unit: nat) returns (c: Counter)
    requires unit == EIB || unit == PETA
    ensures fresh(c) && Shows(c, unit, 0)
  {
    c := new Counter(unit);
  }

  /** New counters of the given units, all different and all showing zero. */
  method NewCounters(units: seq<nat>) returns (cs: seq<Counter>)
    requires forall i :: 0 <= i < |units| ==> units[i] == EIB || units[i] == PETA
    ensures |cs| == |units| && forall i :: 0 <= i < |cs| ==> fresh(cs[i]) && Shows(cs[i], units[i], 0)
    ensures forall i, j :: 0 <= i < j < |cs| ==> cs[i] != cs[j]
  {
    hide Range, Rest, Number;
    cs := [];
    for k := 0 to |units|
      invariant |cs| == k && forall i :: 0 <= i < k ==> fresh(cs[i]) && Shows(cs[i], units[i], 0)
      invariant forall i, j :: 0 <= i < j < k ==> cs[i] != cs[j]
    {
      var c := NewCounter(units[k]);
      cs := cs + [c];
    }
  }

  method Count(c: Counter, ghost unit: nat, ghost n: nat, amount: nat)
    requires Shows(c, unit, n) && amount < TWO64
    modifies c
    ensures Shows(c, unit, n + amount)
  {
    hide Range, Rest, Number;
    ModThenAdd(n, amount, Range(unit));
    c.Add(amount);
  }

  lemma AddUp(a: nat, b: nat, c: nat, d: nat, range: nat)
    requires range > 0
    ensures Rest(Rest(a, range) + Rest(b, range) + Rest(c, range) + Rest(d, range), range) == Rest(a + b + c + d, range)
    ensures a + b + c + d < range ==> Rest(a, range) + Rest(b, range) + Rest(c, range) + Rest(d, range) == a + b + c + d
  {
    hide Rest;
    var x, y, z, w := Rest(a, range), Rest(b, range), Rest(c, range), Rest(d, range);
    ModThenAdd(a, y + z + w, range);
    ModThenAdd(b, a + z + w, range);
    ModThenAdd(c, a + b + w, range);
    ModThenAdd(d, a + b + c, range);
    assert x + y + z + w == x + (y + z + w) && a + (y + z + w) == y + (a + z + w);
    assert b + (a + z + w) == z + (a + b + w) && c + (a + b + w) == w + (a + b + c);
    SmallRest(a, range);
    SmallRest(b, range);
    SmallRest(c, range);
    SmallRest(d, range);
  }

  /** Counters that showed `before` and now show `after` have advanced by the difference, modulo the range. */
  lemma ShownGrows(range: nat, before: nat, after: nat, shown: nat, shown': nat)
    requires range > 0 && before <= after && Rest(shown, range) == Rest(before, range) && Rest(shown', range) == Rest(after, range)
    ensures Rest(shown', range) == Rest(shown + (after - before), range)
  {
    hide Rest;
    ModThenAdd(shown, after - before, range);
    ModThenAdd(before, after - before, range);
  }

  class Statistics {
    const forwardedPackets: Counter
    const forwardedBytes: Counter
    const directionPackets: Counter
    const directionBytes: Counter
    const rateLimitedPackets: Counter
    const rateLimitedBytes: Counter
    const errorPackets: Counter
    const errorBytes: Counter
    const heartbeatPackets: Counter
    ghost var book: Totals

    ghost function Counters(): set<Counter> {
      {forwardedPackets, forwardedBytes, directionPackets, directionBytes, rateLimitedPackets, rateLimitedBytes,
       errorPackets, errorBytes, heartbeatPackets}
    }

    /** All counters are different. */
    ghost predicate Apart() {
      && forwardedPackets !in {forwardedBytes, directionPackets, directionBytes, rateLimitedPackets, rateLimitedBytes, errorPackets, errorBytes, heartbeatPackets}
      && forwardedBytes !in {directionPackets, directionBytes, rateLimitedPackets, rateLimitedBytes, errorPackets, errorBytes, heartbeatPackets}
      && directionPackets !in {directionBytes, rateLimitedPackets, rateLimitedBytes, errorPackets, errorBytes, heartbeatPackets}
      && directionBytes !in {rateLimitedPackets, rateLimitedBytes, errorPackets, errorBytes, heartbeatPackets}
      && rateLimitedPackets !in {rateLimitedBytes, errorPackets, errorBytes, heartbeatPackets}
      && rateLimitedBytes !in {errorPackets, errorBytes, heartbeatPackets}
      && errorPackets !in {errorBytes, heartbeatPackets}
      && errorBytes !in {heartbeatPackets}
    }

    ghost predicate Valid()
      reads this, Counters()
    {
      && Apart()
      && Shows(forwardedPackets, PETA, book.forwarded.packets) && Shows(forwardedBytes, EIB, book.forwarded.bytes)
      && Shows(directionPackets, PETA, book.direction.packets) && Shows(directionBytes, EIB, book.direction.bytes)
      && Shows(rateLimitedPackets, PETA, book.rateLimited.packets) && Shows(rateLimitedBytes, EIB, book.rateLimited.bytes)
      && Shows(errorPackets, PETA, book.errors.packets) && Shows(errorBytes, EIB, book.errors.bytes)
      && Shows(heartbeatPackets, PETA, book.heartbeats)
    }

    constructor ()
      ensures Valid() && book == NO_TOTALS && fresh(Counters())
    {
      hide Shows;
      var cs := NewCounters([PETA, EIB, PETA, EIB, PETA, EIB, PETA, EIB, PETA]);
      forwardedPackets, forwardedBytes, directionPackets, directionBytes := cs[0], cs[1], cs[2], cs[3];
      rateLimitedPackets, rateLimitedBytes, errorPackets, errorBytes, heartbeatPackets := cs[4], cs[5], cs[6], cs[7], cs[8];
      book := NO_TOTALS;
    }

    method AddForwarded(packets: nat, bytes: nat)
      requires Valid() && packets < TWO64 && bytes < TWO64
      modifies this`book, Counters()
      ensures Valid() && book == old(book).(forwarded := Both(old(book).forwarded, Tally(packets, bytes)))
    {
      hide Shows;
      Count(forwardedBytes, EIB, book.forwarded.bytes, bytes);
      Count(forwardedPackets, PETA, book.forwarded.packets, packets);
      book := book.(forwarded := Both(book.forwarded, Tally(packets, bytes)));
    }

    method AddDirection(bytes: nat)
      requires Valid() && bytes < TWO64
      modifies this`book, Counters()
      ensures Valid() && book == old(book).(direction := Plus(old(book).direction, bytes))
    {
      hide Shows;
      Count(directionBytes, EIB, book.direction.bytes, bytes);
      Count(directionPackets, PETA, book.direction.packets, 1);
      book := book.(direction := Plus(book.direction, bytes));
    }

    method AddRateLimited(bytes: nat)
      requires Valid() && bytes < TWO64
      modifies this`book, Counters()
      ensures Valid() && book == old(book).(rateLimited := Plus(old(book).rateLimited, bytes))
    {
      hide Shows;
      Count(rateLimitedBytes, EIB, book.rateLimited.bytes, bytes);
      Count(rateLimitedPackets, PETA, book.rateLimited.packets, 1);
      book := book.(rateLimited := Plus(book.rateLimited, bytes));
    }

    method AddErrors(packets: nat, bytes: nat)
      requires Valid() && packets < TWO64 && bytes < TWO64
      modifies this`book, Counters()
      ensures Valid() && book == old(book).(errors := Both(old(book).errors, Tally(packets, bytes)))
    {
      hide Shows;
      Count(errorBytes, EIB, book.errors.bytes, bytes);
      Count(errorPackets, PETA, book.errors.packets, packets);
      book := book.(errors := Both(book.errors, Tally(packets, bytes)));
    }

    method AddHeartbeats(n: nat)
      requires Valid() && n < TWO64
      modifies this`book, heartbeatPackets
      ensures Valid() && book == old(book).(heartbeats := old(book).heartbeats + n)
    {
      hide Shows;
      Count(heartbeatPackets, PETA, book.heartbeats, n);
      book := book.(heartbeats := book.heartbeats + n);
    }

    /** Counts one packet under its fate. */
    method CountPacket(fate: Fate, bytes: nat)
      requires Valid() && bytes < TWO64
      modifies this`book, Counters()
      ensures Valid() && book == Counted(old(book), fate, bytes)
    {
      hide Shows;
      match fate {
        case Forwarded => AddForwarded(1, bytes);
        case UnknownDirection => AddDirection(bytes);
        case AboveRate => AddRateLimited(bytes);
        case Failed => AddErrors(1, bytes);
      }
    }

    /** The four packet counters, added up as a reader of the statistics would. */
    ghost function PacketsShown(): nat
      reads Counters()
    {
      forwardedPackets.Value() + directionPackets.Value() + rateLimitedPackets.Value() + errorPackets.Value()
    }

    ghost function BytesShown(): nat
      reads Counters()
    {
      forwardedBytes.Value() + directionBytes.Value() + rateLimitedBytes.Value() + errorBytes.Value()
    }

    /** The counters add up to everything added, modulo their range, and exactly while that is below it. */
    lemma CountersAddUp()
      requires Valid()
      ensures Range(PETA) > 0 && Rest(PacketsShown(), Range(PETA)) == Rest(PacketsOf(book), Range(PETA))
      ensures PacketsOf(book) < Range(PETA) ==> PacketsShown() == PacketsOf(book)
      ensures Range(EIB) > 0 && Rest(BytesShown(), Range(EIB)) == Rest(BytesOf(book), Range(EIB))
      ensures BytesOf(book) < Range(EIB) ==> BytesShown() == BytesOf(book)
    {
      hide Range, Rest, Number;
      AddUp(book.forwarded.packets, book.direction.packets, book.rateLimited.packets, book.errors.packets, Range(PETA));
      AddUp(book.forwarded.bytes, book.direction.bytes, book.rateLimited.bytes, book.errors.bytes, Range(EIB));
    }
  }
}
