/**
  The capacity accounting of the pipeline's message allocator, one atomic access at a time.

  The main thread allocates and resizes, the output thread frees, in any order. Each method is one atomic access, or one
  heap allocation whose outcome is a parameter.
 */
module Allocator {
  import opened Basics

  const TWO64: nat := 0x1_0000_0000_0000_0000
  const MAX_CAPACITY: nat := 0x8000_0000_0000_0000

  /** Bytes of a message before its packet data, on a 64-bit host. */
  const MSG_HEADER: nat := 48

  /** A message size: the header plus at most a 32-bit captured length. */
  ghost predicate IsSize(n: nat) { MSG_HEADER <= n < MSG_HEADER + 0x1_0000_0000 }

  function Total(sizes: seq<nat>): nat {
    if sizes == [] then 0 else Total(sizes[..|sizes| - 1]) + sizes[|sizes| - 1]
  }

  lemma {:induction false} TotalWithout(s: seq<nat>, k: nat)
    requires k < |s|
    ensures Total(s) == Total(s[..k] + s[k + 1..]) + s[k]
  {
    var n := |s| - 1;
    if k < n {
      TotalWithout(s[..n], k);
      assert (s[..k] + s[k + 1..])[..n - 1] == s[..n][..k] + s[..n][k + 1..];
    } else {
      assert s[..k] + s[k + 1..] == s[..n];
    }
  }

  datatype Producer =
    | AIdle
    | ACapacity(size: nat, cap: nat)              // loaded capacity
    | ATrying(size: nat, cap: nat, seen: nat)     // loaded used
    | AReserved(size: nat)                        // reserved, memory not allocated yet

  datatype Consumer =
    | FIdle
    | FLoaded(k: nat, len: nat)                   // freeing message k, will subtract len

  datatype Tried = Refused | Retry | Reserved

  class SimpleAllocator {
    var capacity: nat
    var used: nat
    var producer: Producer
    var consumer: Consumer
    var live: seq<nat>                            // sizes of the messages that exist

    ghost function Pending(): nat
      reads this
    {
      if producer.AReserved? then producer.size else 0
    }

    ghost predicate Valid()
      reads this
    {
      && used == Total(live) + Pending() && used <= MAX_CAPACITY && capacity <= MAX_CAPACITY
      && (forall i :: 0 <= i < |live| ==> IsSize(live[i]))
      && (!producer.AIdle? ==> IsSize(producer.size))
      && (producer.ACapacity? || producer.ATrying? ==> producer.cap == capacity)
      && (producer.ATrying? ==> producer.seen <= MAX_CAPACITY)
      && (consumer.FLoaded? ==> consumer.k < |live| && consumer.len == live[consumer.k])
    }

    constructor (cap: nat)
      requires cap <= MAX_CAPACITY
      ensures Valid() && capacity == cap && used == 0 && live == [] && producer.AIdle? && consumer.FIdle?
    {
      capacity, used, producer, consumer, live := cap, 0, AIdle, FIdle, [];
    }

    // ---- allocation (main thread) ----------------------------------------------------------------

    method AllocLoadCapacity(size: nat)
      requires Valid() && producer.AIdle? && IsSize(size)
      modifies this`producer
      ensures Valid() && producer == ACapacity(size, capacity)
    {
      producer := ACapacity(size, capacity);
    }

    method AllocLoadUsed()
      requires Valid() && producer.ACapacity?
      modifies this`producer
      ensures Valid() && producer == ATrying(old(producer.size), capacity, used)
    {
      producer := ATrying(producer.size, producer.cap, used);
    }

    /**
      One turn of the compare-and-swap loop; `weak` lets the exchange fail for no reason. A success
      fits the capacity in force, so after a shrink there is none until usage is below the new capacity.
     */
    method AllocTry(weak: bool) returns (r: Tried)
      requires Valid() && producer.ATrying?
      modifies this`producer, this`used
      ensures Valid()
      ensures r.Reserved? ==> used == old(used) + old(producer.size) <= capacity && producer == AReserved(old(producer.size))
      ensures r.Reserved? ==> old(used) < capacity
      ensures !r.Reserved? ==> used == old(used)
      ensures r.Refused? <==> old(producer.seen) + old(producer.size) > capacity
      ensures r.Refused? ==> producer.AIdle?
      ensures r.Retry? ==> producer == ATrying(old(producer.size), capacity, used)
      ensures old(producer.seen) == old(used) && !weak ==> !r.Retry?
    {
      var ATrying(size, cap, seen) := producer;
      if (seen + size) % TWO64 > cap {
        producer := AIdle;
        return Refused;
      }
      if used == seen && !weak {
        used := seen + size;
        producer := AReserved(size);
        return Reserved;
      }
      producer := ATrying(size, cap, used);
      return Retry;
    }

    /** The memory is allocated, or the reservation is given back. */
    method AllocFinish(ok: bool)
      requires Valid() && producer.AReserved?
      modifies this`producer, this`used, this`live
      ensures Valid() && producer.AIdle?
      ensures ok ==> live == old(live) + [old(producer.size)] && used == old(used)
      ensures !ok ==> live == old(live) && used == old(used) - old(producer.size)
    {
      var size := producer.size;
      if ok {
        live := live + [size];
      } else {
        used := used - size;
      }
      producer := AIdle;
    }

    method Resize(cap: nat)
      requires Valid() && producer.AIdle? && cap <= MAX_CAPACITY
      modifies this`capacity
      ensures Valid() && capacity == cap
    {
      capacity := cap;
    }

    // ---- release (output thread) -----------------------------------------------------------------

    /** Loads used and clamps; the clamp changes nothing. */
    method FreeLoad(k: nat, size: nat) returns (clamped: bool)
      requires Valid() && consumer.FIdle? && k < |live| && size == live[k]
      modifies this`consumer
      ensures Valid() && !clamped && consumer == FLoaded(k, size)
    {
      TotalWithout(live, k);
      var len := size;
      if used < len {
        len := used;
      }
      clamped := len != size;
      consumer := FLoaded(k, len);
    }

    method FreeSub()
      requires Valid() && consumer.FLoaded?
      modifies this`consumer, this`used, this`live
      ensures Valid() && consumer.FIdle?
      ensures var k := old(consumer.k); live == old(live)[..k] + old(live)[k + 1..] && used == old(used) - old(live)[k]
    {
      var k := consumer.k;
      TotalWithout(live, k);
      used := used - consumer.len;
      live := live[..k] + live[k + 1..];
      consumer := FIdle;
    }

    // ---- every interleaving ----------------------------------------------------------------------

    /** Any schedule of allocations, failures, resizes and frees keeps the books: no byte is lost or invented. */
    method Run(schedule: seq<Turn>)
      requires Valid()
      modifies this
      ensures Valid()
      ensures producer.AIdle? ==> used == Total(live)
    {
      for i := 0 to |schedule|
        invariant Valid()
      {
        match schedule[i] {
          case MainTurn(size, flag, cap) =>
            match producer {
              case AIdle =>
                if flag && cap <= MAX_CAPACITY {
                  Resize(cap);
                } else if MSG_HEADER <= size < MSG_HEADER + 0x1_0000_0000 {
                  AllocLoadCapacity(size);
                }
              case ACapacity(_, _) => AllocLoadUsed();
              case ATrying(_, _, _) => var _ := AllocTry(flag);
              case AReserved(_) => AllocFinish(flag);
            }
          case OutputTurn(k) =>
            if consumer.FLoaded? {
              FreeSub();
            } else if k < |live| {
              var _ := FreeLoad(k, live[k]);
            }
        }
      }
    }
  }

  datatype Turn = MainTurn(size: nat, flag: bool, cap: nat) | OutputTurn(k: nat)
}
