/**
  The wrapping FIFO memory pool. Blocks are handed out in order and released in the same order; `limit`
  marks where the data ends when an allocation did not fit before the end of the buffer.

  The pool tiles the buffer exactly as its header comment says, except after two allocations that it
  accepts and must not: one that ends at the capacity while tail is 0, which makes a full pool look
  empty, and one that wraps while the pool is empty, which puts limit where tail already is.
 */
module Mempool {
  import opened Basics

  datatype Pool = Pool(capacity: nat, head: nat, tail: nat, limit: nat)

  datatype Block = Block(start: nat, len: nat)

  // ---- the operations on values --------------------------------------------------------------------

  function Alloc(p: Pool, size: nat): (Pool, Option<nat>)
    requires p.head <= p.capacity
  {
    if p.head >= p.tail then
      if p.capacity - p.head >= size then
        var newHead := if p.head + size == p.capacity then 0 else p.head + size;
        (p.(head := newHead), Some(p.head))
      else if size >= p.tail then (p, None)
      else (p.(limit := p.head, head := size), Some(0))
    else if p.tail - p.head - 1 < size then (p, None)
    else (p.(head := p.head + size), Some(p.head))
  }

  /** The flag tells whether the assertion of the branch taken holds. */
  function Free(p: Pool, size: nat): (Pool, bool) {
    var newTail := p.tail + size;
    if p.limit != p.capacity then
      if newTail >= p.limit then (p.(tail := 0, limit := p.capacity), newTail == p.limit)
      else (p.(tail := newTail), true)
    else if newTail >= p.capacity then (p.(tail := 0), newTail == p.capacity)
    else (p.(tail := newTail), true)
  }

  // ---- the layout ----------------------------------------------------------------------------------

  /** The blocks cover [lo, hi) one after the other, none empty. */
  ghost predicate Tiles(bs: seq<Block>, lo: nat, hi: nat) {
    if bs == [] then lo == hi
    else bs[0].start == lo && bs[0].len > 0 && Tiles(bs[1..], lo + bs[0].len, hi)
  }

  /** Live blocks, oldest first: from tail to head, or from tail to limit and then from 0 to head. */
  ghost predicate Laid(p: Pool, bs: seq<Block>, split: nat) {
    && p.head < p.capacity && p.tail < p.capacity && p.limit <= p.capacity && split <= |bs|
    && if p.head >= p.tail then p.limit == p.capacity && split == |bs| && Tiles(bs, p.tail, p.head)
       else p.tail < p.limit && Tiles(bs[..split], p.tail, p.limit) && Tiles(bs[split..], 0, p.head)
  }

  ghost predicate Good(p: Pool, bs: seq<Block>) { exists split: nat :: Laid(p, bs, split) }

  /** The two allocations the pool must not be asked for. */
  predicate Safe(p: Pool, size: nat) {
    && !(p.tail == 0 && p.head + size == p.capacity)
    && !(p.head == p.tail && p.capacity - p.head < size && size < p.tail)
  }

  lemma {:induction false} TilesAppend(bs: seq<Block>, lo: nat, hi: nat, len: nat)
    requires Tiles(bs, lo, hi) && len > 0
    ensures Tiles(bs + [Block(hi, len)], lo, hi + len)
  {
    var cs := bs + [Block(hi, len)];
    if bs == [] {
      assert cs[1..] == [];
    } else {
      TilesAppend(bs[1..], lo + bs[0].len, hi, len);
      assert cs[1..] == bs[1..] + [Block(hi, len)];
    }
  }

  lemma {:induction false} TilesWidth(bs: seq<Block>, lo: nat, hi: nat)
    requires Tiles(bs, lo, hi)
    ensures lo + |bs| <= hi && (bs != [] ==> bs[0].len <= hi - lo)
    ensures forall k :: 0 <= k < |bs| ==> lo <= bs[k].start && bs[k].start + bs[k].len <= hi && bs[k].len > 0
    ensures forall j, k :: 0 <= j < k < |bs| ==> bs[j].start + bs[j].len <= bs[k].start
  {
    if bs != [] {
      TilesWidth(bs[1..], lo + bs[0].len, hi);
      assert forall k :: 0 < k < |bs| ==> bs[k] == bs[1..][k - 1];
    }
  }

  /** Live blocks are inside the buffer and disjoint; the pool knows when it is empty. */
  lemma GoodMeans(p: Pool, bs: seq<Block>)
    requires Good(p, bs)
    ensures forall k :: 0 <= k < |bs| ==> bs[k].start + bs[k].len <= p.capacity && bs[k].len > 0
    ensures forall j, k :: 0 <= j < k < |bs| ==>
              bs[j].start + bs[j].len <= bs[k].start || bs[k].start + bs[k].len <= bs[j].start
    ensures p.head == p.tail <==> bs == []
  {
    var split: nat :| Laid(p, bs, split);
    if p.head >= p.tail {
      TilesWidth(bs, p.tail, p.head);
    } else {
      var xs, ys := bs[..split], bs[split..];
      TilesWidth(xs, p.tail, p.limit);
      TilesWidth(ys, 0, p.head);
      forall k | 0 <= k < |bs| ensures bs[k] == if k < split then xs[k] else ys[k - split] {
      }
    }
  }

  /** An allocation keeps the layout exactly when it is safe; a refused one changes nothing. */
  lemma AllocKeepsLayout(p: Pool, bs: seq<Block>, size: nat)
    requires Good(p, bs) && size > 0
    ensures match Alloc(p, size)
            case (q, None) => q == p
            case (q, Some(at)) => Good(q, bs + [Block(at, size)]) <==> Safe(p, size)
  {
    var split: nat :| Laid(p, bs, split);
    var (q, r) := Alloc(p, size);
    if r.Some? {
      var at := r.value;
      var cs := bs + [Block(at, size)];
      if Safe(p, size) {
        AllocSafe(p, bs, split, size);
      } else if Good(q, cs) {
        GoodMeans(q, cs);
        GoodMeans(p, bs);
      }
    }
  }

  lemma AllocSafe(p: Pool, bs: seq<Block>, split: nat, size: nat)
    requires Laid(p, bs, split) && size > 0 && Safe(p, size) && Alloc(p, size).1.Some?
    ensures Good(Alloc(p, size).0, bs + [Block(Alloc(p, size).1.value, size)])
  {
    var (q, r) := Alloc(p, size);
    var b := Block(r.value, size);
    var cs := bs + [b];
    if p.head >= p.tail {
      TilesAppend(bs, p.tail, p.head, size);
      if p.capacity - p.head >= size {
        assert cs[..|cs|] == cs && cs[|cs|..] == [];
        assert Laid(q, cs, |cs|);
      } else {
        TilesWidth(bs, p.tail, p.head);
        assert cs[..|bs|] == bs && cs[|bs|..] == [b];
        TilesAppend([], 0, 0, size);
        assert [] + [b] == [b];
        assert Laid(q, cs, |bs|);
      }
    } else {
      TilesAppend(bs[split..], 0, p.head, size);
      assert cs[..split] == bs[..split] && cs[split..] == bs[split..] + [b];
      assert Laid(q, cs, split);
    }
  }

  /** Releasing the oldest block keeps the layout, and the assertion on the way holds. */
  lemma FreeKeepsLayout(p: Pool, bs: seq<Block>)
    requires Good(p, bs) && bs != []
    ensures Free(p, bs[0].len).1 && Good(Free(p, bs[0].len).0, bs[1..])
  {
    var split: nat :| Laid(p, bs, split);
    var q := Free(p, bs[0].len).0;
    if p.head >= p.tail {
      TilesWidth(bs[1..], p.tail + bs[0].len, p.head);
      assert Laid(q, bs[1..], |bs| - 1);
    } else {
      var xs := bs[..split];
      TilesWidth(xs, p.tail, p.limit);
      if split > 0 {
        TilesWidth(xs[1..], p.tail + bs[0].len, p.limit);
        assert bs[1..][..split - 1] == xs[1..] && bs[1..][split - 1..] == bs[split..];
        if split == 1 {
          assert bs[1..] == bs[split..];
          assert Laid(q, bs[1..], |bs| - 1);
        } else {
          assert Laid(q, bs[1..], split - 1);
        }
      }
    }
  }

  /** No live block lies in the n bytes from `at` on, and they are in the buffer. */
  ghost predicate FreeAt(p: Pool, bs: seq<Block>, at: nat, n: nat) {
    && at + n <= p.capacity
    && forall k :: 0 <= k < |bs| ==> bs[k].start + bs[k].len <= at || at + n <= bs[k].start
  }

  /**
    A refusal is justified. With live blocks there is no room, with one byte to spare, behind the newest block
    or at the start of the buffer; an empty pool refuses exactly what fits on neither side of where it stands.
   */
  lemma RefusedOnlyWithoutRoom(p: Pool, bs: seq<Block>, size: nat)
    requires Good(p, bs) && size > 0
    ensures Alloc(p, size).1 == None && bs != [] ==> !FreeAt(p, bs, p.head, size + 1) && !FreeAt(p, bs, 0, size + 1)
    ensures bs == [] ==> (Alloc(p, size).1 == None <==> p.head + size > p.capacity && p.head <= size)
  {
    var split: nat :| Laid(p, bs, split);
    GoodMeans(p, bs);
    if p.head < p.tail {
      TilesWidth(bs[..split], p.tail, p.limit);
      assert split > 0 && bs[..split][0] == bs[0];
    }
  }

  // ---- whole runs ----------------------------------------------------------------------------------

  datatype Op = OpAlloc(size: nat) | OpFree

  /** What a run makes of a pool and its live blocks; `ok` turns false at the first failed assertion. */
  datatype Outcome = Outcome(pool: Pool, blocks: seq<Block>, ok: bool)

  ghost function Do(o: Outcome, op: Op): Outcome
    requires o.pool.head <= o.pool.capacity
  {
    match op
    case OpAlloc(size) =>
      var (q, r) := Alloc(o.pool, size);
      o.(pool := q, blocks := if r.Some? then o.blocks + [Block(r.value, size)] else o.blocks, ok := o.ok && size > 0)
    case OpFree =>
      if o.blocks == [] then o
      else
        var (q, held) := Free(o.pool, o.blocks[0].len);
        Outcome(q, o.blocks[1..], o.ok && held)
  }

  /** Every allocation of the run is of a positive size and safe when it is made, or refused. */
  ghost predicate SafeRun(o: Outcome, ops: seq<Op>)
    decreases |ops|
  {
    ops == [] ||
    (&& o.pool.head <= o.pool.capacity
     && (ops[0].OpAlloc? ==> ops[0].size > 0 && (Alloc(o.pool, ops[0].size).1.None? || Safe(o.pool, ops[0].size)))
     && SafeRun(Do(o, ops[0]), ops[1..]))
  }

  ghost function DoAll(o: Outcome, ops: seq<Op>): Outcome
    requires SafeRun(o, ops)
    decreases |ops|
  {
    if ops == [] then o else DoAll(Do(o, ops[0]), ops[1..])
  }

  /** Over every run of safe allocations and releases in order, all assertions hold and the layout is kept. */
  lemma {:induction false} RunKeepsLayout(o: Outcome, ops: seq<Op>)
    requires SafeRun(o, ops) && Good(o.pool, o.blocks) && o.ok
    ensures var e := DoAll(o, ops); e.ok && Good(e.pool, e.blocks)
    decreases |ops|
  {
    if ops != [] {
      match ops[0] {
        case OpAlloc(size) => AllocKeepsLayout(o.pool, o.blocks, size);
        case OpFree =>
          if o.blocks != [] {
            FreeKeepsLayout(o.pool, o.blocks);
          }
      }
      RunKeepsLayout(Do(o, ops[0]), ops[1..]);
    }
  }

  /** A new pool, and a pool whose blocks were all released, wherever that left it. */
  lemma EmptyIsGood(capacity: nat, at: nat)
    requires at < capacity
    ensures Good(Pool(capacity, at, at, capacity), [])
  {
    assert Laid(Pool(capacity, at, at, capacity), [], 0);
  }

  // ---- what the unsafe allocations lead to -----------------------------------------------------------

  /** After an allocation that ends at the capacity with tail 0, the next one overlaps a live block. */
  lemma ExactFillOverlaps(p: Pool, bs: seq<Block>, size: nat, next: nat)
    requires Good(p, bs) && size > 0 && p.tail == 0 && p.head + size == p.capacity && 0 < next <= p.capacity
    ensures var (q, r) := Alloc(p, size);
            && r.Some?
            && var cs := bs + [Block(r.value, size)];
               Alloc(q, next).1 == Some(0) && cs[0].start == 0 && cs[0].len > 0
  {
    var split: nat :| Laid(p, bs, split);
  }

  /** After a wrap from an empty pool, releasing the block that was handed out fails its assertion. */
  lemma EmptyWrapFailsRelease(p: Pool, size: nat)
    requires Good(p, []) && size > 0 && p.head == p.tail && p.capacity - p.head < size && size < p.tail
    ensures Alloc(p, size).1 == Some(0) && !Free(Alloc(p, size).0, size).1
  {
    var split: nat :| Laid(p, [], split);
  }

  /** One block that comes and goes leaves a new pool empty at any place but the first. */
  lemma ComesAndGoes(capacity: nat, at: nat)
    requires 0 < at < capacity
    ensures var (p, r) := Alloc(Pool(capacity, 0, 0, capacity), at);
            r == Some(0) && Free(p, at) == (Pool(capacity, at, at, capacity), true)
  {
  }

  /**
    Both allocations are accepted by pools that a correct client can bring about: the first by any new pool,
    the second by a new pool after one block came and went.
   */
  lemma UnsafeAllocationsHappen(capacity: nat, at: nat, size: nat)
    requires 0 < size < at < capacity && capacity - at < size
    ensures var p := Pool(capacity, 0, 0, capacity);
            Good(p, []) && !Safe(p, capacity) && Alloc(p, capacity).1 == Some(0)
    ensures var p := Free(Alloc(Pool(capacity, 0, 0, capacity), at).0, at).0;
            Good(p, []) && !Safe(p, size) && Alloc(p, size).1 == Some(0) && !Free(Alloc(p, size).0, size).1
  {
    ComesAndGoes(capacity, at);
    EmptyIsGood(capacity, 0);
    EmptyIsGood(capacity, at);
    EmptyWrapFailsRelease(Pool(capacity, at, at, capacity), size);
  }

  /** For instance, from a new pool of 8: one block fills it; or 5 bytes come and go, and 4 are asked for. */
  lemma UnsafeExamples()
    ensures Alloc(Pool(8, 0, 0, 8), 8) == (Pool(8, 0, 0, 8), Some(0))
    ensures Alloc(Pool(8, 0, 0, 8), 5) == (Pool(8, 5, 0, 8), Some(0)) && Free(Pool(8, 5, 0, 8), 5) == (Pool(8, 5, 5, 8), true)
    ensures Alloc(Pool(8, 5, 5, 8), 4) == (Pool(8, 4, 5, 5), Some(0)) && !Free(Pool(8, 4, 5, 5), 4).1
  {
    UnsafeAllocationsHappen(8, 5, 4);
  }

  // ---- the pool object -------------------------------------------------------------------------------

  class MemoryPool {
    const capacity: nat
    var head: nat
    var tail: nat
    var limit: nat

    ghost function State(): Pool
      reads this
    {
      Pool(capacity, head, tail, limit)
    }

    constructor (cap: nat)
      requires cap > 0
      ensures State() == Pool(cap, 0, 0, cap)
    {
      capacity := cap;
      head, tail, limit := 0, 0, cap;
    }

    method AllocBlock(size: nat) returns (at: Option<nat>)
      requires size > 0 && head <= capacity
      modifies this
      ensures (State(), at) == Alloc(old(State()), size)
    {
      if head >= tail {
        var remain := capacity - head;
        if remain >= size {
          at := Some(head);
          var newHead := head + size;
          if newHead == capacity {
            newHead := 0;
          }
          head := newHead;
          return;
        }
        if size >= tail {
          return None;
        }
        limit := head;
        head := size;
        return Some(0);
      }
      if tail - head - 1 < size {
        return None;
      }
      at := Some(head);
      head := head + size;
    }

    /** Releases `size` bytes; `held` reports the assertion of the branch taken. */
    method FreeBlock(size: nat) returns (held: bool)
      requires size > 0
      modifies this`tail, this`limit
      ensures (State(), held) == Free(old(State()), size)
    {
      held := true;
      var newTail := tail + size;
      if limit != capacity {
        if newTail >= limit {
          held := newTail == limit;
          newTail := 0;
          limit := capacity;
        }
      } else if newTail >= capacity {
        held := newTail == capacity;
        newTail := 0;
      }
      tail := newTail;
    }
  }
}
