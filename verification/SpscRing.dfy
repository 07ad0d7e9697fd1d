/** Index arithmetic of a ring: counters that are close to each other share a slot only if they are equal. */
module RingArithmetic {
  lemma Multiples(d: int, n: int)
    requires n > 0
    ensures d >= 1 ==> d * n >= n
    ensures d >= 2 ==> d * n >= 2 * n
    ensures d <= -1 ==> d * n <= -n
  {
  }

  /** Quotient and remainder are unique. */
  lemma Remainder(x: nat, q: int, r: nat, n: nat)
    requires n > 0 && x == q * n + r && r < n
    ensures x % n == r
  {
    var d := x / n - q;
    assert d * n == (x / n) * n - q * n;
    Multiples(d, n);
  }

  lemma AddSize(x: nat, n: nat)
    requires n > 0
    ensures (x + n) % n == x % n
  {
    assert (x / n + 1) * n == (x / n) * n + n;
    Remainder(x + n, x / n + 1, x % n, n);
  }

  lemma NextFrom(c: nat, q: nat, r: nat, n: nat)
    requires r < n && c == q * n + r
    ensures (r + 1) % n == (c + 1) % n
  {
    if r + 1 < n {
      Remainder(c + 1, q, r + 1, n);
      Remainder(r + 1, 0, r + 1, n);
    } else {
      assert (q + 1) * n == q * n + n;
      Remainder(c + 1, q + 1, 0, n);
      Remainder(r + 1, 1, 0, n);
    }
  }

  /** The next slot, computed from the slot, is the slot of the next counter. */
  lemma NextSlot(c: nat, n: nat)
    requires n > 0
    ensures (c % n + 1) % n == (c + 1) % n
  {
    var q, r := c / n, c % n;
    assert c == q * n + r;
    NextFrom(c, q, r, n);
  }

  /** A distance below the ring's size spans at most one turn of it. */
  lemma Rounds(d: int, x: nat, y: nat, far: nat, n: nat)
    requires x < n && y < n && far < n && far == d * n + y - x
    ensures far == if x <= y then y - x else n - x + y
  {
    Multiples(d, n);
    if d == 0 {
      assert far == y - x;
    } else {
      assert d == 1;
      assert far == n + y - x;
    }
  }

  /** The distance of two counters from their slots, as a ring computes it. */
  lemma SlotDistance(a: nat, b: nat, n: nat)
    requires n > 0 && a <= b && b - a < n
    ensures b - a == (if a % n <= b % n then b % n - a % n else n - a % n + b % n)
  {
    var p, q, x, y := a / n, b / n, a % n, b % n;
    assert (q - p) * n == q * n - p * n;
    Rounds(q - p, x, y, b - a, n);
  }

  lemma SameSlot(a: nat, b: nat, n: nat)
    requires n > 0 && a <= b && b - a < n
    ensures a % n == b % n <==> a == b
  {
    SlotDistance(a, b, n);
  }
}

/**
  The single-producer single-consumer ring, one atomic access at a time.

  Each method is one load, slot access or store of one thread; any interleaving of the two threads is a
  sequence of these calls. `pushed` and `popped` are the histories of published pushes and pops.
 */
module SpscRing {
  import opened BoundedQueue
  import opened RingArithmetic

  /** What the producer has loaded so far. */
  datatype Producer<T> =
    | PIdle
    | PHead(msg: T, head: nat)
    | PChecked(msg: T, head: nat)          // saw room
    | PStored(msg: T, head: nat)           // slot written, not published
    | PUsed(head: nat)                     // asking for the fill level

  /** What the consumer has loaded so far. */
  datatype Consumer<T> =
    | CIdle
    | CHead(head: nat)
    | CReady(tail: nat)                    // saw an element
    | CRead(msg: T, tail: nat)             // slot read, not released
    | CUsed(head: nat)

  function MakerOf<T>(p: Producer<T>): Maker<T> {
    match p
    case PIdle => MIdle
    case PHead(m, _) => MOffers(m)
    case PChecked(m, _) => MAccepted(m)
    case PStored(m, _) => MStored(m)
    case PUsed(_) => MAsks
  }

  function TakerOf<T>(c: Consumer<T>): Taker<T> {
    match c
    case CIdle => TIdle
    case CHead(_) => TLooked
    case CReady(_) => TSure
    case CRead(m, _) => THolds(m)
    case CUsed(_) => TAsks
  }

  class Ring<T(0)> {
    const size: nat
    const buf: array<T>
    var head: nat
    var tail: nat
    var producer: Producer<T>
    var consumer: Consumer<T>

    ghost var pushed: seq<T>
    ghost var popped: seq<T>
    ghost var seenPushed: nat              // |pushed| when the consumer last loaded head

    ghost predicate Shape()
      reads this
    {
      && size > 0 && buf.Length == size
      && |popped| <= |pushed| < |popped| + size && popped == pushed[..|popped|]
      && head == |pushed| % size && tail == |popped| % size
    }

    /** Every published, unreleased element is still in its slot. */
    ghost predicate Slots()
      reads this, buf
      requires size > 0 && buf.Length == size
    {
      forall i :: |popped| <= i < |pushed| ==> buf[i % size] == pushed[i]
    }

    ghost predicate ProducerOk()
      reads this, buf
      requires Shape()
    {
      match producer
      case PIdle => true
      case PHead(_, h) => h == head
      case PChecked(_, h) => h == head && |pushed| + 1 < |popped| + size
      case PStored(m, h) => h == head && |pushed| + 1 < |popped| + size && buf[h] == m
      case PUsed(h) => h == head
    }

    ghost predicate ConsumerOk()
      reads this
      requires Shape()
    {
      && (!consumer.CIdle? ==> |popped| <= seenPushed <= |pushed|)
      && match consumer
         case CIdle => true
         case CHead(h) => h == seenPushed % size
         case CReady(t) => t == tail && |popped| < |pushed|
         case CRead(m, t) => t == tail && |popped| < |pushed| && m == pushed[|popped|]
         case CUsed(h) => h == seenPushed % size
    }

    ghost predicate Valid()
      reads this, buf
    {
      Shape() && Slots() && ProducerOk() && ConsumerOk()
    }

    /** The two threads and the queue between them, without slots. */
    ghost function View(): Line<T>
      reads this
    {
      Line(pushed, |popped|, seenPushed, MakerOf(producer), TakerOf(consumer))
    }

    /** The abstract queue. */
    ghost function Queue(): seq<T>
      reads this
      requires Shape()
    {
      pushed[|popped|..]
    }

    constructor (n: nat)
      requires n > 0
      ensures Valid() && size == n && pushed == [] && popped == [] && producer.PIdle? && consumer.CIdle?
      ensures fresh(buf)
    {
      size := n;
      buf := new T[n];
      head, tail := 0, 0;
      producer, consumer := PIdle, CIdle;
      pushed, popped, seenPushed := [], [], 0;
    }

    // ---- push ------------------------------------------------------------------------------------

    method PushLoadHead(msg: T)
      requires Valid() && producer.PIdle?
      modifies this`producer
      ensures Valid() && producer == PHead(msg, head)
    {
      producer := PHead(msg, head);
    }

    /** Loads tail and decides; a refusal is right: the queue is full at this moment. */
    method PushLoadTail() returns (full: bool)
      requires Valid() && producer.PHead?
      modifies this`producer
      ensures Valid()
      ensures full <==> |Queue()| == size - 1
      ensures producer == if full then PIdle else PChecked(old(producer.msg), old(producer.head))
    {
      var h := producer.head;
      NextSlot(|pushed|, size);
      var next := (h + 1) % size;
      if |pushed| + 1 < |popped| + size {
        SameSlot(|popped|, |pushed| + 1, size);
      } else {
        AddSize(|popped|, size);
      }
      full := next == tail;
      producer := if full then PIdle else PChecked(producer.msg, h);
    }

    method PushStore()
      requires Valid() && producer.PChecked?
      modifies this`producer, buf
      ensures Valid() && producer == PStored(old(producer.msg), old(producer.head))
    {
      var m, h := producer.msg, producer.head;
      forall i | |popped| <= i < |pushed|
        ensures i % size != h
      {
        SameSlot(i, |pushed|, size);
      }
      buf[h] := m;
      producer := PStored(m, h);
    }

    /** The push takes effect. */
    method PushPublish()
      requires Valid() && producer.PStored?
      modifies this`producer, this`head, this`pushed
      ensures Valid() && producer.PIdle?
      ensures Queue() == old(Queue()) + [old(producer.msg)]
      ensures pushed == old(pushed) + [old(producer.msg)]
    {
      var m, h := producer.msg, producer.head;
      NextSlot(|pushed|, size);
      pushed := pushed + [m];
      head := (h + 1) % size;
      producer := PIdle;
    }

    // ---- pop -------------------------------------------------------------------------------------

    method PopLoadHead()
      requires Valid() && consumer.CIdle?
      modifies this`consumer, this`seenPushed
      ensures Valid() && consumer == CHead(head) && seenPushed == |pushed|
    {
      seenPushed := |pushed|;
      consumer := CHead(head);
    }

    /** Loads tail and decides; "empty" means that nothing was queued when head was loaded. */
    method PopLoadTail() returns (empty: bool)
      requires Valid() && consumer.CHead?
      modifies this`consumer
      ensures Valid() && consumer == if empty then CIdle else CReady(tail)
      ensures empty <==> seenPushed == |popped|
      ensures !empty ==> |Queue()| > 0
    {
      SameSlot(|popped|, seenPushed, size);
      empty := tail == consumer.head;
      consumer := if empty then CIdle else CReady(tail);
    }

    method PopRead()
      requires Valid() && consumer.CReady?
      modifies this`consumer
      ensures Valid() && |Queue()| > 0 && consumer == CRead(Queue()[0], tail)
    {
      consumer := CRead(buf[consumer.tail], consumer.tail);
    }

    /** The pop takes effect and hands out the oldest element. */
    method PopRelease() returns (msg: T)
      requires Valid() && consumer.CRead?
      modifies this`consumer, this`tail, this`popped
      ensures Valid() && consumer.CIdle?
      ensures |old(Queue())| > 0 && msg == old(Queue())[0] && Queue() == old(Queue())[1..]
      ensures popped == old(popped) + [msg]
    {
      msg := consumer.msg;
      NextSlot(|popped|, size);
      popped := popped + [msg];
      tail := (consumer.tail + 1) % size;
      consumer := CIdle;
    }

    // ---- fill level ------------------------------------------------------------------------------

    method UsedByConsumerLoadHead()
      requires Valid() && consumer.CIdle?
      modifies this`consumer, this`seenPushed
      ensures Valid() && consumer == CUsed(head) && seenPushed == |pushed|
    {
      seenPushed := |pushed|;
      consumer := CUsed(head);
    }

    /** To the consumer the answer is a lower bound: at least that many pops will succeed. */
    method UsedByConsumerLoadTail() returns (used: nat)
      requires Valid() && consumer.CUsed?
      modifies this`consumer
      ensures Valid() && consumer.CIdle?
      ensures used == seenPushed - |popped| && used <= |Queue()|
    {
      SlotDistance(|popped|, seenPushed, size);
      used := if tail <= consumer.head then consumer.head - tail else size - tail + consumer.head;
      consumer := CIdle;
    }

    method UsedByProducerLoadHead()
      requires Valid() && producer.PIdle?
      modifies this`producer
      ensures Valid() && producer == PUsed(head)
    {
      producer := PUsed(head);
    }

    /** To the producer the answer is exact when tail is loaded, hence an upper bound from then on. */
    method UsedByProducerLoadTail() returns (used: nat)
      requires Valid() && producer.PUsed?
      modifies this`producer
      ensures Valid() && producer.PIdle?
      ensures used == |Queue()|
    {
      SlotDistance(|popped|, |pushed|, size);
      used := if tail <= producer.head then producer.head - tail else size - tail + producer.head;
      producer := PIdle;
    }

    // ---- every interleaving ----------------------------------------------------------------------

    method ProducerStep(msg: T, ask: bool)
      requires Valid()
      modifies this`producer, this`head, this`pushed, buf
      ensures Valid()
      ensures View() == Played(old(View()), size - 1, ProducerTurn(msg, ask))
    {
      match producer {
        case PIdle => if ask { UsedByProducerLoadHead(); } else { PushLoadHead(msg); }
        case PHead(_, _) => var _ := PushLoadTail();
        case PChecked(_, _) => PushStore();
        case PStored(_, _) => PushPublish();
        case PUsed(_) => var _ := UsedByProducerLoadTail();
      }
    }

    method ConsumerStep(ask: bool)
      requires Valid()
      modifies this`consumer, this`seenPushed, this`tail, this`popped
      ensures Valid()
      ensures View() == Played(old(View()), size - 1, ConsumerTurn(ask))
    {
      match consumer {
        case CIdle => if ask { UsedByConsumerLoadHead(); } else { PopLoadHead(); }
        case CHead(_) => var _ := PopLoadTail();
        case CReady(_) => PopRead();
        case CRead(_, _) => var _ := PopRelease();
        case CUsed(_) => var _ := UsedByConsumerLoadTail();
      }
    }

    /**
      Under any schedule of its two threads the ring is a queue for size - 1 elements: what is pushed was
      offered by the schedule, in order, and what is popped is what was pushed.
     */
    method Run(schedule: seq<Turn<T>>) returns (ghost kept: bool, ghost picks: seq<nat>)
      requires Valid()
      modifies this, buf
      ensures Valid()
      ensures View() == PlayedAll(old(View()), size - 1, schedule)
      ensures Offers(schedule, picks)
      ensures pushed + InHand(MakerOf(producer))
           == old(pushed) + (if kept then InHand(old(MakerOf(producer))) else []) + Messages(schedule, picks)
      ensures old(pushed) <= pushed && old(popped) <= popped
      ensures popped + Queue() == pushed && |Queue()| <= size - 1
    {
      for i := 0 to |schedule|
        invariant Valid()
        invariant View() == PlayedAll(old(View()), size - 1, schedule[..i])
      {
        assert schedule[..i + 1][..i] == schedule[..i];
        match schedule[i] {
          case ProducerTurn(msg, ask) => ProducerStep(msg, ask);
          case ConsumerTurn(ask) => ConsumerStep(ask);
        }
      }
      assert schedule[..|schedule|] == schedule;
      kept, picks := PushedWereOffered(old(View()), size - 1, schedule);
    }
  }
}
