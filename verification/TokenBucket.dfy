/** The rate limiter of the outputs: a bucket holding at most one second of bits, with time in microseconds. */
module TokenBucket {
  const SECOND: nat := 1_000_000

  /** The configuration caps the rate at INT_MAX megabits per second. */
  const MAX_RATE: nat := 0x7FFF_FFFF * 1_000_000

  const TWO64: nat := 0x1_0000_0000_0000_0000

  function U64(x: nat): (r: nat)
    ensures r < TWO64 && (x < TWO64 ==> r == x)
  {
    x % TWO64
  }

  /** A capture time; the fraction is below one second. */
  datatype Time = Time(sec: int, usec: nat)

  predicate ValidTime(t: Time) { t.usec < SECOND }

  function Micros(t: Time): int { t.sec * SECOND + t.usec }

  /** The difference as the code takes it: borrow a second when the fraction is negative. */
  function Elapsed(a: Time, b: Time): (d: int)
    requires ValidTime(a) && ValidTime(b)
    ensures d == Micros(a) - Micros(b)
  {
    var sec, usec := a.sec - b.sec, a.usec - b.usec;
    if usec < 0 then (sec - 1) * SECOND + (usec + SECOND) else sec * SECOND + usec
  }

  /** Bits earned by a step of the clock: nothing when it stands or steps back, at most one second's worth. */
  function Earned(rate: nat, elapsed: int): nat {
    if elapsed >= SECOND then rate
    else if elapsed > 0 then elapsed * rate / SECOND
    else 0
  }

  lemma PartOfRate(rate: nat, elapsed: int)
    requires 0 < elapsed < SECOND
    ensures 0 <= elapsed * rate / SECOND <= rate
  {
    assert elapsed * rate <= SECOND * rate;
  }

  datatype Bucket = Bucket(rate: nat, tokens: nat, last: Time)

  predicate Good(b: Bucket) { b.tokens <= b.rate && ValidTime(b.last) }

  function Refilled(b: Bucket, now: Time): (tokens: nat)
    requires Good(b) && ValidTime(now)
    ensures tokens <= b.rate
  {
    if b.last.sec > 0 then
      var t := b.tokens + Earned(b.rate, Elapsed(now, b.last));
      if t > b.rate then b.rate else t
    else b.tokens
  }

  /** The bucket after a packet, and whether the packet was let through. */
  function Step(b: Bucket, bytes: nat, now: Time): (r: (Bucket, bool))
    requires Good(b) && ValidTime(now)
    ensures Good(r.0) && r.0.last == now && r.0.rate == b.rate
  {
    var tokens := Refilled(b, now);
    if tokens >= bytes * 8 then (Bucket(b.rate, tokens - bytes * 8, now), true)
    else (Bucket(b.rate, tokens, now), false)
  }

  class Throttle {
    var rate: nat
    var capacity: nat
    var tokens: nat
    var last: Time

    predicate Valid()
      reads this
    {
      rate <= MAX_RATE && capacity == rate && Good(State())
    }

    function State(): Bucket
      reads this
    {
      Bucket(rate, tokens, last)
    }

    constructor (rate: nat)
      requires rate <= MAX_RATE
      ensures Valid() && State() == Bucket(rate, rate, Time(0, 0))
    {
      this.rate, capacity, tokens, last := rate, rate, rate, Time(0, 0);
    }

    /** Nothing wraps at 2^64: rates are capped and a packet's bits fit. */
    method Consume(bytes: nat, now: Time) returns (ok: bool)
      requires Valid() && ValidTime(now) && bytes < 0x1_0000_0000
      modifies this
      ensures Valid() && (State(), ok) == Step(old(State()), bytes, now)
    {
      if last.sec > 0 {
        var elapsed := Elapsed(now, last);
        if elapsed >= SECOND {
          tokens := U64(tokens + rate);
        } else if elapsed > 0 {
          PartOfRate(rate, elapsed);
          tokens := U64(tokens + U64(elapsed * rate / SECOND));
        }
        if tokens > capacity {
          tokens := capacity;
        }
      }
      last := now;
      var required := U64(bytes * 8);
      ok := tokens >= required;
      if ok {
        tokens := tokens - required;
      }
    }
  }

  // ---- what any run lets through -------------------------------------------------------------------

  datatype Packet = Packet(bytes: nat, at: Time)

  ghost predicate Timed(ps: seq<Packet>) {
    forall i :: 0 <= i < |ps| ==> ValidTime(ps[i].at)
  }

  function After(b: Bucket, ps: seq<Packet>): (r: Bucket)
    requires Good(b) && Timed(ps)
    ensures Good(r) && r.rate == b.rate
  {
    if ps == [] then b
    else var n := |ps| - 1; Step(After(b, ps[..n]), ps[n].bytes, ps[n].at).0
  }

  lemma AfterAppend(b: Bucket, ps: seq<Packet>, p: Packet)
    requires Good(b) && Timed(ps) && ValidTime(p.at)
    ensures After(b, ps + [p]) == Step(After(b, ps), p.bytes, p.at).0
  {
    hide Step;
    assert (ps + [p])[..|ps|] == ps;
  }

  /** The bits of the packets let through. */
  function Admitted(b: Bucket, ps: seq<Packet>): nat
    requires Good(b) && Timed(ps)
  {
    if ps == [] then 0
    else
      var n := |ps| - 1;
      Admitted(b, ps[..n]) + if Step(After(b, ps[..n]), ps[n].bytes, ps[n].at).1 then ps[n].bytes * 8 else 0
  }

  /** The microseconds by which the clock stepped forward, backward steps not deducted. */
  function Forward(from: Time, ps: seq<Packet>): nat {
    if ps == [] then 0
    else
      var n := |ps| - 1;
      var d := Micros(ps[n].at) - Micros(if n == 0 then from else ps[n - 1].at);
      Forward(from, ps[..n]) + if d > 0 then d else 0
  }

  lemma AfterLast(b: Bucket, ps: seq<Packet>)
    requires Good(b) && Timed(ps)
    ensures After(b, ps).last == if ps == [] then b.last else ps[|ps| - 1].at
  {
  }

  /** A refill never gives more than the rate times the forward step. */
  lemma EarnedBound(rate: nat, elapsed: int)
    ensures elapsed > 0 ==> Earned(rate, elapsed) * SECOND <= rate * elapsed
    ensures elapsed <= 0 ==> Earned(rate, elapsed) == 0
  {
    if elapsed >= SECOND {
      Product(rate, SECOND, elapsed);
    } else if elapsed > 0 {
      var x := elapsed * rate;
      assert x / SECOND * SECOND <= x;
    }
  }

  lemma Product(rate: nat, a: int, b: int)
    requires a <= b
    ensures rate * a <= rate * b
  {
  }

  lemma ProductSum(rate: nat, a: nat, b: nat)
    ensures rate * (a + b) == rate * a + rate * b
  {
  }

  lemma StepBound(b: Bucket, bytes: nat, now: Time)
    requires Good(b) && ValidTime(now)
    ensures var r := Step(b, bytes, now);
      var d := Micros(now) - Micros(b.last);
      ((if r.1 then bytes * 8 else 0) + r.0.tokens) * SECOND <= b.tokens * SECOND + b.rate * if d > 0 then d else 0
  {
    var d := Elapsed(now, b.last);
    EarnedBound(b.rate, d);
    if d > 0 {
      Product(b.rate, 0, d);
    }
  }

  /** What one more packet adds to the admitted bits and the tokens left. */
  lemma NextPacket(b: Bucket, ps: seq<Packet>)
    requires Good(b) && Timed(ps) && ps != []
    ensures var prev := ps[..|ps| - 1];
      var d := Micros(ps[|ps| - 1].at) - Micros(After(b, prev).last);
      (Admitted(b, ps) + After(b, ps).tokens) * SECOND
      <= (Admitted(b, prev) + After(b, prev).tokens) * SECOND + b.rate * if d > 0 then d else 0
  {
    hide Step, Micros;
    var n := |ps| - 1;
    StepBound(After(b, ps[..n]), ps[n].bytes, ps[n].at);
  }

  /** In any run, admitted bits and the tokens left are paid for by the starting tokens and forward time. */
  lemma {:induction false} AdmittedBound(b: Bucket, ps: seq<Packet>)
    requires Good(b) && Timed(ps)
    ensures (Admitted(b, ps) + After(b, ps).tokens) * SECOND <= b.tokens * SECOND + b.rate * Forward(b.last, ps)
  {
    if ps == [] {
    } else {
      hide Admitted, After, Micros;
      var n := |ps| - 1;
      AdmittedBound(b, ps[..n]);
      AfterLast(b, ps[..n]);
      NextPacket(b, ps);
      var d := Micros(ps[n].at) - Micros(if n == 0 then b.last else ps[n - 1].at);
      ProductSum(b.rate, Forward(b.last, ps[..n]), if d > 0 then d else 0);
    }
  }

  /**
    In any window of calls, whatever the bucket saw before, the bits admitted and the tokens left are at
    most one bucket plus the rate times the forward steps of the clock inside the window.
   */
  lemma {:induction false} WindowBound(b: Bucket, ps: seq<Packet>)
    requires Good(b) && Timed(ps) && ps != []
    ensures (Admitted(b, ps) + After(b, ps).tokens) * SECOND <= b.rate * SECOND + b.rate * Forward(ps[0].at, ps)
  {
    var n := |ps| - 1;
    if n == 0 {
      assert ps[..0] == [];
      FirstCall(b, ps[0]);
    } else {
      hide Admitted, After, Micros;
      WindowBound(b, ps[..n]);
      AfterLast(b, ps[..n]);
      NextPacket(b, ps);
      var d := Micros(ps[n].at) - Micros(ps[n - 1].at);
      ProductSum(b.rate, Forward(ps[0].at, ps[..n]), if d > 0 then d else 0);
    }
  }

  /** One call cannot admit more than the bucket holds. */
  lemma FirstCall(b: Bucket, p: Packet)
    requires Good(b) && ValidTime(p.at)
    ensures var r := Step(b, p.bytes, p.at); (if r.1 then p.bytes * 8 else 0) + r.0.tokens <= b.rate
  {
  }

  ghost predicate Ordered(ps: seq<Packet>) {
    forall i :: 0 <= i < |ps| - 1 ==> Micros(ps[i].at) <= Micros(ps[i + 1].at)
  }

  lemma {:induction false} ForwardTelescopes(ps: seq<Packet>)
    requires Ordered(ps) && ps != []
    ensures Forward(ps[0].at, ps) == Micros(ps[|ps| - 1].at) - Micros(ps[0].at)
  {
    var n := |ps| - 1;
    if n > 0 {
      ForwardTelescopes(ps[..n]);
    }
  }

  /** The limit: packets in time order carry at most the rate times one second more than the window lasts. */
  lemma RateIsLimited(b: Bucket, ps: seq<Packet>)
    requires Good(b) && Timed(ps) && Ordered(ps) && ps != []
    ensures Admitted(b, ps) * SECOND <= b.rate * (SECOND + (Micros(ps[|ps| - 1].at) - Micros(ps[0].at)))
  {
    hide Admitted, After, Forward, Micros;
    WindowBound(b, ps);
    ForwardTelescopes(ps);
    ProductSum(b.rate, SECOND, Forward(ps[0].at, ps));
  }

  /** The bound is met: a full bucket admits the rate at once, and the rate again one second later. */
  lemma LimitIsReached(rate: nat, sec: int)
    requires sec > 0
    ensures var b := Bucket(8 * rate, 8 * rate, Time(sec, 0));
      var ps := [Packet(rate, Time(sec, 0)), Packet(rate, Time(sec + 1, 0))];
      && Timed(ps) && Ordered(ps)
      && Admitted(b, ps) * SECOND == b.rate * (SECOND + (Micros(ps[1].at) - Micros(ps[0].at)))
  {
    var b := Bucket(8 * rate, 8 * rate, Time(sec, 0));
    var ps := [Packet(rate, Time(sec, 0)), Packet(rate, Time(sec + 1, 0))];
    assert ps[..1] == [ps[0]] && ps[..1][..0] == [];
    assert Step(b, rate, Time(sec, 0)) == (Bucket(8 * rate, 0, Time(sec, 0)), true);
    assert After(b, ps[..1]) == Bucket(8 * rate, 0, Time(sec, 0)) && Admitted(b, ps[..1]) == 8 * rate;
    assert Step(After(b, ps[..1]), rate, Time(sec + 1, 0)).1;
  }

  /** The bits a step of the clock earns: the whole part of rate times seconds, up to one second's worth. */
  predicate Earns(rate: nat, elapsed: int, bits: nat) {
    if elapsed >= SECOND then bits == rate
    else if elapsed <= 0 then bits == 0
    else bits * SECOND <= elapsed * rate < (bits + 1) * SECOND
  }

  /** No bit is withheld: what a call lets through and what it leaves are the old tokens and all that was earned, up to the capacity. */
  lemma RefillIsExact(b: Bucket, bytes: nat, now: Time, bits: nat)
    requires Good(b) && ValidTime(now) && Earns(b.rate, if b.last.sec > 0 then Micros(now) - Micros(b.last) else 0, bits)
    ensures var r := Step(b, bytes, now);
      var spent := if r.1 then bytes * 8 else 0;
      r.0.tokens + spent == if b.tokens + bits > b.rate then b.rate else b.tokens + bits
  {
    hide Micros;
    var elapsed := Elapsed(now, b.last);
    if b.last.sec > 0 && 0 < elapsed < SECOND {
      WholePart(elapsed * b.rate, bits);
    }
  }

  lemma WholePart(x: nat, bits: nat)
    requires bits * SECOND <= x < (bits + 1) * SECOND
    ensures x / SECOND == bits
  {
  }

  /** Refusals are justified: a refused packet needed more bits than the bucket held, and cost nothing. */
  lemma RefusedOnlyWhenShort(b: Bucket, bytes: nat, now: Time)
    requires Good(b) && ValidTime(now) && !Step(b, bytes, now).1
    ensures bytes * 8 > Step(b, bytes, now).0.tokens >= b.tokens
  {
  }

  /** Paid traffic passes: after a full second a packet of at most one second's bits is let through. */
  lemma FullSecondAdmits(b: Bucket, bytes: nat, now: Time)
    requires Good(b) && ValidTime(now) && b.last.sec > 0
    requires Micros(now) - Micros(b.last) >= SECOND && bytes * 8 <= b.rate
    ensures Step(b, bytes, now).1
  {
  }
}
