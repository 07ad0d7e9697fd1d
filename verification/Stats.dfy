/**
  Counters held in two 64-bit limbs: bytes below one EiB and whole EiB, packets below one peta and whole
  peta. The high limb wraps around at 2^64.
 */
module Stats {
  import opened RingArithmetic

  const EIB: nat := 0x1000_0000_0000_0000
  const PETA: nat := 10_000_000_000_000_000
  const TWO64: nat := 0x1_0000_0000_0000_0000

  function U64(x: nat): (r: nat)
    ensures r < TWO64
    ensures x < TWO64 ==> r == x
  {
    x % TWO64
  }

  function Quotient(n: nat, unit: nat): nat
    requires 0 < unit
  {
    n / unit
  }

  function Rest(n: nat, unit: nat): (r: nat)
    requires 0 < unit
    ensures r < unit
  {
    n % unit
  }

  /** The number two limbs stand for. */
  function Number(unit: nat, low: nat, high: nat): nat { high * unit + low }

  /** Counters count modulo this. */
  function Range(unit: nat): nat { TWO64 * unit }

  lemma Monotone(a: nat, b: nat, unit: nat)
    requires a <= b
    ensures a * unit <= b * unit
  {
  }

  lemma Distribute(a: nat, b: nat, unit: nat)
    ensures (a + b) * unit == a * unit + b * unit
  {
  }

  lemma Regroup(q: nat, m: nat, unit: nat)
    ensures q * m * unit == q * (m * unit)
  {
  }

  /** Two limbs below their bounds stay below the bound of the number. */
  lemma BelowRange(low: nat, high: nat, m: nat, unit: nat)
    requires low < unit && high < m
    ensures high * unit + low < m * unit
  {
    Monotone(high + 1, m, unit);
    Distribute(high, 1, unit);
  }

  lemma WrapsAt(m: nat, unit: nat, low: nat, q: nat, r: nat)
    requires 0 < unit && low < unit && r < m
    ensures m * unit > 0 && ((q * m + r) * unit + low) % (m * unit) == r * unit + low
  {
    BelowRange(low, r, m, unit);
    Distribute(q * m, r, unit);
    Regroup(q, m, unit);
    Remainder((q * m + r) * unit + low, q, r * unit + low, m * unit);
  }

  /** Dropping whole multiples of 2^64 from the high limb is counting modulo the range. */
  lemma WrapsHigh(unit: nat, low: nat, high: nat)
    requires 0 < unit && low < unit
    ensures Range(unit) > 0 && Number(unit, low, U64(high)) == Rest(Number(unit, low, high), Range(unit))
  {
    WrapsAt(TWO64, unit, low, high / TWO64, high % TWO64);
  }

  /** Adding a number split into limbs: at most one carry. */
  lemma AddLimbs(unit: nat, low: nat, high: nat, n: nat)
    requires 0 < unit && low < unit
    ensures low + Rest(n, unit) < 2 * unit
    ensures var sum := low + Rest(n, unit);
      Number(unit, low, high) + n ==
      if sum >= unit then Number(unit, sum - unit, high + Quotient(n, unit) + 1) else Number(unit, sum, high + Quotient(n, unit))
  {
    Distribute(high, Quotient(n, unit), unit);
    Distribute(high + Quotient(n, unit), 1, unit);
    assert n == Quotient(n, unit) * unit + Rest(n, unit);
  }

  /** Normalised limbs stand for a number below the range. */
  lemma BelowRangeOf(unit: nat, low: nat, high: nat)
    requires low < unit && high < TWO64
    ensures Number(unit, low, high) < Range(unit)
  {
    BelowRange(low, high, TWO64, unit);
  }

  class Counter {
    const unit: nat
    var low: nat
    var high: nat

    predicate Valid()
      reads this
    {
      0 < unit <= EIB && low < unit && high < TWO64
    }

    function Value(): (v: nat)
      reads this
    {
      Number(unit, low, high)
    }

    constructor (unit: nat)
      requires unit == EIB || unit == PETA
      ensures Valid() && Value() == 0 && this.unit == unit
    {
      this.unit, low, high := unit, 0, 0;
    }

    /** Adds n, normalising the limbs. */
    method Add(n: nat)
      requires Valid() && n < TWO64
      modifies this
      ensures Valid() && Range(unit) > 0 && Value() == Rest(old(Value()) + n, Range(unit))
    {
      hide Number, Range, Quotient, Rest, U64;
      AddLimbs(unit, low, high, n);
      var carry := Quotient(n, unit);
      low := U64(low + Rest(n, unit));
      if low >= unit {
        low := low - unit;
        carry := carry + 1;
      }
      WrapsHigh(unit, low, high + carry);
      high := U64(high + carry);
    }

    /** Adds every amount, one after the other. */
    method AddAll(amounts: seq<nat>)
      requires Valid() && forall i :: 0 <= i < |amounts| ==> amounts[i] < TWO64
      modifies this
      ensures Valid() && Range(unit) > 0 && Value() == Shown(Range(unit), old(Value()), amounts)
      ensures Value() == Rest(old(Value()) + Sum(amounts), Range(unit))
      ensures old(Value()) + Sum(amounts) < Range(unit) ==> Value() == old(Value()) + Sum(amounts)
    {
      hide Number, Range, Rest;
      BelowRangeOf(unit, low, high);
      for i := 0 to |amounts|
        invariant Valid() && Value() == Shown(Range(unit), old(Value()), amounts[..i])
      {
        assert amounts[..i + 1][..i] == amounts[..i];
        Add(amounts[i]);
      }
      assert amounts[..|amounts|] == amounts;
      ShowsTheSum(Range(unit), old(Value()), amounts);
    }

    /** Adds another counter of the same unit to this one. */
    method Merge(other: Counter)
      requires Valid() && other.Valid() && other.unit == unit
      modifies this
      ensures Valid() && Range(unit) > 0 && Value() == Rest(old(Value()) + old(other.Value()), Range(unit))
    {
      hide Number, Range, Quotient, Rest, U64;
      MergeLimbs(unit, low, high, other.low, other.high);
      var sum := U64(low + other.low);
      var carry := Quotient(sum, unit);
      WrapsTwice(high, other.high, carry);
      WrapsHigh(unit, Rest(sum, unit), high + other.high + carry);
      low, high := Rest(sum, unit), U64(high + U64(other.high + carry));
    }
  }

  lemma MergeLimbs(unit: nat, low: nat, high: nat, otherLow: nat, otherHigh: nat)
    requires 0 < unit
    ensures var sum := low + otherLow;
      Number(unit, low, high) + Number(unit, otherLow, otherHigh) == Number(unit, Rest(sum, unit), high + otherHigh + Quotient(sum, unit))
  {
    var sum := low + otherLow;
    assert sum == Quotient(sum, unit) * unit + Rest(sum, unit);
    Distribute(high, otherHigh, unit);
    Distribute(high + otherHigh, Quotient(sum, unit), unit);
  }

  lemma WrapsTwice(a: nat, b: nat, c: nat)
    ensures U64(a + U64(b + c)) == U64(a + b + c)
  {
  }

  // ---- many additions ------------------------------------------------------------------------------

  function Sum(amounts: seq<nat>): nat {
    if amounts == [] then 0 else Sum(amounts[..|amounts| - 1]) + amounts[|amounts| - 1]
  }

  /** What a counter shows after adding all amounts, one `Add` at a time. */
  function Shown(range: nat, start: nat, amounts: seq<nat>): nat
    requires range > 0
  {
    if amounts == [] then start
    else Rest(Shown(range, start, amounts[..|amounts| - 1]) + amounts[|amounts| - 1], range)
  }

  lemma ModThenAdd(a: nat, b: nat, n: nat)
    requires n > 0
    ensures Rest(Rest(a, n) + b, n) == Rest(a + b, n)
  {
    var s := a % n + b;
    assert a + b == a / n * n + s;
    assert s == s / n * n + s % n;
    assert (a / n + s / n) * n == a / n * n + s / n * n;
    Remainder(a + b, a / n + s / n, s % n, n);
  }

  lemma SmallRest(n: nat, range: nat)
    requires 0 < range
    ensures n < range ==> Rest(n, range) == n
  {
  }

  /** A counter shows the total of everything added to it, modulo its range; it misses nothing below that. */
  lemma {:induction false} ShowsTheSum(range: nat, start: nat, amounts: seq<nat>)
    requires start < range
    ensures Shown(range, start, amounts) == Rest(start + Sum(amounts), range)
    ensures start + Sum(amounts) < range ==> Shown(range, start, amounts) == start + Sum(amounts)
  {
    hide Rest;
    SmallRest(start + Sum(amounts), range);
    if amounts == [] {
      SmallRest(start, range);
    } else {
      ShowsTheSum(range, start, amounts[..|amounts| - 1]);
      ModThenAdd(start + Sum(amounts[..|amounts| - 1]), amounts[|amounts| - 1], range);
    }
  }
}
