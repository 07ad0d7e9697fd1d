/** What all outputs share: the counted length of a packet and the counters for what became of it. */
module Outputs {
  /** A packet whose direction could not be told. */
  const DIR_UNKNOWN: int := -1

  /** Packets and bytes by what became of them. */
  datatype Tally = Tally(packets: nat, bytes: nat)

  function Plus(t: Tally, bytes: nat): Tally { Tally(t.packets + 1, t.bytes + bytes) }

  function Both(a: Tally, b: Tally): Tally { Tally(a.packets + b.packets, a.bytes + b.bytes) }

  /** Captured packets by what became of them, and the heartbeats sent. */
  datatype Totals = Totals(forwarded: Tally, direction: Tally, rateLimited: Tally, errors: Tally, heartbeats: nat)

  function PacketsOf(t: Totals): nat {
    t.forwarded.packets + t.direction.packets + t.rateLimited.packets + t.errors.packets
  }

  function BytesOf(t: Totals): nat {
    t.forwarded.bytes + t.direction.bytes + t.rateLimited.bytes + t.errors.bytes
  }

  /** What can become of a packet. */
  datatype Fate = Forwarded | UnknownDirection | AboveRate | Failed

  function Counted(t: Totals, fate: Fate, bytes: nat): (r: Totals)
    ensures PacketsOf(r) == PacketsOf(t) + 1 && BytesOf(r) == BytesOf(t) + bytes
  {
    match fate
    case Forwarded => t.(forwarded := Plus(t.forwarded, bytes))
    case UnknownDirection => t.(direction := Plus(t.direction, bytes))
    case AboveRate => t.(rateLimited := Plus(t.rateLimited, bytes))
    case Failed => t.(errors := Plus(t.errors, bytes))
  }

  const NONE: Tally := Tally(0, 0)
  const NO_TOTALS: Totals := Totals(NONE, NONE, NONE, NONE, 0)

  /** From s to t, and from a to b, the same was added to every total. */
  predicate MovesWith(s: Totals, t: Totals, a: Totals, b: Totals) {
    && Both(s.forwarded, b.forwarded) == Both(t.forwarded, a.forwarded)
    && Both(s.direction, b.direction) == Both(t.direction, a.direction)
    && Both(s.rateLimited, b.rateLimited) == Both(t.rateLimited, a.rateLimited)
    && Both(s.errors, b.errors) == Both(t.errors, a.errors)
    && s.heartbeats + b.heartbeats == t.heartbeats + a.heartbeats
  }

  lemma MovesNot(t: Totals, b: Totals)
    ensures MovesWith(t, t, b, b)
  {
  }

  lemma MovesOn(s: Totals, t: Totals, u: Totals, a: Totals, b: Totals, c: Totals)
    requires MovesWith(s, t, a, b) && MovesWith(t, u, b, c)
    ensures MovesWith(s, u, a, c)
  {
  }

  /** The counted length of a packet: sliced when configured, and never above the limit. */
  function FrameLen(caplen: nat, slice: int, max: nat): (n: nat)
    ensures n <= caplen && n <= max && (slice > 0 ==> n <= slice)
    ensures n == caplen || n == max || n == slice
  {
    var n := if 0 < slice < caplen then slice else caplen;
    if n < max then n else max
  }
}
