/**
  A bounded queue between two threads, each of which works in several steps. This is what the
  single-producer single-consumer ring looks like from outside.
 */
module BoundedQueue {
  datatype Turn<T> = ProducerTurn(msg: T, ask: bool) | ConsumerTurn(ask: bool)

  datatype Maker<T> = MIdle | MOffers(msg: T) | MAccepted(msg: T) | MStored(msg: T) | MAsks

  datatype Taker<T> = TIdle | TLooked | TSure | THolds(msg: T) | TAsks

  /** What was ever pushed, how much of it was popped, and how much the consumer had seen when it last looked. */
  datatype Line<T> = Line(pushed: seq<T>, popped: nat, seen: nat, maker: Maker<T>, taker: Taker<T>)

  ghost predicate Sound<T>(l: Line<T>, room: nat) {
    && l.popped <= |l.pushed| <= l.popped + room
    && (l.maker.MAccepted? || l.maker.MStored? ==> |l.pushed| < l.popped + room)
    && (!l.taker.TIdle? ==> l.popped <= l.seen <= |l.pushed|)
    && (l.taker.TSure? || l.taker.THolds? ==> l.popped < |l.pushed|)
    && (l.taker.THolds? ==> l.taker.msg == l.pushed[l.popped])
  }

  /** One turn of the producer or of the consumer of a queue with `room` places. */
  ghost function Played<T>(l: Line<T>, room: nat, turn: Turn<T>): (r: Line<T>)
    requires Sound(l, room)
    ensures Sound(r, room)
  {
    match turn
    case ProducerTurn(msg, ask) => (
      match l.maker
      case MIdle => l.(maker := if ask then MAsks else MOffers(msg))
      case MOffers(m) => l.(maker := if |l.pushed| - l.popped == room then MIdle else MAccepted(m))
      case MAccepted(m) => l.(maker := MStored(m))
      case MStored(m) => l.(pushed := l.pushed + [m], maker := MIdle)
      case MAsks => l.(maker := MIdle))
    case ConsumerTurn(ask) => (
      match l.taker
      case TIdle => l.(taker := if ask then TAsks else TLooked, seen := |l.pushed|)
      case TLooked => l.(taker := if l.seen == l.popped then TIdle else TSure)
      case TSure => l.(taker := THolds(l.pushed[l.popped]))
      case THolds(_) => l.(popped := l.popped + 1, taker := TIdle)
      case TAsks => l.(taker := TIdle))
  }

  ghost function PlayedAll<T>(l: Line<T>, room: nat, turns: seq<Turn<T>>): (r: Line<T>)
    requires Sound(l, room)
    ensures Sound(r, room)
  {
    if turns == [] then l else Played(PlayedAll(l, room, turns[..|turns| - 1]), room, turns[|turns| - 1])
  }

  // ---- only what was offered is pushed -------------------------------------------------------------

  /** The message the producer is about to push. */
  ghost function InHand<T>(m: Maker<T>): seq<T> {
    if m.MOffers? || m.MAccepted? || m.MStored? then [m.msg] else []
  }

  /** The producer's turns that offer a message, in order. */
  ghost predicate Offers<T>(turns: seq<Turn<T>>, picks: seq<nat>) {
    && (forall j :: 0 <= j < |picks| ==> picks[j] < |turns| && turns[picks[j]].ProducerTurn? && !turns[picks[j]].ask)
    && (forall i, j :: 0 <= i < j < |picks| ==> picks[i] < picks[j])
  }

  ghost function Messages<T>(turns: seq<Turn<T>>, picks: seq<nat>): seq<T>
    requires Offers(turns, picks)
  {
    seq(|picks|, j requires 0 <= j < |picks| => turns[picks[j]].msg)
  }

  /** Everything pushed so far and the message in hand. */
  ghost function Total<T>(l: Line<T>): seq<T> { l.pushed + InHand(l.maker) }

  ghost predicate Refused<T>(l: Line<T>, room: nat, turn: Turn<T>) {
    turn.ProducerTurn? && l.maker.MOffers? && |l.pushed| - l.popped == room
  }

  lemma TurnAccounts<T>(l: Line<T>, room: nat, turn: Turn<T>)
    requires Sound(l, room)
    ensures var r := Played(l, room, turn);
            && l.pushed <= r.pushed && l.popped <= r.popped
            && if Refused(l, room, turn) then Total(l) == Total(r) + [l.maker.msg] && r.pushed == l.pushed == Total(r)
               else if turn.ProducerTurn? && !turn.ask && l.maker.MIdle? then Total(r) == Total(l) + [turn.msg]
               else Total(r) == Total(l)
  {
  }

  ghost predicate Explains<T>(from: seq<T>, hand: seq<T>, turns: seq<Turn<T>>, kept: bool, picks: seq<nat>, total: seq<T>) {
    Offers(turns, picks) && total == from + (if kept then hand else []) + Messages(turns, picks)
  }

  lemma MoreTurns<T>(from: seq<T>, hand: seq<T>, turns: seq<Turn<T>>, last: Turn<T>, kept: bool, picks: seq<nat>, total: seq<T>)
    requires Explains(from, hand, turns, kept, picks, total)
    ensures Explains(from, hand, turns + [last], kept, picks, total)
    ensures last.ProducerTurn? && !last.ask ==> Explains(from, hand, turns + [last], kept, picks + [|turns|], total + [last.msg])
  {
    assert Messages(turns + [last], picks) == Messages(turns, picks);
    if last.ProducerTurn? && !last.ask {
      assert Messages(turns + [last], picks + [|turns|]) == Messages(turns, picks) + [last.msg];
    }
  }

  lemma OneLess<T>(from: seq<T>, hand: seq<T>, turns: seq<Turn<T>>, kept: bool, picks: seq<nat>, total: seq<T>, m: T)
    returns (kept': bool, picks': seq<nat>)
    requires Explains(from, hand, turns, kept, picks, total + [m]) && |hand| <= 1 && from <= total
    ensures Explains(from, hand, turns, kept', picks', total)
  {
    if picks == [] {
      kept', picks' := false, [];
    } else {
      var n := |picks| - 1;
      kept', picks' := kept, picks[..n];
      assert Messages(turns, picks) == Messages(turns, picks') + [turns[picks[n]].msg];
      assert total == (total + [m])[..|total|];
    }
  }

  /**
    What a schedule pushes is a subsequence of what its producer turns offer, after the message the
    producer already had in hand, if that one was not refused.
   */
  lemma {:induction false} PushedWereOffered<T>(l: Line<T>, room: nat, turns: seq<Turn<T>>) returns (kept: bool, picks: seq<nat>)
    requires Sound(l, room)
    ensures var r := PlayedAll(l, room, turns);
            && l.pushed <= r.pushed && l.popped <= r.popped
            && Offers(turns, picks)
            && r.pushed + InHand(r.maker) == l.pushed + (if kept then InHand(l.maker) else []) + Messages(turns, picks)
  {
    hide Played, Sound;
    if turns == [] {
      kept, picks := true, [];
    } else {
      var rest, last := turns[..|turns| - 1], turns[|turns| - 1];
      var was := PlayedAll(l, room, rest);
      kept, picks := PushedWereOffered(l, room, rest);
      TurnAccounts(was, room, last);
      MoreTurns(l.pushed, InHand(l.maker), rest, last, kept, picks, Total(was));
      assert rest + [last] == turns;
      if Refused(was, room, last) {
        kept, picks := OneLess(l.pushed, InHand(l.maker), turns, kept, picks, was.pushed, was.maker.msg);
      } else if last.ProducerTurn? && !last.ask && was.maker.MIdle? {
        picks := picks + [|rest|];
      }
    }
  }
}
