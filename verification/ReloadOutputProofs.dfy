/** The steps of the output thread keep the invariant. */
module ReloadOutputProofs {
  import opened Basics
  import opened TaskLists
  import opened ReloadModel
  import opened ReloadInvariant
  import opened ReloadHeapProofs
  import opened ReloadMainProofs

  lemma OutPopInv(s: State)
    requires Inv(s) && s.pipeline && s.opc.OPop?
    ensures var r := OutPop(s); Inv(r) && Quiet(s, r)
  {
    hide PhaseInv, Bounded, InFlight, TaskIds, CleanFrom;
    assert ViewOf(OutPop(s)) == ViewOf(s);
    if s.ring != [] {
      PoppedInFlight(s.ring, s.opc, None);
    }
    IdleOutput(s.ring, OPop, OTop);
  }

  lemma OutDrainInv(s: State)
    requires Inv(s) && s.pipeline && s.opc.ODrain?
    ensures var r := OutDrain(s); Inv(r) && Quiet(s, r)
  {
    hide PhaseInv, Bounded, InFlight, TaskIds, CleanFrom;
    assert ViewOf(OutDrain(s)) == ViewOf(s);
    if s.phase.AwaitingReclaim? {
      CleanAfterPop(s.ring, s.opc.left, LiveList(s));
    }
    if s.ring != [] && s.opc.left > 0 {
      PoppedInFlight(s.ring, s.opc, Some(s.opc.left - 1));
    }
    IdleOutput(s.ring, s.opc, OClear);
  }

  lemma OutHandleInv(s: State)
    requires Inv(s) && s.pipeline && s.opc.OHandle?
    ensures var r := OutHandle(s); Inv(r) && Quiet(s, r)
  {
    FlightIsLive(s);
    assert s.opc.task in InFlight(s.ring, s.opc);
    assert InFlight(s.ring, OutHandle(s).opc) <= InFlight(s.ring, s.opc);
    hide PhaseInv, Bounded, InFlight, TaskIds, CleanFrom;
    assert ViewOf(OutHandle(s)) == ViewOf(s);
  }

  lemma OutTopInv(s: State)
    requires Inv(s) && s.pipeline && s.opc.OTop?
    ensures var r := OutTop(s); Inv(r) && Quiet(s, r)
  {
    hide PhaseInv, Bounded, InFlight, TaskIds, CleanFrom;
    assert ViewOf(OutTop(s)) == ViewOf(s);
    IdleOutput(s.ring, s.opc, OutTop(s).opc);
  }

  lemma OutUsedInv(s: State)
    requires Inv(s) && s.pipeline && s.opc.OUsed?
    ensures var r := OutUsed(s); Inv(r) && Quiet(s, r)
  {
    hide PhaseInv, Bounded, InFlight, TaskIds;
    assert ViewOf(OutUsed(s)) == ViewOf(s);
    IdleOutput(s.ring, s.opc, OutUsed(s).opc);
  }

  lemma OutClearInv(s: State)
    requires Inv(s) && s.pipeline && s.opc.OClear?
    ensures var r := OutClear(s); Inv(r) && Quiet(s, r)
  {
    hide PhaseInv, Bounded, InFlight, TaskIds, CleanFrom;
    assert ViewOf(OutClear(s)) == ViewOf(s);
    IdleOutput(s.ring, s.opc, OutClear(s).opc);
  }

  lemma OutRespondInv(s: State)
    requires Inv(s) && s.pipeline && s.opc.ORespond?
    ensures var r := OutRespond(s); Inv(r) && Quiet(s, r)
  {
    hide PhaseInv, Bounded, InFlight, TaskIds, CleanFrom;
    assert ViewOf(OutRespond(s)) == ViewOf(s);
    IdleOutput(s.ring, s.opc, OutRespond(s).opc);
  }
}
