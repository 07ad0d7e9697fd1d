/**
  Reloads can always finish: from every reachable state a run leads back to idle.
 */
module ReloadProgress {
  import opened TaskLists
  import opened ReloadModel
  import opened ReloadInvariant
  import opened ReloadRank
  import opened ReloadDelivery
  import opened ReloadTheorems

  /** From every reachable state some run leads back to idle. */
  lemma {:induction false} ReloadsCanFinish(run: seq<State>) returns (more: seq<State>)
    requires IsRun(run)
    ensures IsRun(more) && run <= more && more[|more| - 1].phase.Idle?
    decreases RankOf(run[|run| - 1]).phase, RankOf(run[|run| - 1]).place, RankOf(run[|run| - 1]).stage, RankOf(run[|run| - 1]).left
  {
    hide Inv, Step, Enabled, Init, Helps, NextHelp, RankOf;
    var s := run[|run| - 1];
    if s.phase.Idle? {
      more := run;
    } else {
      RunInv(run, |run| - 1);
      SomeStepHelps(s);
      HelpingStepsGetCloser(s, NextHelp(s));
      assert Next(s, Step(s, NextHelp(s)));
      more := ReloadsCanFinish(run + [Step(s, NextHelp(s))]);
    }
  }

  // ---- every signal can start a reload -----------------------------------------------------------------

  /** What the idle main thread does next on its way to the reload signal. */
  ghost function NextToTry(p: MainPc): Action {
    match p
    case MPoll(_) => APollNext
    case MTry => AMainTry
    case _ => AMainReceive
  }

  /** Steps of the main thread until it looks at the signal. */
  ghost function ToTry(s: State): nat {
    match s.mpc
    case MPoll(k) => 2 + Over(|LiveList(s)|, k) + 1
    case MLoop => 2
    case MTry => 1
    case _ => 0
  }

  lemma IdleMainMovesOn(s: State)
    requires TokenInv(s) && s.phase.Idle? && s.signal
    ensures Enabled(s, NextToTry(s.mpc))
    ensures var r := Step(s, NextToTry(s.mpc));
      if s.mpc.MTry? then r.phase.AwaitingSurvivors? && !r.signal else r.phase.Idle? && r.signal && ToTry(r) < ToTry(s)
  {
    hide TaskIds;
  }

  lemma {:induction false} IdleSignalStarts(run: seq<State>) returns (more: seq<State>)
    requires IsRun(run) && run[|run| - 1].phase.Idle? && run[|run| - 1].signal
    ensures IsRun(more) && run < more && more[|more| - 1].phase.AwaitingSurvivors? && !more[|more| - 1].signal
    decreases ToTry(run[|run| - 1])
  {
    hide Step, Enabled, Init, ToTry, PhaseInv, FlightInv, Bounded, DrainInv, TokenInv;
    var s := run[|run| - 1];
    RunInv(run, |run| - 1);
    IdleMainMovesOn(s);
    var r := Step(s, NextToTry(s.mpc));
    assert Next(s, r);
    if s.mpc.MTry? {
      more := run + [r];
    } else {
      more := IdleSignalStarts(run + [r]);
    }
  }

  /** From every reachable state in which a signal is up, some run leads to the start of a reload. */
  lemma SignalsCanStartReloads(run: seq<State>) returns (more: seq<State>)
    requires IsRun(run) && run[|run| - 1].signal
    ensures IsRun(more) && run < more && StartsBetween(more, |run| - 1, |more| - 1)
  {
    hide Step, Enabled, Init, Next;
    var idle := ReloadsCanFinish(run);
    var k, n := |run| - 1, |idle| - 1;
    if StartsBetween(idle, k, n) {
      more := idle;
    } else {
      SignalsAreServed(idle, k, n);
      more := IdleSignalStarts(idle);
      LeavingIdleStarts(more, n, |more| - 1);
    }
  }
}
