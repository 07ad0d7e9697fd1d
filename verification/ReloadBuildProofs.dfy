/** The steps of the reload thread that build, undo, drain and reclaim keep the invariant. */
module ReloadBuildProofs {
  import opened Basics
  import opened TaskLists
  import opened ReloadModel
  import opened ReloadInvariant
  import opened ReloadHeapProofs
  import opened ReloadWorkViews

  /** The build is complete, or its next wrapper or error record could not be allocated. */
  lemma BuildStopsInv(s: State, created: bool, ok: bool)
    requires Inv(s) && s.rpc.RBuild? && s.ctx.current.Some? && s.ctx.newConfig.Some?
    requires s.rpc.i >= |s.attempt.fps| || !ok
    ensures var r := BuildStep(s, created, ok); Inv(r) && Quiet(s, r.(heap := s.heap))
  {
    hide IdleInv, PlanInv, BuildInv, ReclaimInv, Bounded, InFlight, TaskIds, CleanFrom, Reads;
    var v := ViewOf(s);
    BuildReads(v);
    if s.rpc.i == |s.attempt.fps| {
      BuildFinishes(v);
    } else {
      BuildGivesUp(v);
    }
  }

  /** The next entry reuses a capture task, gets a new one, or is recorded as failed. */
  lemma BuildGoesOnInv(s: State, created: bool, ok: bool)
    requires Inv(s) && s.rpc.RBuild? && s.ctx.current.Some? && s.ctx.newConfig.Some?
    requires s.rpc.i < |s.attempt.fps| && ok
    ensures var r := BuildStep(s, created, ok); Inv(r) && Quiet(s, r.(heap := s.heap))
  {
    hide IdleInv, PlanInv, BuildInv, ReclaimInv, Bounded, InFlight, TaskIds, CleanFrom, Reads;
    var v := ViewOf(s);
    var i, fps := s.rpc.i, s.attempt.fps;
    BuildReads(v);
    match Find(fps[i], s.attempt.tasks) {
      case Some(w) => BuildReuses(v, w);
      case None =>
        if created {
          BuildAdds(v);
        } else {
          BuildRecords(v);
        }
    }
  }

  lemma BuildStepInv(s: State, created: bool, ok: bool)
    requires Inv(s) && s.rpc.RBuild? && s.ctx.current.Some? && s.ctx.newConfig.Some?
    ensures var r := BuildStep(s, created, ok); Inv(r) && Quiet(s, r.(heap := s.heap))
  {
    hide Inv, BuildStep, Quiet;
    if s.rpc.i < |s.attempt.fps| && ok {
      BuildGoesOnInv(s, created, ok);
    } else {
      BuildStopsInv(s, created, ok);
    }
  }

  lemma UndoInv(s: State)
    requires Inv(s) && s.rpc.RUndo? && s.ctx.current.Some? && s.ctx.old_.Some?
    ensures var r := UndoStep(s); Inv(r) && Quiet(s, r)
  {
    hide IdleInv, PlanInv, BuildInv, ReclaimInv, Bounded, InFlight, TaskIds, CleanFrom;
    UndoSteps(ViewOf(s));
  }

  lemma DrainRequestInv(s: State)
    requires Inv(s) && s.rpc.RDrainRequest?
    ensures var r := DrainRequest(s); Inv(r) && Quiet(s, r)
  {
    hide IdleInv, PlanInv, BuildInv, ReclaimInv, Bounded, InFlight, TaskIds, CleanFrom;
    ReclaimDispatched(ViewOf(s), RDrainWait);
  }

  lemma DrainWaitInv(s: State)
    requires Inv(s) && s.rpc.RDrainWait?
    ensures var r := DrainWait(s); Inv(r) && Quiet(s, r)
  {
    hide IdleInv, PlanInv, BuildInv, ReclaimInv, Bounded, InFlight, TaskIds, CleanFrom;
    ReclaimDispatched(ViewOf(s), RDrainSeen);
  }

  lemma DrainSeenInv(s: State)
    requires Inv(s) && s.rpc.RDrainSeen?
    ensures var r := DrainSeen(s); Inv(r) && Quiet(s, r)
  {
    hide IdleInv, PlanInv, BuildInv, ReclaimInv, Bounded, InFlight, TaskIds, CleanFrom;
    ReclaimDispatched(ViewOf(s), RReclaim(0));
  }

  lemma ReclaimStepInv(s: State)
    requires Inv(s) && s.rpc.RReclaim? && s.mainTx.ReqReclaim? && s.ctx.old_.Some?
    ensures var r := ReclaimStep(s); Inv(r) && Quiet(s, r)
  {
    hide IdleInv, PlanInv, BuildInv, ReclaimInv, Bounded, InFlight, TaskIds, CleanFrom;
    ReclaimSteps(ViewOf(s));
  }
}
