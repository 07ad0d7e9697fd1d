/** The steps of the reload thread that receive, plan and report keep the invariant. */
module ReloadPlanProofs {
  import opened Basics
  import opened TaskLists
  import opened ReloadModel
  import opened ReloadInvariant
  import opened ReloadHeapProofs
  import opened ReloadViewProofs
  import opened ReloadWorkViews

  lemma ReloadReceiveInv(s: State)
    requires Inv(s) && s.rpc.RIdle?
    ensures var r := ReloadReceive(s); Inv(r) && Quiet(s, r)
  {
    hide PhaseInv, Bounded, InFlight, TaskIds, CleanFrom;
    if s.reloadMbox {
      ReloadReceives(s.phase, ViewOf(s));
    }
  }

  lemma ReloadDispatchInv(s: State, listOk: bool, errsOk: bool)
    requires Inv(s) && s.rpc.RDispatch?
    ensures var r := ReloadDispatch(s, listOk, errsOk); Inv(r) && Quiet(s, r)
  {
    match s.phase {
      case Idle =>
      case AwaitingSurvivors => DispatchPlanInv(s, listOk, errsOk);
      case AwaitingNewTasks => DispatchBuildInv(s, listOk, errsOk);
      case AwaitingReclaim => DispatchReclaimInv(s, listOk, errsOk);
    }
  }

  lemma DispatchPlanInv(s: State, listOk: bool, errsOk: bool)
    requires Inv(s) && s.rpc.RDispatch? && s.phase.AwaitingSurvivors?
    ensures var r := ReloadDispatch(s, listOk, errsOk); Inv(r) && Quiet(s, r)
  {
    hide IdleInv, PlanInv, BuildInv, ReclaimInv, Bounded, InFlight, TaskIds, CleanFrom;
    PlanDispatched(ViewOf(s));
  }

  lemma DispatchBuildInv(s: State, listOk: bool, errsOk: bool)
    requires Inv(s) && s.rpc.RDispatch? && s.phase.AwaitingNewTasks?
    ensures var r := ReloadDispatch(s, listOk, errsOk); Inv(r) && Quiet(s, r)
  {
    hide IdleInv, PlanInv, BuildInv, ReclaimInv, Bounded, InFlight, TaskIds, CleanFrom;
    BuildDispatched(ViewOf(s));
  }

  lemma DispatchReclaimInv(s: State, listOk: bool, errsOk: bool)
    requires Inv(s) && s.rpc.RDispatch? && s.phase.AwaitingReclaim?
    ensures var r := ReloadDispatch(s, listOk, errsOk); Inv(r) && Quiet(s, r)
  {
    hide IdleInv, PlanInv, BuildInv, ReclaimInv, Bounded, TaskIds, CleanFrom;
    ReclaimDispatched(ViewOf(s), if s.pipeline then RDrainRequest else RReclaim(0));
  }

  lemma ReloadParseInv(s: State, parsed: Option<seq<Option<Fingerprint>>>, listOk: bool)
    requires Inv(s) && s.rpc.RParse? && (parsed.Some? ==> UniqueConfig(parsed.value))
    ensures var r := ReloadParse(s, parsed, listOk); Inv(r) && Quiet(s, r)
  {
    hide IdleInv, PlanInv, BuildInv, ReclaimInv, Bounded, InFlight, TaskIds, CleanFrom;
    Parsed(ViewOf(s), if parsed.Some? then parsed.value else []);
  }

  lemma CollectInv(s: State, ok: bool)
    requires Inv(s) && s.rpc.RCollect? && s.ctx.current.Some?
    ensures var r := CollectStep(s, ok); Inv(r) && Quiet(s, r)
  {
    hide IdleInv, PlanInv, BuildInv, ReclaimInv, Bounded, InFlight, TaskIds, CleanFrom;
    CollectSteps(ViewOf(s));
  }

  lemma ReloadWriteInv(s: State)
    requires Inv(s) && s.rpc.RWrite?
    ensures var r := ReloadWrite(s); Inv(r) && Quiet(s, r)
  {
    hide PhaseInv, Bounded, InFlight, TaskIds, CleanFrom;
    ReloadWrites(s.phase, ViewOf(s));
  }

  lemma ReloadSendInv(s: State)
    requires Inv(s) && s.rpc.RSend?
    ensures var r := ReloadSend(s); Inv(r) && Quiet(s, r)
  {
    hide PhaseInv, Bounded, InFlight, TaskIds, CleanFrom;
    ReloadSends(s.phase, ViewOf(s));
  }

  /** The reload thread tidies up after a report, while the main thread may already have gone on. */
  lemma ReloadTailInv(s: State)
    requires Inv(s) && s.rpc.RTail? && (s.rpc.tail.TFreeConfig? ==> s.ctx.newConfig.Some?)
    ensures var r := ReloadTail(s); Inv(r) && Quiet(s, r)
  {
    hide PhaseInv, Bounded, InFlight, TaskIds, CleanFrom;
    TailIsReal(s.phase, ViewOf(s));
    match s.rpc.tail {
      case TReset => TailResets(s.phase, ViewOf(s));
      case TFreeConfig => TailFrees(s.phase, ViewOf(s));
      case TDropConfig => TailDrops(s.phase, ViewOf(s));
      case TNone =>
    }
  }
}
