/** What each thread leaves alone, whatever step it takes. */
module ReloadFrames {
  import opened Basics
  import opened TaskLists
  import opened ReloadModel
  import opened ReloadInvariant
  import opened ReloadProofs
  import opened ReloadWorkViews

  // ---- the main thread -------------------------------------------------------------------------------

  /** The main thread leaves the other threads where they are. */
  ghost predicate ByMain(s: State, r: State) {
    && r.pipeline == s.pipeline && r.rpc == s.rpc && r.reloadTx == s.reloadTx && r.opc == s.opc
    && r.attempt.made == s.attempt.made && r.ring == s.ring
    && (s.signal ==> r.signal || (s.phase.Idle? && r.phase.AwaitingSurvivors?))
  }

  lemma SurvivorsHandled(s: State)
    requires Inv(s) && s.mpc.MHandle? && s.phase.AwaitingSurvivors?
    ensures ByMain(s, MainHandle(s))
  {
    hide Collected, Built, Undone, Failed, OnlyManaged, Committed, Reclaiming, FlightInv, Bounded, DrainInv, SurvivorsLive;
    assert !s.reloadMbox && !ReloadReads(s);
  }

  lemma NewTasksHandled(s: State)
    requires Inv(s) && s.mpc.MHandle? && s.phase.AwaitingNewTasks?
    ensures ByMain(s, MainHandle(s))
  {
    hide Collected, Built, Undone, Failed, OnlyManaged, Committed, Reclaiming, FlightInv, Bounded, DrainInv;
    assert !s.reloadMbox && !ReloadReads(s);
    assert s.mgr.tasks in s.heap.lists;
  }

  lemma ReclaimedHandled(s: State)
    requires Inv(s) && s.mpc.MHandle? && s.phase.AwaitingReclaim?
    ensures ByMain(s, MainHandle(s))
  {
    hide Collected, Built, Undone, Failed, OnlyManaged, Committed, Reclaiming, FlightInv, Bounded, DrainInv, SurvivorsLive;
  }

  lemma Handled(s: State)
    requires Inv(s) && s.mpc.MHandle?
    ensures ByMain(s, MainHandle(s))
  {
    hide PhaseInv, FlightInv, Bounded, DrainInv, MainHandle, ByMain;
    match s.phase {
      case AwaitingSurvivors => SurvivorsHandled(s);
      case AwaitingNewTasks => NewTasksHandled(s);
      case AwaitingReclaim => ReclaimedHandled(s);
      case Idle =>
    }
  }

  lemma Tried(s: State)
    requires TokenInv(s) && s.mpc.MTry?
    ensures ByMain(s, MainTry(s))
  {
    hide LiveList, ConfigAt, ErrorsAt;
    if s.phase.Idle? {
      assert !s.reloadMbox && !ReloadReads(s);
    }
  }

  lemma Polled(s: State)
    requires s.mpc.MPoll?
    ensures ByMain(s, PollNext(s))
  {
    hide LiveList;
  }

  lemma MainFrame(s: State, a: Action)
    requires Inv(s) && Enabled(s, a) && MainStep(a) && !a.APollDeliver?
    ensures ByMain(s, Step(s, a))
  {
    match a {
      case AMainHandle => Handled(s);
      case AMainTry => Tried(s);
      case APollNext => Polled(s);
      case _ =>
    }
    hide MainHandle, MainTry, PollNext, PhaseInv, FlightInv, Bounded, DrainInv, TokenInv;
  }

  // ---- the reload thread -----------------------------------------------------------------------------

  ghost predicate ByReload(s: State, r: State) {
    && r.pipeline == s.pipeline && r.phase == s.phase && r.mpc == s.mpc && r.signal == s.signal && r.mgr == s.mgr
    && r.ring == s.ring && r.opc == s.opc
  }

  lemma Dispatched(s: State, listOk: bool, errsOk: bool)
    requires Inv(s) && s.rpc.RDispatch?
    ensures ByReload(s, ReloadDispatch(s, listOk, errsOk))
  {
    hide IdleInv, PlanInv, BuildInv, ReclaimInv, Bounded, FlightInv, DrainInv, Find;
    match s.phase {
      case AwaitingSurvivors => PlanDispatched(ViewOf(s));
      case AwaitingNewTasks => BuildDispatched(ViewOf(s));
      case AwaitingReclaim => ReclaimDispatched(ViewOf(s), RDrainRequest);
      case Idle =>
    }
  }

  lemma ParsedFrame(s: State, parsed: Option<seq<Option<Fingerprint>>>, planOk: bool)
    requires s.rpc.RParse?
    ensures ByReload(s, ReloadParse(s, parsed, planOk))
  {
    hide AllFingerprinted;
  }

  lemma Collecting(s: State, ok: bool)
    requires Inv(s) && s.rpc.RCollect? && s.ctx.current.Some?
    ensures ByReload(s, CollectStep(s, ok))
  {
    hide IdleInv, PlanInv, BuildInv, ReclaimInv, Bounded, FlightInv, DrainInv, Find;
    CollectSteps(ViewOf(s));
  }

  lemma BuildStopping(s: State, created: bool, ok: bool)
    requires Inv(s) && s.rpc.RBuild? && s.ctx.current.Some? && s.ctx.newConfig.Some?
    requires s.rpc.i >= |s.attempt.fps| || !ok
    ensures ByReload(s, BuildStep(s, created, ok))
  {
    hide IdleInv, PlanInv, BuildInv, ReclaimInv, Bounded, FlightInv, DrainInv, Find;
    BuildReads(ViewOf(s));
  }

  lemma BuildKeeping(s: State, created: bool)
    requires Inv(s) && s.rpc.RBuild? && s.ctx.current.Some? && s.ctx.newConfig.Some? && s.rpc.i < |s.attempt.fps|
    requires s.attempt.fps[s.rpc.i].Some? && Find(s.attempt.fps[s.rpc.i], s.attempt.tasks).Some?
    ensures ByReload(s, BuildStep(s, created, true))
  {
    hide IdleInv, PlanInv, BuildInv, ReclaimInv, Bounded, FlightInv, DrainInv, Find;
    BuildReads(ViewOf(s));
  }

  lemma BuildMaking(s: State, created: bool)
    requires Inv(s) && s.rpc.RBuild? && s.ctx.current.Some? && s.ctx.newConfig.Some? && s.rpc.i < |s.attempt.fps|
    requires s.attempt.fps[s.rpc.i].Some? && Find(s.attempt.fps[s.rpc.i], s.attempt.tasks).None?
    ensures ByReload(s, BuildStep(s, created, true))
  {
    hide IdleInv, PlanInv, BuildInv, ReclaimInv, Bounded, FlightInv, DrainInv, Find;
    BuildReads(ViewOf(s));
  }

  lemma BuildingFrame(s: State, created: bool, ok: bool)
    requires Inv(s) && s.rpc.RBuild? && s.ctx.current.Some? && s.ctx.newConfig.Some?
    ensures ByReload(s, BuildStep(s, created, ok))
  {
    hide IdleInv, PlanInv, BuildInv, ReclaimInv, Bounded, FlightInv, DrainInv, Find, BuildStep, ByReload;
    BuildReads(ViewOf(s));
    if s.rpc.i >= |s.attempt.fps| || !ok {
      BuildStopping(s, created, ok);
    } else if Find(s.attempt.fps[s.rpc.i], s.attempt.tasks).Some? {
      BuildKeeping(s, created);
    } else {
      BuildMaking(s, created);
    }
  }

  lemma Undoing(s: State)
    requires Inv(s) && s.rpc.RUndo? && s.ctx.current.Some? && s.ctx.old_.Some?
    ensures ByReload(s, UndoStep(s))
  {
    hide IdleInv, PlanInv, BuildInv, ReclaimInv, Bounded, FlightInv, DrainInv, Find;
    UndoSteps(ViewOf(s));
  }

  lemma Reclaims(s: State)
    requires Inv(s) && s.rpc.RReclaim? && s.mainTx.ReqReclaim? && s.ctx.old_.Some?
    ensures ByReload(s, ReclaimStep(s))
  {
    hide IdleInv, PlanInv, BuildInv, ReclaimInv, Bounded, FlightInv, DrainInv, Find;
    ReclaimSteps(ViewOf(s));
  }

  lemma Written(s: State)
    requires s.rpc.RWrite?
    ensures ByReload(s, ReloadWrite(s))
  {
  }

  lemma Sent(s: State)
    requires s.rpc.RSend?
    ensures ByReload(s, ReloadSend(s))
  {
  }

  lemma FreeConfigOnlyFrees(s: State, id: nat)
    ensures var r := FreeConfig(s, id);
      && ByReload(s, r) && r.attempt == s.attempt && r.reloadTx == s.reloadTx
      && r.mainMbox == s.mainMbox && r.reloadMbox == s.reloadMbox && r.rpc == s.rpc
  {
  }

  lemma TidiedConfig(s: State)
    requires s.rpc == RTail(TFreeConfig) && s.ctx.newConfig.Some?
    ensures ByReload(s, ReloadTail(s)) && ReloadTail(s).attempt == s.attempt
  {
    FreeConfigOnlyFrees(s, s.ctx.newConfig.value);
    hide FreeConfig;
  }

  lemma Tidied(s: State)
    requires s.rpc.RTail? && (s.rpc.tail.TFreeConfig? ==> s.ctx.newConfig.Some?)
    ensures ByReload(s, ReloadTail(s)) && ReloadTail(s).attempt == s.attempt
  {
    match s.rpc.tail {
      case TFreeConfig =>
        hide ReloadTail, ByReload;
        TidiedConfig(s);
      case TReset => assert ReloadTail(s) == s.(ctx := s.ctx.(current := None, old_ := None), rpc := RIdle);
      case TDropConfig => assert ReloadTail(s) == s.(ctx := s.ctx.(newConfig := None), rpc := RIdle);
      case TNone => assert ReloadTail(s) == s.(rpc := RIdle);
    }
    hide ReloadTail;
  }

  lemma ReloadFrame(s: State, a: Action)
    requires Inv(s) && Enabled(s, a) && (PlanStep(a) || WorkStep(a))
    ensures ByReload(s, Step(s, a))
  {
    hide ReloadDispatch, ReloadParse, CollectStep, BuildStep, UndoStep, ReclaimStep, ReloadWrite, ReloadSend, ReloadTail;
    hide PhaseInv, FlightInv, Bounded, DrainInv, TokenInv;
    match a {
      case AReloadDispatch(listOk, errsOk) => Dispatched(s, listOk, errsOk);
      case AReloadParse(parsed, planOk) => ParsedFrame(s, parsed, planOk);
      case ACollect(ok) => Collecting(s, ok);
      case ABuild(created, ok) => BuildingFrame(s, created, ok);
      case AUndo => Undoing(s);
      case AReclaim => Reclaims(s);
      case AReloadWrite => Written(s);
      case AReloadSend => Sent(s);
      case AReloadTail => Tidied(s);
      case _ =>
    }
  }
}
