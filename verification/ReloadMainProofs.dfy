/** The steps of the main thread keep the invariant of the reload protocol. */
module ReloadMainProofs {
  import opened Basics
  import opened TaskLists
  import opened ReloadModel
  import opened ReloadInvariant
  import opened ReloadHeapProofs
  import opened ReloadViewProofs

  lemma InitInv(s: State)
    requires Init(s)
    ensures Inv(s)
  {
  }

  /** The live list exists and its capture tasks are alive, in every phase. */
  lemma PolledTasksLive(s: State)
    requires Inv(s)
    ensures s.mgr.tasks in s.heap.lists && TaskIds(LiveList(s)) <= s.heap.live
  {
    hide Bounded, FlightInv, Built, Undone, Failed, Collected;
    if s.phase.AwaitingReclaim? && !PlaceOf(s).InMainMbox? && !PlaceOf(s).AtMain? && !s.rpc.RWrite? && !s.rpc.RSend? {
      ReclaimingFacts(s.heap, s.mgr, s.attempt, ReclaimedNodes(s.rpc));
    }
  }

  /** No message in flight points at a destroyed capture task. */
  lemma FlightIsLive(s: State)
    requires Inv(s)
    ensures InFlight(s.ring, s.opc) <= s.heap.live
  {
    PolledTasksLive(s);
    hide Bounded, InFlight, CleanFrom, Built, Undone, Failed, Collected, Reclaiming, OnlyManaged;
    match s.phase {
      case Idle => ManagedFacts(s.heap, s.mgr, TailConfig(s.rpc, s.ctx));
      case AwaitingReclaim =>
        if !Drained(PlaceOf(s), s.rpc, s.opc, s.drainResponse) {
          ReclaimingFacts(s.heap, s.mgr, s.attempt, 0);
        }
      case _ =>
    }
  }

  // ---- the main thread ---------------------------------------------------------------------------

  lemma SignalInv(s: State)
    requires Inv(s)
    ensures var r := s.(signal := true); Inv(r) && Quiet(s, r)
  {
    hide PhaseInv, FlightInv, Bounded;
    assert ViewOf(s.(signal := true)) == ViewOf(s);
  }

  /** The main thread moves between points where it holds no message. */
  lemma MainMovesInv(s: State, pc: MainPc)
    requires Inv(s) && MainFree(s.mpc) && MainFree(pc)
    ensures var r := s.(mpc := pc); Inv(r) && Quiet(s, r)
  {
    hide PhaseInv, FlightInv, Bounded;
    assert ViewOf(s.(mpc := pc)) == ViewOf(s);
  }

  lemma PollDeliverInv(s: State)
    requires Inv(s) && s.mpc.MPoll? && s.mpc.k < |LiveList(s)|
    ensures var r := PollDeliver(s); Inv(r) && Quiet(s, r)
  {
    PolledTasksLive(s);
    var t, s' := LiveList(s)[s.mpc.k].task, PollDeliver(s);
    assert t in TaskIds(LiveList(s));
    assert s.phase.AwaitingNewTasks? || s.phase.AwaitingSurvivors? ==> t in TaskIds(s.attempt.tasks);
    hide PhaseInv, Bounded;
    assert ViewOf(s') == ViewOf(s);
    PushedInFlight(s.ring, t, s.opc);
  }

  lemma PollNextInv(s: State)
    requires Inv(s) && s.mpc.MPoll?
    ensures var r := PollNext(s); Inv(r) && Quiet(s, r)
  {
    PolledTasksLive(s);
    hide Inv;
    var pc := if s.mpc.k < |LiveList(s)| then MPoll(s.mpc.k + 1) else MLoop;
    assert PollNext(s) == s.(mpc := pc);
    MainMovesInv(s, pc);
  }

  lemma MainReceiveInv(s: State)
    requires Inv(s) && s.mpc.MLoop?
    ensures var r := MainReceive(s); Inv(r) && Quiet(s, r)
  {
    if s.mainMbox {
      hide PhaseInv, Bounded, InFlight, TaskIds, CleanFrom;
      MainReceives(s.phase, ViewOf(s));
    } else {
      MainMovesInv(s, MTry);
    }
  }

  lemma MainTryInv(s: State)
    requires Inv(s) && s.mpc.MTry?
    ensures var r := MainTry(s); Inv(r) && (Quiet(s, r) || (Starts(s, r) && s.phase.Idle?))
  {
    if s.phase.Idle? && s.signal {
      hide IdleInv, PlanInv, BuildInv, ReclaimInv, Bounded, InFlight, TaskIds, CleanFrom;
      ReloadStarts(ViewOf(s));
    } else {
      MainMovesInv(s, MLoop);
    }
  }

  lemma MainSendInv(s: State)
    requires Inv(s) && s.mpc.MSend?
    ensures var r := MainSend(s); Inv(r) && Quiet(s, r)
  {
    hide PhaseInv, Bounded, InFlight, TaskIds, CleanFrom;
    MainSends(s.phase, ViewOf(s));
  }

  lemma MainHandleInv(s: State)
    requires Inv(s) && s.mpc.MHandle?
    ensures var r := MainHandle(s); Inv(r) && Quiet(s, r)
  {
    match s.phase {
      case Idle =>
      case AwaitingSurvivors => HandleSurvivorsInv(s);
      case AwaitingNewTasks => HandleNewTasksInv(s);
      case AwaitingReclaim => HandleReclaimedInv(s);
    }
  }

  lemma HandleSurvivorsInv(s: State)
    requires Inv(s) && s.mpc.MHandle? && s.phase.AwaitingSurvivors?
    ensures var r := MainHandle(s); Inv(r) && Quiet(s, r)
  {
    assert LiveList(s) == s.attempt.tasks;
    hide IdleInv, PlanInv, BuildInv, ReclaimInv, Bounded, InFlight, TaskIds, CleanFrom;
    SurvivorsArrive(ViewOf(s));
  }

  lemma HandleNewTasksInv(s: State)
    requires Inv(s) && s.mpc.MHandle? && s.phase.AwaitingNewTasks?
    ensures var r := MainHandle(s); Inv(r) && Quiet(s, r)
  {
    hide IdleInv, PlanInv, BuildInv, ReclaimInv, Bounded, InFlight, CleanFrom;
    NewTasksArrive(ViewOf(s));
  }

  lemma HandleReclaimedInv(s: State)
    requires Inv(s) && s.mpc.MHandle? && s.phase.AwaitingReclaim?
    ensures var r := MainHandle(s); Inv(r) && Quiet(s, r)
  {
    hide IdleInv, PlanInv, BuildInv, ReclaimInv, Bounded, InFlight, TaskIds, CleanFrom;
    ReclaimedArrives(ViewOf(s));
  }
}
