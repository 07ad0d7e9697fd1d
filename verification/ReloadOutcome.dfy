/**
  When a reload takes over. An outcome that stops it is a configuration that cannot be read or that leaves a
  fingerprint out, or an allocation that fails; without one every reload takes over, and with one none does.
 */
module ReloadOutcome {
  import opened Basics
  import opened TaskLists
  import opened ReloadModel
  import opened ReloadInvariant
  import opened ReloadWorkViews
  import opened ReloadFrames

  /** The action reports no bad outcome. */
  predicate Favourable(a: Action) {
    match a
    case AReloadParse(parsed, planOk) => parsed.Some? && AllFingerprinted(parsed.value) && planOk
    case AReloadDispatch(listOk, errsOk) => listOk && errsOk
    case ACollect(ok) => ok
    case ABuild(_, nodeOk) => nodeOk
    case _ => true
  }

  /** The action reports an outcome that stops the reload where it stands. */
  ghost predicate Stops(s: State, a: Action) {
    match a
    case AReloadParse(_, _) => !Favourable(a)
    case AReloadDispatch(_, _) => s.mainTx.ReqBuild? && !Favourable(a)
    case ACollect(ok) =>
      && !ok && s.rpc.RCollect? && s.rpc.i < |s.attempt.fps| && s.attempt.fps[s.rpc.i].Some?
      && Find(s.attempt.fps[s.rpc.i], s.attempt.tasks).Some?
    case ABuild(_, ok) => !ok && s.rpc.RBuild? && s.rpc.i < |s.attempt.fps|
    case _ => false
  }

  ghost predicate Pending(p: Phase) { p.AwaitingSurvivors? || p.AwaitingNewTasks? }

  /** An error is being undone or reported. */
  ghost predicate Failing(s: State) {
    || s.rpc.RUndo?
    || (s.rpc.RWrite? && s.rpc.msg.RptError?)
    || ((s.rpc.RSend? || s.mainMbox || s.mpc.MHandle?) && s.reloadTx.RptError?)
  }

  /** What a step means for the outcome. */
  ghost predicate Decides(s: State, a: Action, r: State) {
    if Failing(s) then r.phase.Idle? || (Failing(r) && r.phase == s.phase)
    else
      && !r.phase.Idle? && (!a.AMainHandle? ==> r.phase == s.phase)
      && (r.phase.AwaitingReclaim? ==> !Stops(s, a)) && (Pending(r.phase) ==> (Failing(r) <==> Stops(s, a)))
  }

  /** The main thread is at a place from which it neither sends nor handles, before and after. */
  ghost predicate OnlyPolls(s: State, r: State) {
    && r.phase == s.phase && r.rpc == s.rpc && r.mainMbox == s.mainMbox && r.reloadTx == s.reloadTx
    && (r.mpc.MHandle? <==> s.mpc.MHandle?) && r.attempt == s.attempt && (s.signal ==> r.signal)
  }

  lemma PollingDecides(s: State, a: Action, r: State)
    requires Pending(s.phase) && OnlyPolls(s, r) && !Stops(s, a)
    ensures Decides(s, a, r)
  {
    hide Stops;
  }

  lemma DeliverOnlyPolls(s: State)
    requires s.mpc.MPoll? && s.mpc.k < |LiveList(s)|
    ensures OnlyPolls(s, PollDeliver(s))
  {
    hide LiveList;
  }

  lemma PollsOnlyPoll(s: State, a: Action)
    requires !s.phase.Idle? && Enabled(s, a)
    requires a.Signal? || a.APollStart? || a.APollDeliver? || a.APollNext? || a.AMainTry? || a.AMainSend?
    ensures OnlyPolls(s, Step(s, a))
  {
    if a.APollDeliver? {
      DeliverOnlyPolls(s);
    }
    hide PollDeliver, LiveList;
  }

  lemma MainReceiveDecides(s: State)
    requires Pending(s.phase) && s.mpc.MLoop?
    ensures Decides(s, AMainReceive, MainReceive(s))
  {
  }

  lemma HandleDecides(s: State)
    requires Inv(s) && Pending(s.phase) && s.mpc.MHandle?
    ensures Decides(s, AMainHandle, MainHandle(s))
  {
    hide Collected, Built, Undone, Failed, OnlyManaged, FlightInv, Bounded, DrainInv, SurvivorsLive;
  }

  lemma ReceiveDecides(s: State)
    requires TokenInv(s) && Pending(s.phase) && s.rpc.RIdle?
    ensures Decides(s, AReloadReceive, ReloadReceive(s))
  {
  }

  lemma WriteDecides(s: State)
    requires TokenInv(s) && Pending(s.phase) && s.rpc.RWrite?
    ensures Decides(s, AReloadWrite, ReloadWrite(s))
  {
  }

  lemma SendDecides(s: State)
    requires TokenInv(s) && Pending(s.phase) && s.rpc.RSend?
    ensures Decides(s, AReloadSend, ReloadSend(s))
  {
  }

  /** Nothing is under way at a reload thread that has passed the message on. */
  lemma RestingDecides(s: State, r: State)
    requires Pending(s.phase) && s.rpc.RTail? && r.rpc.RIdle?
    requires r.phase == s.phase && r.mainMbox == s.mainMbox && r.reloadTx == s.reloadTx && r.mpc == s.mpc
    ensures Decides(s, AReloadTail, r)
  {
  }

  lemma TailDecides(s: State)
    requires TokenInv(s) && Pending(s.phase) && s.rpc.RTail? && (s.rpc.tail.TFreeConfig? ==> s.ctx.newConfig.Some?)
    ensures Decides(s, AReloadTail, ReloadTail(s))
  {
    hide FreeConfig, Decides;
    if s.rpc.tail.TFreeConfig? {
      FreeConfigOnlyFrees(s, s.ctx.newConfig.value);
    }
    RestingDecides(s, ReloadTail(s));
  }

  lemma DispatchDecides(s: State, listOk: bool, errsOk: bool)
    requires Inv(s) && Pending(s.phase) && s.rpc.RDispatch?
    ensures Decides(s, AReloadDispatch(listOk, errsOk), ReloadDispatch(s, listOk, errsOk))
  {
    hide IdleInv, PlanInv, BuildInv, ReclaimInv, Bounded, FlightInv, DrainInv;
    if s.phase.AwaitingSurvivors? {
      PlanDispatched(ViewOf(s));
    } else {
      BuildDispatched(ViewOf(s));
    }
  }

  lemma ParseDecides(s: State, parsed: Option<seq<Option<Fingerprint>>>, planOk: bool)
    requires TokenInv(s) && Pending(s.phase) && s.rpc.RParse?
    ensures Decides(s, AReloadParse(parsed, planOk), ReloadParse(s, parsed, planOk))
  {
    hide AllFingerprinted;
  }

  lemma CollectDecides(s: State, ok: bool)
    requires Inv(s) && Pending(s.phase) && s.rpc.RCollect? && s.ctx.current.Some?
    ensures Decides(s, ACollect(ok), CollectStep(s, ok))
  {
    hide IdleInv, PlanInv, BuildInv, ReclaimInv, Bounded, FlightInv, DrainInv;
    CollectSteps(ViewOf(s));
  }

  /** One iteration of building goes on, ends, or starts to undo what was built. */
  ghost predicate BuildsOrStops(s: State, ok: bool, r: State) {
    && r.phase == s.phase && r.mpc == s.mpc && r.mainMbox == s.mainMbox && r.reloadTx == s.reloadTx && s.rpc.RBuild?
    && if s.rpc.i >= |s.attempt.fps| then r.rpc.RWrite? && !r.rpc.msg.RptError?
       else if ok then r.rpc.RBuild?
       else r.rpc.RUndo?
  }

  lemma BuildEnds(s: State, created: bool, ok: bool)
    requires Inv(s) && s.rpc.RBuild? && s.ctx.current.Some? && s.ctx.newConfig.Some? && s.rpc.i >= |s.attempt.fps|
    ensures BuildsOrStops(s, ok, BuildStep(s, created, ok)) && BuildStep(s, created, ok).attempt == s.attempt
  {
    hide IdleInv, PlanInv, BuildInv, ReclaimInv, Bounded, FlightInv, DrainInv, Find;
    BuildReads(ViewOf(s));
  }

  lemma BuildIsGivenUp(s: State, created: bool)
    requires Inv(s) && s.rpc.RBuild? && s.ctx.current.Some? && s.ctx.newConfig.Some? && s.rpc.i < |s.attempt.fps|
    ensures BuildsOrStops(s, false, BuildStep(s, created, false))
  {
    hide IdleInv, PlanInv, BuildInv, ReclaimInv, Bounded, FlightInv, DrainInv, Find;
    BuildReads(ViewOf(s));
  }

  /** The outcome of creating a capture task goes on record exactly where one is needed. */
  lemma EntryIsKept(s: State, created: bool)
    requires Inv(s) && s.rpc.RBuild? && s.ctx.current.Some? && s.ctx.newConfig.Some? && s.rpc.i < |s.attempt.fps|
    requires s.attempt.fps[s.rpc.i].Some? && Find(s.attempt.fps[s.rpc.i], s.attempt.tasks).Some?
    ensures var r := BuildStep(s, created, true);
      BuildsOrStops(s, true, r) && r.attempt.made == s.attempt.made + [None] && r.rpc.i == s.rpc.i + 1
  {
    hide IdleInv, PlanInv, BuildInv, ReclaimInv, Bounded, FlightInv, DrainInv, Find;
    BuildReads(ViewOf(s));
  }

  lemma EntryIsMade(s: State, created: bool)
    requires Inv(s) && s.rpc.RBuild? && s.ctx.current.Some? && s.ctx.newConfig.Some? && s.rpc.i < |s.attempt.fps|
    requires s.attempt.fps[s.rpc.i].Some? && Find(s.attempt.fps[s.rpc.i], s.attempt.tasks).None?
    ensures var r := BuildStep(s, created, true);
      && BuildsOrStops(s, true, r) && r.rpc.i == s.rpc.i + 1
      && r.attempt.made == s.attempt.made + [if created then Some(s.heap.next) else None]
  {
    hide IdleInv, PlanInv, BuildInv, ReclaimInv, Bounded, FlightInv, DrainInv, Find;
    BuildReads(ViewOf(s));
  }

  lemma BuildEntry(s: State, created: bool)
    requires Inv(s) && s.rpc.RBuild? && s.ctx.current.Some? && s.ctx.newConfig.Some? && s.rpc.i < |s.attempt.fps|
    ensures s.attempt.fps[s.rpc.i].Some?
    ensures var r, i := BuildStep(s, created, true), s.rpc.i;
      && BuildsOrStops(s, true, r) && r.rpc.i == i + 1 && |r.attempt.made| == |s.attempt.made| + 1
      && r.attempt.made[..|s.attempt.made|] == s.attempt.made
      && (r.attempt.made[|s.attempt.made|].Some? <==> created && Find(s.attempt.fps[i], s.attempt.tasks).None?)
  {
    hide IdleInv, PlanInv, BuildInv, ReclaimInv, Bounded, FlightInv, DrainInv, Find, BuildStep, BuildsOrStops;
    BuildReads(ViewOf(s));
    if Find(s.attempt.fps[s.rpc.i], s.attempt.tasks).Some? {
      EntryIsKept(s, created);
    } else {
      EntryIsMade(s, created);
    }
  }

  lemma BuildingMoves(s: State, created: bool, ok: bool)
    requires Inv(s) && s.rpc.RBuild? && s.ctx.current.Some? && s.ctx.newConfig.Some?
    ensures BuildsOrStops(s, ok, BuildStep(s, created, ok))
  {
    hide Inv, BuildStep, BuildsOrStops;
    if s.rpc.i >= |s.attempt.fps| {
      BuildEnds(s, created, ok);
    } else if !ok {
      BuildIsGivenUp(s, created);
    } else {
      BuildEntry(s, created);
    }
  }

  lemma BuildDecides(s: State, created: bool, ok: bool)
    requires Inv(s) && Pending(s.phase) && s.rpc.RBuild? && s.ctx.current.Some? && s.ctx.newConfig.Some?
    ensures Decides(s, ABuild(created, ok), BuildStep(s, created, ok))
  {
    hide PhaseInv, Bounded, FlightInv, DrainInv, BuildStep;
    BuildingMoves(s, created, ok);
  }

  lemma UndoDecides(s: State)
    requires Inv(s) && Pending(s.phase) && s.rpc.RUndo? && s.ctx.current.Some? && s.ctx.old_.Some?
    ensures Decides(s, AUndo, UndoStep(s))
  {
    hide IdleInv, PlanInv, BuildInv, ReclaimInv, Bounded, FlightInv, DrainInv;
    UndoSteps(ViewOf(s));
  }

  lemma HandleOnlyPolls(s: State)
    requires s.opc.OHandle?
    ensures OnlyPolls(s, OutHandle(s))
  {
  }

  lemma DrainOnlyPolls(s: State)
    requires s.opc.ODrain?
    ensures OnlyPolls(s, OutDrain(s))
  {
    if s.opc.left == 0 || s.ring == [] {
      assert OutDrain(s) == s.(opc := OClear);
    } else {
      var pc, ring := OHandle(s.ring[0], Some(s.opc.left - 1)), s.ring[1..];
      assert OutDrain(s) == s.(opc := pc, ring := ring);
    }
    hide OutDrain;
  }

  lemma OutputOnlyPolls(s: State, a: Action)
    requires Enabled(s, a)
    requires a.AOutTop? || a.AOutUsed? || a.AOutDrain? || a.AOutHandle? || a.AOutClear? || a.AOutRespond? || a.AOutPop?
    ensures OnlyPolls(s, Step(s, a))
  {
    if a.AOutHandle? {
      HandleOnlyPolls(s);
    } else if a.AOutDrain? {
      DrainOnlyPolls(s);
    }
    hide OutHandle, OutDrain;
  }

  /** Every step before the new list takes over leaves the reload alone, stops it, or brings a failed one to its end. */
  lemma StepDecides(s: State, a: Action)
    requires Inv(s) && Pending(s.phase) && Enabled(s, a)
    ensures Decides(s, a, Step(s, a))
  {
    hide PhaseInv, FlightInv, Bounded, DrainInv, Decides, OnlyPolls;
    hide MainHandle, MainReceive, ReloadReceive, ReloadWrite, ReloadSend, ReloadTail, ReloadDispatch, ReloadParse;
    hide CollectStep, BuildStep, UndoStep, PollDeliver, PollNext, MainTry, MainSend, OutHandle, OutPop, OutDrain;
    match a {
      case AMainHandle => HandleDecides(s);
      case AMainReceive => MainReceiveDecides(s);
      case AReloadReceive => ReceiveDecides(s);
      case AReloadWrite => WriteDecides(s);
      case AReloadSend => SendDecides(s);
      case AReloadTail => TailDecides(s);
      case AReloadDispatch(listOk, errsOk) => DispatchDecides(s, listOk, errsOk);
      case AReloadParse(parsed, planOk) => ParseDecides(s, parsed, planOk);
      case ACollect(ok) => CollectDecides(s, ok);
      case ABuild(created, ok) => BuildDecides(s, created, ok);
      case AUndo => UndoDecides(s);
      case Signal | APollStart | APollDeliver | APollNext | AMainTry | AMainSend =>
        PollsOnlyPoll(s, a);
        PollingDecides(s, a, Step(s, a));
      case AOutTop | AOutUsed | AOutDrain | AOutHandle | AOutClear | AOutRespond | AOutPop =>
        OutputOnlyPolls(s, a);
        PollingDecides(s, a, Step(s, a));
      case _ =>
    }
  }
}
