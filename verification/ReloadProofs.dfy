/** Every step of every thread keeps the invariant of the reload protocol. */
module ReloadProofs {
  import opened Basics
  import opened TaskLists
  import opened ReloadModel
  import opened ReloadInvariant
  import opened ReloadMainProofs
  import opened ReloadPlanProofs
  import opened ReloadBuildProofs
  import opened ReloadOutputProofs

  /** What a step leaves on record: it is quiet, starts a reload, or adds one build result. */
  ghost predicate Leaves(s: State, r: State) {
    Quiet(s, r) || (Starts(s, r) && s.phase.Idle?) || (s.rpc.RBuild? && Quiet(s, r.(heap := s.heap)))
  }

  predicate MainStep(a: Action) {
    a.Signal? || a.APollStart? || a.APollDeliver? || a.APollNext? || a.AMainReceive? || a.AMainHandle? || a.AMainTry? || a.AMainSend?
  }

  lemma MainStepInv(s: State, a: Action)
    requires Inv(s) && Enabled(s, a) && MainStep(a)
    ensures Inv(Step(s, a)) && Leaves(s, Step(s, a))
  {
    hide Inv, Quiet, Starts;
    match a {
      case Signal => SignalInv(s);
      case APollStart => MainMovesInv(s, MPoll(0));
      case APollDeliver => PollDeliverInv(s);
      case APollNext => PollNextInv(s);
      case AMainReceive => MainReceiveInv(s);
      case AMainHandle => MainHandleInv(s);
      case AMainTry => MainTryInv(s);
      case AMainSend => MainSendInv(s);
    }
  }

  predicate PlanStep(a: Action) {
    a.AReloadReceive? || a.AReloadDispatch? || a.AReloadParse? || a.ACollect? || a.AReloadWrite? || a.AReloadSend? || a.AReloadTail?
  }

  lemma PlanStepInv(s: State, a: Action)
    requires Inv(s) && Enabled(s, a) && PlanStep(a)
    ensures Inv(Step(s, a)) && Leaves(s, Step(s, a))
  {
    hide Inv, Quiet, Starts;
    match a {
      case AReloadReceive => ReloadReceiveInv(s);
      case AReloadDispatch(listOk, errsOk) => ReloadDispatchInv(s, listOk, errsOk);
      case AReloadParse(parsed, planOk) => ReloadParseInv(s, parsed, planOk);
      case ACollect(ok) => CollectInv(s, ok);
      case AReloadWrite => ReloadWriteInv(s);
      case AReloadSend => ReloadSendInv(s);
      case AReloadTail => ReloadTailInv(s);
    }
  }

  predicate WorkStep(a: Action) {
    a.ABuild? || a.AUndo? || a.ADrainRequest? || a.ADrainWait? || a.ADrainSeen? || a.AReclaim?
  }

  lemma WorkStepInv(s: State, a: Action)
    requires Inv(s) && Enabled(s, a) && WorkStep(a)
    ensures Inv(Step(s, a)) && Leaves(s, Step(s, a))
  {
    hide Inv, Quiet, Starts;
    match a {
      case ABuild(created, nodeOk) => BuildStepInv(s, created, nodeOk);
      case AUndo => UndoInv(s);
      case ADrainRequest => DrainRequestInv(s);
      case ADrainWait => DrainWaitInv(s);
      case ADrainSeen => DrainSeenInv(s);
      case AReclaim => ReclaimStepInv(s);
    }
  }

  predicate OutputStep(a: Action) {
    a.AOutTop? || a.AOutUsed? || a.AOutDrain? || a.AOutHandle? || a.AOutClear? || a.AOutRespond? || a.AOutPop?
  }

  lemma OutputStepInv(s: State, a: Action)
    requires Inv(s) && Enabled(s, a) && OutputStep(a)
    ensures Inv(Step(s, a)) && Leaves(s, Step(s, a))
  {
    hide Inv, Quiet, Starts;
    match a {
      case AOutTop => OutTopInv(s);
      case AOutUsed => OutUsedInv(s);
      case AOutDrain => OutDrainInv(s);
      case AOutHandle => OutHandleInv(s);
      case AOutClear => OutClearInv(s);
      case AOutRespond => OutRespondInv(s);
      case AOutPop => OutPopInv(s);
    }
  }

  /** Every enabled step of every thread keeps the invariant. */
  lemma StepInv(s: State, a: Action)
    requires Inv(s) && Enabled(s, a)
    ensures Inv(Step(s, a)) && Leaves(s, Step(s, a))
  {
    hide Inv, Step, Leaves, Enabled;
    if MainStep(a) {
      MainStepInv(s, a);
    } else if PlanStep(a) {
      PlanStepInv(s, a);
    } else if WorkStep(a) {
      WorkStepInv(s, a);
    } else {
      OutputStepInv(s, a);
    }
  }
}
