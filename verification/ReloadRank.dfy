/**
  How far a reload is from its end, and the steps that bring it closer: outside idle one is always
  enabled, and whatever its outcome the distance shrinks.
 */
module ReloadRank {
  import opened Basics
  import opened TaskLists
  import opened ReloadModel
  import opened ReloadInvariant
  import opened ReloadWorkViews

  // ---- how far a reload is from its end ------------------------------------------------------------

  datatype Rank = Rank(phase: nat, place: nat, stage: nat, left: nat)

  predicate Below(a: Rank, b: Rank) {
    || a.phase < b.phase
    || (a.phase == b.phase && a.place < b.place)
    || (a.phase == b.phase && a.place == b.place && a.stage < b.stage)
    || (a.phase == b.phase && a.place == b.place && a.stage == b.stage && a.left < b.left)
  }

  function PhaseRank(p: Phase): nat {
    match p
    case AwaitingSurvivors => 3
    case AwaitingNewTasks => 2
    case AwaitingReclaim => 1
    case Idle => 0
  }

  function PlaceRank(p: Place): nat {
    match p
    case AtMainSending => 5
    case InReloadMbox => 4
    case AtReload => 3
    case InMainMbox => 2
    case AtMain => 1
    case Nowhere => 0
  }

  function WorkRank(p: ReloadPc): nat {
    match p
    case RDispatch => 10
    case RParse => 9
    case RCollect(_, _, _) => 8
    case RBuild(_, _, _) => 7
    case RUndo(_, _, _) => 6
    case RDrainRequest => 5
    case RDrainWait => 4
    case RDrainSeen => 3
    case RReclaim(_) => 2
    case RWrite(_, _) => 1
    case _ => 0
  }

  function MainRank(p: MainPc): nat {
    match p
    case MPoll(_) => 2
    case MTry => 1
    case _ => 0
  }

  /** What is left of n from i on. */
  function Over(n: nat, i: nat): nat { if i < n then n - i else 0 }

  /** Steps of the output thread until it has answered a drain request. */
  function DrainRank(opc: OutPc, queued: nat): nat {
    match opc
    case ORespond => 1
    case OClear => 2
    case ODrain(left) => 3 + 2 * left
    case OHandle(_, Some(left)) => 4 + 2 * left
    case OUsed => 5 + 2 * queued
    case OTop => 6 + 2 * queued
    case OHandle(_, None) => 7 + 2 * queued
    case OPop => 8 + 2 * queued
  }

  ghost function StageRank(s: State): nat {
    match PlaceOf(s)
    case InReloadMbox => if s.rpc.RTail? then 1 else 0
    case AtReload => WorkRank(s.rpc)
    case InMainMbox => MainRank(s.mpc)
    case _ => 0
  }

  ghost function WorkLeft(s: State): nat {
    match s.rpc
    case RCollect(cfg, _, i) => Over(|ConfigAt(s.heap, cfg)|, i)
    case RBuild(_, _, i) => if s.ctx.newConfig.Some? then Over(|ConfigAt(s.heap, s.ctx.newConfig.value)|, i) else 0
    case RUndo(list, _, i) => Over(|ListAt(s.heap, list)|, i)
    case RReclaim(i) => if s.ctx.old_.Some? then Over(|ListAt(s.heap, s.ctx.old_.value)|, i) else 0
    case RDrainWait => if s.drainResponse then 0 else DrainRank(s.opc, |s.ring|)
    case _ => 0
  }

  ghost function LeftRank(s: State): nat {
    match PlaceOf(s)
    case AtReload => WorkLeft(s)
    case InMainMbox => if s.mpc.MPoll? then Over(|LiveList(s)|, s.mpc.k) else 0
    case _ => 0
  }

  ghost function RankOf(s: State): Rank {
    Rank(PhaseRank(s.phase), PlaceRank(PlaceOf(s)), StageRank(s), LeftRank(s))
  }

  // ---- the steps that help -------------------------------------------------------------------------

  predicate OutputAction(a: Action) {
    a.AOutTop? || a.AOutUsed? || a.AOutDrain? || a.AOutHandle? || a.AOutClear? || a.AOutRespond? || a.AOutPop?
  }

  predicate ReloadAction(a: Action) {
    a.AReloadDispatch? || a.AReloadParse? || a.ACollect? || a.ABuild? || a.AUndo? || a.ADrainRequest? || a.ADrainWait?
    || a.ADrainSeen? || a.AReclaim? || a.AReloadWrite? || a.AReloadSend?
  }

  /** The thread that has the message, or that must move for it to get on, takes its next step. */
  ghost predicate Helps(s: State, a: Action) {
    match PlaceOf(s)
    case AtMainSending => a.AMainSend?
    case InReloadMbox => if s.rpc.RTail? then a.AReloadTail? else a.AReloadReceive?
    case AtReload => if s.rpc.RDrainWait? && !s.drainResponse then OutputAction(a) else ReloadAction(a)
    case InMainMbox => if s.mpc.MPoll? then a.APollNext? else if s.mpc.MTry? then a.AMainTry? else a.AMainReceive?
    case AtMain => a.AMainHandle?
    case Nowhere => false
  }

  lemma SendHelps(s: State)
    requires TokenInv(s) && s.mpc.MSend?
    ensures Below(RankOf(MainSend(s)), RankOf(s))
  {
    hide WorkLeft, WorkRank, LiveList;
  }

  lemma PollHelps(s: State, a: Action)
    requires TokenInv(s) && Enabled(s, a) && Helps(s, a) && PlaceOf(s).InMainMbox?
    ensures Below(RankOf(Step(s, a)), RankOf(s))
  {
    hide WorkLeft, WorkRank, TaskIds;
  }

  lemma HandleHelps(s: State)
    requires TokenInv(s) && s.mpc.MHandle? && !s.phase.Idle?
    ensures Below(RankOf(MainHandle(s)), RankOf(s))
  {
    hide StageRank, LeftRank;
  }

  lemma MainHelps(s: State, a: Action)
    requires TokenInv(s) && !s.phase.Idle? && Enabled(s, a) && Helps(s, a)
    requires PlaceOf(s).AtMainSending? || PlaceOf(s).InMainMbox? || PlaceOf(s).AtMain?
    ensures Below(RankOf(Step(s, a)), RankOf(s))
  {
    hide RankOf, MainSend, MainHandle, PollNext, MainTry, MainReceive;
    match PlaceOf(s) {
      case AtMainSending => SendHelps(s);
      case AtMain => HandleHelps(s);
      case _ => PollHelps(s, a);
    }
  }

  lemma ReceiveHelps(s: State)
    requires TokenInv(s) && PlaceOf(s).InReloadMbox? && s.rpc.RIdle?
    ensures Below(RankOf(ReloadReceive(s)), RankOf(s))
  {
    hide WorkLeft, WorkRank, LiveList;
  }

  lemma TailHelps(s: State)
    requires TokenInv(s) && PlaceOf(s).InReloadMbox? && s.rpc.RTail? && (s.rpc.tail.TFreeConfig? ==> s.ctx.newConfig.Some?)
    ensures Below(RankOf(ReloadTail(s)), RankOf(s))
  {
    hide WorkLeft, WorkRank, LiveList;
  }

  lemma MailHelps(s: State, a: Action)
    requires TokenInv(s) && Enabled(s, a) && Helps(s, a) && PlaceOf(s).InReloadMbox?
    ensures Below(RankOf(Step(s, a)), RankOf(s))
  {
    hide RankOf, ReloadReceive, ReloadTail;
    if s.rpc.RTail? {
      TailHelps(s);
    } else {
      ReceiveHelps(s);
    }
  }

  lemma DrainHelps(s: State, a: Action)
    requires TokenInv(s) && DrainInv(s) && Enabled(s, a) && Helps(s, a)
    requires PlaceOf(s).AtReload? && s.rpc.RDrainWait? && !s.drainResponse
    ensures Below(RankOf(Step(s, a)), RankOf(s))
  {
  }

  /** The reload thread got on with its work, or passed the message on. */
  ghost predicate Advances(s: State, r: State) {
    && r.phase == s.phase && r.mpc == s.mpc && r.reloadMbox == s.reloadMbox
    && (ReloadRests(r.rpc) || WorkRank(r.rpc) < WorkRank(s.rpc) || (WorkRank(r.rpc) == WorkRank(s.rpc) && WorkLeft(r) < WorkLeft(s)))
  }

  lemma AdvanceHelps(s: State, r: State)
    requires TokenInv(s) && PlaceOf(s).AtReload? && Advances(s, r)
    ensures Below(RankOf(r), RankOf(s))
  {
    hide WorkLeft, WorkRank;
  }

  lemma DispatchAdvances(s: State, listOk: bool, errsOk: bool)
    requires Inv(s) && s.rpc.RDispatch?
    ensures Advances(s, ReloadDispatch(s, listOk, errsOk))
  {
    hide IdleInv, PlanInv, BuildInv, ReclaimInv, Bounded, FlightInv, TaskIds, CleanFrom, WorkLeft;
    match s.phase {
      case AwaitingSurvivors => PlanDispatched(ViewOf(s));
      case AwaitingNewTasks => BuildDispatched(ViewOf(s));
      case AwaitingReclaim => ReclaimDispatched(ViewOf(s), RDrainRequest);
      case Idle =>
    }
  }

  lemma ParseAdvances(s: State, parsed: Option<seq<Option<Fingerprint>>>, listOk: bool)
    requires s.rpc.RParse?
    ensures Advances(s, ReloadParse(s, parsed, listOk))
  {
    hide WorkLeft, AllFingerprinted;
  }

  lemma CollectAdvances(s: State, ok: bool)
    requires Inv(s) && s.rpc.RCollect? && s.ctx.current.Some?
    ensures Advances(s, CollectStep(s, ok))
  {
    hide IdleInv, PlanInv, BuildInv, ReclaimInv, Bounded, FlightInv, TaskIds, CleanFrom, DrainRank, Find;
    CollectSteps(ViewOf(s));
  }

  lemma BuildStops(s: State, created: bool, ok: bool)
    requires Inv(s) && s.rpc.RBuild? && s.ctx.current.Some? && s.ctx.newConfig.Some?
    requires s.rpc.i >= |ConfigAt(s.heap, s.ctx.newConfig.value)| || !ok
    ensures Advances(s, BuildStep(s, created, ok))
  {
    hide IdleInv, PlanInv, BuildInv, ReclaimInv, Bounded, FlightInv, TaskIds, CleanFrom, DrainRank, Find, WorkLeft;
    BuildReads(ViewOf(s));
  }

  lemma BuildReusing(s: State, created: bool)
    requires Inv(s) && s.rpc.RBuild? && s.ctx.current.Some? && s.ctx.newConfig.Some?
    requires s.rpc.i < |ConfigAt(s.heap, s.ctx.newConfig.value)|
    requires Find(ConfigAt(s.heap, s.ctx.newConfig.value)[s.rpc.i], ListAt(s.heap, s.ctx.current.value)).Some?
    ensures Advances(s, BuildStep(s, created, true))
  {
    hide IdleInv, PlanInv, BuildInv, ReclaimInv, Bounded, FlightInv, TaskIds, CleanFrom, DrainRank, Find;
    BuildReads(ViewOf(s));
  }

  lemma BuildCreating(s: State, created: bool)
    requires Inv(s) && s.rpc.RBuild? && s.ctx.current.Some? && s.ctx.newConfig.Some?
    requires s.rpc.i < |ConfigAt(s.heap, s.ctx.newConfig.value)|
    requires Find(ConfigAt(s.heap, s.ctx.newConfig.value)[s.rpc.i], ListAt(s.heap, s.ctx.current.value)).None?
    ensures Advances(s, BuildStep(s, created, true))
  {
    hide IdleInv, PlanInv, BuildInv, ReclaimInv, Bounded, FlightInv, TaskIds, CleanFrom, DrainRank, Find;
    BuildReads(ViewOf(s));
  }

  lemma BuildGoesOn(s: State, created: bool)
    requires Inv(s) && s.rpc.RBuild? && s.ctx.current.Some? && s.ctx.newConfig.Some?
    requires s.rpc.i < |ConfigAt(s.heap, s.ctx.newConfig.value)|
    ensures Advances(s, BuildStep(s, created, true))
  {
    hide Advances, BuildStep, IdleInv, PlanInv, BuildInv, ReclaimInv, Bounded, FlightInv;
    BuildReads(ViewOf(s));
    if Find(ConfigAt(s.heap, s.ctx.newConfig.value)[s.rpc.i], ListAt(s.heap, s.ctx.current.value)).Some? {
      BuildReusing(s, created);
    } else {
      BuildCreating(s, created);
    }
  }

  lemma BuildAdvances(s: State, created: bool, ok: bool)
    requires Inv(s) && s.rpc.RBuild? && s.ctx.current.Some? && s.ctx.newConfig.Some?
    ensures Advances(s, BuildStep(s, created, ok))
  {
    hide Inv, Advances, BuildStep;
    if s.rpc.i < |ConfigAt(s.heap, s.ctx.newConfig.value)| && ok {
      BuildGoesOn(s, created);
    } else {
      BuildStops(s, created, ok);
    }
  }

  lemma UndoAdvances(s: State)
    requires Inv(s) && s.rpc.RUndo? && s.ctx.current.Some? && s.ctx.old_.Some?
    ensures Advances(s, UndoStep(s))
  {
    hide IdleInv, PlanInv, BuildInv, ReclaimInv, Bounded, FlightInv, TaskIds, CleanFrom, DrainRank, Find;
    UndoSteps(ViewOf(s));
  }

  lemma ReclaimAdvances(s: State)
    requires Inv(s) && s.rpc.RReclaim? && s.mainTx.ReqReclaim? && s.ctx.old_.Some?
    ensures Advances(s, ReclaimStep(s))
  {
    hide IdleInv, PlanInv, BuildInv, ReclaimInv, Bounded, FlightInv, TaskIds, CleanFrom, DrainRank, Find;
    ReclaimSteps(ViewOf(s));
  }

  lemma RestAdvances(s: State, a: Action)
    requires Enabled(s, a) && (a.ADrainRequest? || a.ADrainWait? || a.ADrainSeen? || a.AReloadWrite? || a.AReloadSend?)
    requires s.rpc.RDrainWait? ==> s.drainResponse
    ensures Advances(s, Step(s, a))
  {
    hide WorkLeft;
  }

  lemma WorkHelps(s: State, a: Action)
    requires Inv(s) && Enabled(s, a) && Helps(s, a)
    requires PlaceOf(s).AtReload? && (s.rpc.RDrainWait? ==> s.drainResponse)
    ensures Below(RankOf(Step(s, a)), RankOf(s))
  {
    hide Advances, RankOf, PhaseInv, FlightInv, Bounded, BuildStep, UndoStep, ReclaimStep, CollectStep, ReloadDispatch, ReloadParse;
    match a {
      case ABuild(created, ok) => BuildAdvances(s, created, ok);
      case AUndo => UndoAdvances(s);
      case AReclaim => ReclaimAdvances(s);
      case AReloadDispatch(listOk, errsOk) => DispatchAdvances(s, listOk, errsOk);
      case AReloadParse(parsed, planOk) => ParseAdvances(s, parsed, planOk);
      case ACollect(ok) => CollectAdvances(s, ok);
      case _ => RestAdvances(s, a);
    }
    AdvanceHelps(s, Step(s, a));
  }

  /** Whatever its outcome, a step that helps brings the protocol closer to idle. */
  lemma HelpingStepsGetCloser(s: State, a: Action)
    requires Inv(s) && !s.phase.Idle? && Enabled(s, a) && Helps(s, a)
    ensures Below(RankOf(Step(s, a)), RankOf(s))
  {
    hide PhaseInv, FlightInv, Bounded, RankOf, Step, Enabled, Helps, DrainInv;
    match PlaceOf(s) {
      case InReloadMbox => MailHelps(s, a);
      case AtReload =>
        if s.rpc.RDrainWait? && !s.drainResponse {
          DrainHelps(s, a);
        } else {
          WorkHelps(s, a);
        }
      case _ => MainHelps(s, a);
    }
  }

  // ---- some step always helps ----------------------------------------------------------------------

  /** Whatever the reload thread is about to do, the data it needs is there. */
  lemma DataIsThere(s: State)
    requires Inv(s)
    ensures s.rpc.RCollect? ==> s.ctx.current.Some?
    ensures s.rpc.RBuild? ==> s.ctx.current.Some? && s.ctx.newConfig.Some?
    ensures s.rpc.RUndo? ==> s.ctx.current.Some? && s.ctx.old_.Some?
    ensures s.rpc.RReclaim? ==> s.mainTx.ReqReclaim? && s.ctx.old_.Some?
    ensures s.rpc == RTail(TFreeConfig) ==> s.ctx.newConfig.Some?
  {
    hide Collected, Built, Undone, Failed, OnlyManaged, Committed, Reclaiming, SurvivorsLive, FlightInv;
  }

  function NextWork(p: ReloadPc): Action {
    match p
    case RDispatch => AReloadDispatch(true, true)
    case RParse => AReloadParse(None, true)
    case RCollect(_, _, _) => ACollect(true)
    case RBuild(_, _, _) => ABuild(true, true)
    case RUndo(_, _, _) => AUndo
    case RDrainRequest => ADrainRequest
    case RDrainWait => ADrainWait
    case RDrainSeen => ADrainSeen
    case RReclaim(_) => AReclaim
    case RWrite(_, _) => AReloadWrite
    case RSend(_) => AReloadSend
    case RTail(_) => AReloadTail
    case RIdle => AReloadReceive
  }

  function NextOutput(p: OutPc): Action {
    match p
    case OTop => AOutTop
    case OUsed => AOutUsed
    case ODrain(_) => AOutDrain
    case OHandle(_, _) => AOutHandle
    case OClear => AOutClear
    case ORespond => AOutRespond
    case OPop => AOutPop
  }

  ghost function NextHelp(s: State): Action {
    match PlaceOf(s)
    case AtMainSending => AMainSend
    case InReloadMbox => NextWork(s.rpc)
    case AtReload => if s.rpc.RDrainWait? && !s.drainResponse then NextOutput(s.opc) else NextWork(s.rpc)
    case InMainMbox => if s.mpc.MPoll? then APollNext else if s.mpc.MTry? then AMainTry else AMainReceive
    case AtMain => AMainHandle
    case Nowhere => Signal
  }

  lemma SomeStepHelps(s: State)
    requires Inv(s) && !s.phase.Idle?
    ensures Enabled(s, NextHelp(s)) && Helps(s, NextHelp(s))
  {
    hide PhaseInv, FlightInv, Bounded, LiveList, UniqueConfig;
    DataIsThere(s);
  }
}
