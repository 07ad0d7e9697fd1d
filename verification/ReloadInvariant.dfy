/**
  What every reachable state of the reload protocol satisfies.

  Predicates about the heap take just the parts of the state they constrain, so that a step of a
  thread that touches none of them keeps them by congruence.
 */
module ReloadInvariant {
  import opened Basics
  import opened TaskLists
  import opened ReloadModel

  // ---- where the protocol's single message is -------------------------------------------------

  ghost predicate MainFree(p: MainPc) { p.MLoop? || p.MPoll? || p.MTry? }

  ghost predicate ReloadRests(p: ReloadPc) { p.RIdle? || p.RTail? }

  datatype Place = Nowhere | AtMainSending | InReloadMbox | AtReload | InMainMbox | AtMain

  /** The places the message is in, as the code sees them; `TokenInv` says there is exactly one or none. */
  ghost function PlaceOf(s: State): Place {
    if s.mpc.MSend? then AtMainSending
    else if s.mpc.MHandle? then AtMain
    else if s.reloadMbox then InReloadMbox
    else if s.mainMbox then InMainMbox
    else if !ReloadRests(s.rpc) then AtReload
    else Nowhere
  }

  /** At most one thread or mailbox has the message, and only an idle protocol has none. */
  ghost predicate TokenInv(s: State) {
    && (s.phase.Idle? <==> PlaceOf(s).Nowhere?)
    && (s.reloadMbox ==> PlaceOf(s).InReloadMbox?)
    && (s.mainMbox ==> PlaceOf(s).InMainMbox?)
    && (!ReloadRests(s.rpc) ==> PlaceOf(s).AtReload?)
    && RpcInPhase(s.rpc, s.phase)
  }

  /** Each kind of work belongs to one phase. */
  ghost predicate RpcInPhase(p: ReloadPc, phase: Phase) {
    && (p.RParse? || p.RCollect? ==> phase.AwaitingSurvivors?)
    && (p.RBuild? || p.RUndo? ==> phase.AwaitingNewTasks?)
    && (p.RDrainRequest? || p.RDrainWait? || p.RDrainSeen? || p.RReclaim? ==> phase.AwaitingReclaim?)
  }

  // ---- heap ------------------------------------------------------------------------------------

  ghost predicate Bounded(h: Heap) {
    && (forall t :: t in h.live ==> t < h.next)
    && (forall t :: t in h.lists ==> t < h.next)
    && (forall t :: t in h.configs ==> t < h.next)
    && (forall t :: t in h.errors ==> t < h.next)
  }

  ghost predicate Owns(h: Heap, lists: set<nat>, configs: set<nat>, errors: set<nat>) {
    h.lists.Keys == lists && h.configs.Keys == configs && h.errors.Keys == errors
  }

  ghost predicate GoodList(l: seq<Wrapper>) { UniqueTasks(l) && UniqueFingerprints(l) }

  ghost predicate GoodPlan(fps: seq<Option<Fingerprint>>) { AllFingerprinted(fps) && UniqueConfig(fps) }

  /** Tasks that a ring message, or the message in the output thread's hands, points at. */
  ghost function InFlight(ring: seq<nat>, opc: OutPc): set<nat> {
    (set t | t in ring) + (if opc.OHandle? then {opc.task} else {})
  }

  /** The configuration of a failed build, until the reload thread has freed it. */
  ghost function TailConfig(rpc: ReloadPc, ctx: Ctx): set<nat> {
    if rpc == RTail(TFreeConfig) && ctx.newConfig.Some? then {ctx.newConfig.value} else {}
  }

  /** A resting reload thread that refers to no list. */
  ghost predicate CtxAtRest(rpc: ReloadPc, ctx: Ctx) {
    match rpc
    case RIdle => ctx == NO_CTX
    case RTail(t) => (t == TReset && ctx.newConfig == None) || (t == TFreeConfig && ctx.newConfig.Some?)
    case _ => false
  }

  /** Only the manager's own objects, plus a configuration that is about to be freed. */
  ghost predicate OnlyManaged(h: Heap, m: Manager, tail: set<nat>) {
    && Owns(h, {m.tasks}, {m.config} + tail, {m.errors}) && m.config !in tail
    && GoodList(h.lists[m.tasks]) && h.live == TaskIds(h.lists[m.tasks])
  }

  /** The plan of the attempt is in force: configuration, list and errors all come from it. */
  ghost predicate Committed(h: Heap, m: Manager, a: Attempt) {
    && a.read && a.done
    && GoodPlan(a.fps) && |a.made| == |a.fps| && GoodList(a.tasks) && FreshlyMade(a.tasks, a.made)
    && m.config in h.configs && h.configs[m.config] == a.fps
    && m.tasks in h.lists && h.lists[m.tasks] == BuildOf(a.fps, a.tasks, a.made)
    && m.errors in h.errors && h.errors[m.errors] == ErrorsOf(a.fps, a.tasks, a.made)
  }

  ghost predicate Unchanged(h: Heap, m: Manager, a: Attempt) {
    m == a.base && m.tasks in h.lists && h.lists[m.tasks] == a.tasks && BaseHeld(h, a)
  }

  /** Nothing took over: the configuration and the errors a reload started from still hold what they held. */
  ghost predicate BaseHeld(h: Heap, a: Attempt) {
    && !a.done
    && a.base.config in h.configs && h.configs[a.base.config] == a.config
    && a.base.errors in h.errors && h.errors[a.base.errors] == a.errors
  }

  /** What the reload and main threads agree on: where the message is, and everything it stands for. */
  datatype View = View(place: Place, heap: Heap, mgr: Manager, attempt: Attempt, mainTx: Msg, reloadTx: Msg, ctx: Ctx, rpc: ReloadPc)

  ghost function ViewOf(s: State): View {
    View(PlaceOf(s), s.heap, s.mgr, s.attempt, s.mainTx, s.reloadTx, s.ctx, s.rpc)
  }

  // ---- idle ------------------------------------------------------------------------------------

  ghost predicate IdleInv(v: View) {
    && OnlyManaged(v.heap, v.mgr, TailConfig(v.rpc, v.ctx)) && CtxAtRest(v.rpc, v.ctx)
    && (Unchanged(v.heap, v.mgr, v.attempt) || Committed(v.heap, v.mgr, v.attempt))
  }

  // ---- awaiting survivors ----------------------------------------------------------------------

  /** The survivors of the first i entries are collected in `list`; everything else is as at the start. */
  ghost predicate Collected(h: Heap, a: Attempt, cfg: nat, list: nat, i: nat) {
    var b := a.base;
    && a.read && GoodPlan(a.fps) && i <= |a.fps| && AllFingerprinted(a.fps[..i]) && GoodList(a.tasks)
    && list != b.tasks && cfg != b.config
    && Owns(h, {b.tasks, list}, {b.config, cfg}, {b.errors})
    && h.configs[cfg] == a.fps && BaseHeld(h, a)
    && h.lists[b.tasks] == a.tasks && h.live == TaskIds(a.tasks)
    && h.lists[list] == SurvivorsOf(a.fps[..i], a.tasks)
  }

  ghost predicate PlanReported(v: View, m: Msg) {
    match m
    case RptError(r) =>
      r == None && v.ctx.newConfig == None && OnlyManaged(v.heap, v.mgr, {})
    case RptSurvivors(l) =>
      && v.ctx.newConfig.Some? && v.ctx == Ctx(v.ctx.newConfig, Some(v.mgr.tasks), None)
      && Collected(v.heap, v.attempt, v.ctx.newConfig.value, l, |v.attempt.fps|)
    case _ => false
  }

  ghost function PlanTail(m: Msg): Tail { if m.RptError? then TReset else TNone }

  ghost predicate PlanBusy(v: View) {
    match v.rpc
    case RDispatch => v.mainTx == ReqPlan(v.mgr.tasks) && v.ctx == NO_CTX && OnlyManaged(v.heap, v.mgr, {})
    case RParse => v.ctx == Ctx(None, Some(v.mgr.tasks), None) && OnlyManaged(v.heap, v.mgr, {})
    case RCollect(cfg, list, i) =>
      v.ctx == Ctx(None, Some(v.mgr.tasks), None) && Collected(v.heap, v.attempt, cfg, list, i)
    case RWrite(m, t) => PlanReported(v, m) && t == PlanTail(m)
    case RSend(t) => PlanReported(v, v.reloadTx) && t == PlanTail(v.reloadTx)
    case _ => false
  }

  ghost predicate PlanInv(v: View) {
    && Unchanged(v.heap, v.mgr, v.attempt) && v.heap.live == TaskIds(v.attempt.tasks)
    && match v.place
       case AtReload => PlanBusy(v)
       case InMainMbox | AtMain =>
         && PlanReported(v, v.reloadTx)
         && (if v.reloadTx.RptError? then CtxAtRest(v.rpc, v.ctx) else v.rpc == RIdle)
       case _ =>
         && v.mainTx == ReqPlan(v.mgr.tasks) && CtxAtRest(v.rpc, v.ctx)
         && OnlyManaged(v.heap, v.mgr, TailConfig(v.rpc, v.ctx))
  }

  // ---- awaiting new tasks ----------------------------------------------------------------------

  /** The first i entries are built into `list` and `errs`. */
  ghost predicate Built(h: Heap, a: Attempt, surv: nat, cfg: nat, list: nat, errs: nat, i: nat) {
    && BuildOwns(h, a, surv, cfg, list, errs)
    && i == |a.made| <= |a.fps| && AllFingerprinted(a.fps[..i]) && FreshlyMade(a.tasks, a.made)
    && (forall j :: 0 <= j < i && a.made[j].Some? ==> a.made[j].value < h.next)
    && h.lists[list] == BuildOf(a.fps[..i], a.tasks, a.made)
    && h.errors[errs] == ErrorsOf(a.fps[..i], a.tasks, a.made)
    && h.live == TaskIds(a.tasks) + TaskIds(h.lists[list])
  }

  ghost predicate BuildOwns(h: Heap, a: Attempt, surv: nat, cfg: nat, list: nat, errs: nat) {
    var b := a.base;
    && list != b.tasks && list != surv && surv != b.tasks && errs != b.errors && cfg != b.config
    && Owns(h, {b.tasks, surv, list}, {b.config, cfg}, {b.errors, errs})
    && a.read && GoodPlan(a.fps) && h.configs[cfg] == a.fps && BaseHeld(h, a)
    && GoodList(a.tasks) && h.lists[b.tasks] == a.tasks
    && h.lists[surv] == SurvivorsOf(a.fps, a.tasks)
  }

  /** A build being undone: the capture tasks created for its first i nodes are destroyed. */
  ghost predicate Undone(h: Heap, a: Attempt, surv: nat, cfg: nat, list: nat, errs: nat, i: nat) {
    var n := |a.made|;
    && BuildOwns(h, a, surv, cfg, list, errs)
    && n <= |a.fps| && AllFingerprinted(a.fps[..n]) && FreshlyMade(a.tasks, a.made)
    && h.lists[list] == BuildOf(a.fps[..n], a.tasks, a.made) && i <= |h.lists[list]|
    && h.live == TaskIds(a.tasks) + TaskIds(h.lists[list][i..])
  }

  /** The build failed and left nothing but, possibly, its configuration. */
  ghost predicate Failed(h: Heap, a: Attempt, surv: nat, tail: set<nat>) {
    var b := a.base;
    && surv != b.tasks && b.config !in tail
    && Owns(h, {b.tasks, surv}, {b.config} + tail, {b.errors})
    && GoodList(a.tasks) && h.lists[b.tasks] == a.tasks && h.live == TaskIds(a.tasks) && BaseHeld(h, a)
    && GoodPlan(a.fps) && h.lists[surv] == SurvivorsOf(a.fps, a.tasks)
  }

  ghost predicate BuildReported(v: View, m: Msg) {
    var b := v.attempt.base;
    match m
    case RptError(r) =>
      && r == Some(b.tasks)
      && (if ReloadRests(v.rpc) then
            CtxAtRest(v.rpc, v.ctx) && Failed(v.heap, v.attempt, v.mgr.tasks, TailConfig(v.rpc, v.ctx))
          else
            v.ctx.newConfig.Some? && Failed(v.heap, v.attempt, v.mgr.tasks, {v.ctx.newConfig.value}))
    case RptNewTasks(cfg, list, errs) =>
      && v.ctx == Ctx(if v.rpc == RIdle then None else Some(cfg), Some(b.tasks), Some(b.tasks))
      && Built(v.heap, v.attempt, v.mgr.tasks, cfg, list, errs, |v.attempt.fps|)
    case _ => false
  }

  ghost function BuildTail(m: Msg): Tail { if m.RptError? then TFreeConfig else TDropConfig }

  ghost predicate BuildBusy(v: View) {
    var b := v.attempt.base;
    match v.rpc
    case RDispatch =>
      && v.mainTx == ReqBuild(b.tasks)
      && v.ctx.newConfig.Some? && v.ctx == Ctx(v.ctx.newConfig, Some(b.tasks), None)
      && Collected(v.heap, v.attempt, v.ctx.newConfig.value, v.mgr.tasks, |v.attempt.fps|)
    case RBuild(list, errs, i) =>
      && v.ctx.newConfig.Some? && v.ctx == Ctx(v.ctx.newConfig, Some(b.tasks), Some(b.tasks))
      && Built(v.heap, v.attempt, v.mgr.tasks, v.ctx.newConfig.value, list, errs, i)
    case RUndo(list, errs, i) =>
      && v.ctx.newConfig.Some? && v.ctx == Ctx(v.ctx.newConfig, Some(b.tasks), Some(b.tasks))
      && Undone(v.heap, v.attempt, v.mgr.tasks, v.ctx.newConfig.value, list, errs, i)
    case RWrite(m, t) => BuildReported(v, m) && t == BuildTail(m)
    case RSend(t) => BuildReported(v, v.reloadTx) && t == BuildTail(v.reloadTx)
    case _ => false
  }

  ghost predicate BuildInv(v: View) {
    var b := v.attempt.base;
    && v.mgr == b.(tasks := v.mgr.tasks) && SurvivorsLive(v.heap, v.mgr, v.attempt)
    && match v.place
       case AtReload => BuildBusy(v)
       case InMainMbox | AtMain =>
         && BuildReported(v, v.reloadTx)
         && (v.rpc == RIdle || v.rpc == RTail(BuildTail(v.reloadTx)))
       case _ =>
         && v.mainTx == ReqBuild(b.tasks) && v.rpc == RIdle
         && v.ctx.newConfig.Some? && v.ctx == Ctx(v.ctx.newConfig, Some(b.tasks), None)
         && Collected(v.heap, v.attempt, v.ctx.newConfig.value, v.mgr.tasks, |v.attempt.fps|)
  }

  /** The main thread polls the survivors, and no old capture task has been destroyed. */
  ghost predicate SurvivorsLive(h: Heap, m: Manager, a: Attempt) {
    && m.tasks in h.lists && AllFingerprinted(a.fps)
    && h.lists[m.tasks] == SurvivorsOf(a.fps, a.tasks)
    && TaskIds(h.lists[m.tasks]) <= TaskIds(a.tasks) <= h.live
  }

  // ---- awaiting reclaim ------------------------------------------------------------------------

  /** Both lists exist; of the old capture tasks that are not kept, the first i nodes' are destroyed. */
  ghost predicate Reclaiming(h: Heap, m: Manager, a: Attempt, i: nat) {
    var b := a.base;
    && b.tasks != m.tasks && b.config != m.config && b.errors != m.errors
    && Owns(h, {b.tasks, m.tasks}, {b.config, m.config}, {b.errors, m.errors})
    && h.lists[b.tasks] == a.tasks && i <= |a.tasks|
    && h.live == TaskIds(h.lists[m.tasks]) + TaskIds(a.tasks[i..])
  }

  ghost function ReclaimedNodes(p: ReloadPc): nat {
    match p
    case RReclaim(i) => i
    case _ => 0
  }

  ghost predicate ReclaimReading(p: ReloadPc) {
    p.RDispatch? || p.RDrainRequest? || p.RDrainWait? || p.RDrainSeen? || p.RReclaim?
  }

  ghost predicate ReclaimBusy(v: View) {
    var b := v.attempt.base;
    match v.rpc
    case RWrite(m, t) => m == RptReclaimed && t == TNone && v.ctx == NO_CTX && OnlyManaged(v.heap, v.mgr, {})
    case RSend(t) => v.reloadTx == RptReclaimed && t == TNone && v.ctx == NO_CTX && OnlyManaged(v.heap, v.mgr, {})
    case _ =>
      && ReclaimReading(v.rpc)
      && v.mainTx == ReqReclaim(b.config, b.errors, v.mgr.tasks)
      && v.ctx == Ctx(None, Some(b.tasks), Some(b.tasks))
      && Reclaiming(v.heap, v.mgr, v.attempt, ReclaimedNodes(v.rpc))
  }

  ghost predicate ReclaimInv(v: View) {
    var b := v.attempt.base;
    && Committed(v.heap, v.mgr, v.attempt)
    && match v.place
       case AtReload => ReclaimBusy(v)
       case InMainMbox | AtMain =>
         v.reloadTx == RptReclaimed && v.rpc == RIdle && v.ctx == NO_CTX && OnlyManaged(v.heap, v.mgr, {})
       case _ =>
         && v.mainTx == ReqReclaim(b.config, b.errors, v.mgr.tasks)
         && (v.rpc == RIdle || v.rpc == RTail(TDropConfig))
         && v.ctx.(newConfig := None) == Ctx(None, Some(b.tasks), Some(b.tasks))
         && (v.rpc == RIdle ==> v.ctx.newConfig == None)
         && Reclaiming(v.heap, v.mgr, v.attempt, 0)
  }

  // ---- messages in flight ----------------------------------------------------------------------

  /** The output thread has answered the drain request of this reclaim. */
  ghost predicate Drained(place: Place, rpc: ReloadPc, opc: OutPc, response: bool) {
    || rpc.RDrainSeen? || rpc.RReclaim? || rpc.RWrite? || rpc.RSend? || place.InMainMbox? || place.AtMain?
    || (rpc.RDrainWait? && (response || opc.OClear? || opc.ORespond?))
  }

  /** From position n on, every ring message points at a task of `l`. */
  ghost predicate CleanFrom(ring: seq<nat>, n: nat, l: seq<Wrapper>) {
    forall j :: n <= j < |ring| ==> ring[j] in TaskIds(l)
  }

  /** Where the drain loop has got to in the ring, if it runs. */
  ghost function DrainLeft(opc: OutPc): Option<nat> {
    match opc
    case ODrain(left) => Some(left)
    case OHandle(_, draining) => draining
    case _ => None
  }

  /** Messages point at tasks of the list in force when the reload started, or of the committed one. */
  ghost predicate FlightInv(phase: Phase, v: View, ring: seq<nat>, opc: OutPc, response: bool) {
    var now, prev := TaskIds(ListAt(v.heap, v.mgr.tasks)), TaskIds(v.attempt.tasks);
    match phase
    case Idle => InFlight(ring, opc) <= now
    case AwaitingSurvivors | AwaitingNewTasks => InFlight(ring, opc) <= prev
    case AwaitingReclaim =>
      && InFlight(ring, opc) <= now + prev
      && (Drained(v.place, v.rpc, opc, response) ==> InFlight(ring, opc) <= now)
      && (DrainLeft(opc).Some? ==> CleanFrom(ring, DrainLeft(opc).value, ListAt(v.heap, v.mgr.tasks)))
  }

  ghost predicate Draining(opc: OutPc) {
    opc.OUsed? || opc.OClear? || DrainLeft(opc).Some?
  }

  ghost predicate DrainInv(s: State) {
    && (s.drainRequest ==> s.rpc.RDrainWait? && !s.drainResponse && !s.opc.ORespond?)
    && (s.drainResponse ==> (s.rpc.RDrainWait? || s.rpc.RDrainSeen?) && !s.opc.ORespond?)
    && (s.rpc.RDrainSeen? ==> s.drainResponse)
    && (s.rpc.RDrainWait? ==> s.drainRequest || s.drainResponse || s.opc.ORespond?)
    && (s.rpc.RDrainRequest? || s.rpc.RDrainWait? || s.rpc.RDrainSeen? ==> s.pipeline)
    && (Draining(s.opc) ==> s.drainRequest)
    && (s.opc.ORespond? ==> s.rpc.RDrainWait?)
    && (DrainLeft(s.opc).Some? ==> DrainLeft(s.opc).value <= |s.ring|)
    && (!s.pipeline ==> s.ring == [] && s.opc.OTop?)
  }

  ghost predicate PhaseInv(phase: Phase, v: View) {
    match phase
    case Idle => IdleInv(v)
    case AwaitingSurvivors => PlanInv(v)
    case AwaitingNewTasks => BuildInv(v)
    case AwaitingReclaim => ReclaimInv(v)
  }

  /** What the record of the attempt says in each phase. */
  ghost predicate Recorded(phase: Phase, a: Attempt) {
    match phase
    case Idle => true
    case AwaitingSurvivors => !a.done
    case AwaitingNewTasks => a.read && !a.done
    case AwaitingReclaim => a.read && a.done
  }

  ghost predicate Inv(s: State) {
    var v := ViewOf(s);
    && s.faults == {} && Bounded(s.heap) && TokenInv(s) && DrainInv(s) && Recorded(s.phase, s.attempt)
    && PhaseInv(s.phase, v) && FlightInv(s.phase, v, s.ring, s.opc, s.drainResponse)
  }

  // ---- what a step leaves on record --------------------------------------------------------------

  /** A step that starts no reload and creates no capture task. */
  ghost predicate Quiet(s: State, r: State) {
    && r.attempt.base == s.attempt.base && r.attempt.tasks == s.attempt.tasks
    && r.attempt.config == s.attempt.config && r.attempt.errors == s.attempt.errors
    && (s.phase.Idle? ==> r.phase.Idle?)
    && (r.attempt.done <==> s.attempt.done || r.phase.AwaitingReclaim?)
    && (SamePlan(s.attempt, r.attempt) || Reads(s, r))
    && r.heap.live <= s.heap.live
  }

  ghost predicate SamePlan(a: Attempt, b: Attempt) {
    b.read == a.read && b.fps == a.fps
  }

  /** The step in which the reload thread reads the configuration that is then on record. */
  ghost predicate Reads(s: State, r: State) {
    s.rpc.RParse? && r.attempt.read && r == ReloadParse(s, Some(r.attempt.fps), true)
  }

  /** A step that puts on record what the manager owns, and starts a reload from it. */
  ghost predicate Starts(s: State, r: State) {
    && r.heap == s.heap
    && r.attempt.base == s.mgr && r.attempt.tasks == LiveList(s)
    && r.attempt.config == ConfigAt(s.heap, s.mgr.config) && r.attempt.errors == ErrorsAt(s.heap, s.mgr.errors)
    && !r.attempt.read && !r.attempt.done && r.phase.AwaitingSurvivors?
  }
}
