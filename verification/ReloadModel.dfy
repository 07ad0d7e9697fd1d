/**
  The hot-reload protocol as a transition system over its three threads.

  The main thread polls the live task list and drives the phases; the reload thread plans, builds and
  reclaims; in pipeline mode the output thread consumes ring messages, each of which points at a
  capture task. One step is one atomic load, store or exchange, or one iteration of a loop that runs
  beside the other threads. Writing a message buffer and storing its address in a mailbox are two
  steps. Allocation failures and failures to create a capture task are choices of the step.

  Freed task lists, configurations and error lists leave the heap; identities are never reused.
  Whatever the code must never do (read a freed list, destroy a capture task twice, take a branch that
  logs an unexpected message, ...) is recorded as a fault, so that safety reads `faults == {}`.
 */
module ReloadModel {
  import opened Basics
  import opened TaskLists

  datatype Fault =
    | FreedList | FreedConfig | FreedErrors      // read or freed after it was freed
    | DestroyedTask                              // a destroyed capture task was used
    | DestroyedTwice
    | MissingFingerprint                         // a string comparison with NULL
    | MailboxOverwritten | MessageRewritten      // sent before the receiver was done
    | UnexpectedMessage

  /** The heap objects whose lifetime the protocol manages. */
  datatype Heap = Heap(
    next: nat,                                   // every identity in use is below
    live: set<nat>,                              // capture tasks created and not destroyed
    lists: map<nat, seq<Wrapper>>,
    configs: map<nat, seq<Option<Fingerprint>>>,
    errors: map<nat, seq<TaskError>>)

  datatype Msg =
    | ReqPlan(current: nat)
    | RptSurvivors(survivors: nat)
    | ReqBuild(old_: nat)
    | RptNewTasks(config: nat, tasks: nat, errors: nat)
    | ReqReclaim(oldConfig: nat, oldErrors: nat, newTasks: nat)
    | RptReclaimed
    | RptError(restore: Option<nat>)

  datatype Phase = Idle | AwaitingSurvivors | AwaitingNewTasks | AwaitingReclaim

  /** What the task manager owns while it runs. */
  datatype Manager = Manager(tasks: nat, config: nat, errors: nat)

  datatype MainPc =
    | MLoop
    | MPoll(k: nat)                              // polling node k of the live list
    | MHandle                                    // holds the address of the reload thread's message
    | MTry                                       // about to look at the reload signal
    | MSend                                      // message written, address not stored yet

  /** What the reload thread still does after it reported. */
  datatype Tail = TNone | TReset | TFreeConfig | TDropConfig

  datatype ReloadPc =
    | RIdle
    | RDispatch                                  // holds the address of the main thread's message
    | RParse
    | RCollect(cfg: nat, list: nat, i: nat)
    | RBuild(list: nat, errs: nat, i: nat)
    | RUndo(list: nat, errs: nat, i: nat)
    | RDrainRequest | RDrainWait | RDrainSeen
    | RReclaim(i: nat)
    | RWrite(msg: Msg, tail: Tail)
    | RSend(tail: Tail)
    | RTail(tail: Tail)

  /** The reload thread's runtime context. */
  datatype Ctx = Ctx(newConfig: Option<nat>, current: Option<nat>, old_: Option<nat>)

  const NO_CTX := Ctx(None, None, None)

  datatype OutPc =
    | OTop
    | OUsed                                      // saw a drain request
    | ODrain(left: nat)
    | OHandle(task: nat, draining: Option<nat>)  // message popped, not released yet
    | OClear | ORespond
    | OPop

  /** History, read by no thread: how the current or last reload started and what it tried. */
  datatype Attempt = Attempt(
    base: Manager, tasks: seq<Wrapper>,          // the manager when it started, and what its objects held
    config: seq<Option<Fingerprint>>, errors: seq<TaskError>,
    read: bool, fps: seq<Option<Fingerprint>>,   // whether it read a configuration, and which
    made: seq<Option<nat>>,                      // the capture tasks it created, by configuration entry
    done: bool)                                  // whether the new list took over

  datatype State = State(
    pipeline: bool,
    heap: Heap,
    mgr: Manager, phase: Phase, mpc: MainPc,
    signal: bool,
    mainTx: Msg, mainMbox: bool,                 // mainMbox: it holds the address of reloadTx
    reloadTx: Msg, reloadMbox: bool,             // reloadMbox: it holds the address of mainTx
    ctx: Ctx, rpc: ReloadPc,
    ring: seq<nat>, opc: OutPc,
    drainRequest: bool, drainResponse: bool,
    attempt: Attempt,
    faults: set<Fault>)

  /** Slots of the pipeline ring that can be in use: one less than its size. */
  const RING_CAPACITY: nat := 1024 * 1024 - 1

  // ---- heap operations ------------------------------------------------------------------------

  /** Records a fault and nothing else. */
  function Flag(s: State, bad: bool, f: Fault): (r: State)
    ensures r == s.(faults := r.faults)
    ensures s.faults <= r.faults && (r.faults == s.faults <==> !bad || f in s.faults)
  {
    if bad then s.(faults := s.faults + {f}) else s
  }

  function ListAt(h: Heap, id: nat): seq<Wrapper> {
    if id in h.lists then h.lists[id] else []
  }

  function ConfigAt(h: Heap, id: nat): seq<Option<Fingerprint>> {
    if id in h.configs then h.configs[id] else []
  }

  function ErrorsAt(h: Heap, id: nat): seq<TaskError> {
    if id in h.errors then h.errors[id] else []
  }

  function UseList(s: State, id: nat): State { Flag(s, id !in s.heap.lists, FreedList) }

  function UseTask(s: State, t: nat): State { Flag(s, t !in s.heap.live, DestroyedTask) }

  function FreeList(s: State, id: nat): State {
    Flag(s, id !in s.heap.lists, FreedList).(heap := s.heap.(lists := s.heap.lists - {id}))
  }

  function FreeConfig(s: State, id: nat): State {
    Flag(s, id !in s.heap.configs, FreedConfig).(heap := s.heap.(configs := s.heap.configs - {id}))
  }

  function FreeErrors(s: State, id: nat): State {
    Flag(s, id !in s.heap.errors, FreedErrors).(heap := s.heap.(errors := s.heap.errors - {id}))
  }

  function Destroy(s: State, t: nat): State {
    Flag(s, t !in s.heap.live, DestroyedTwice).(heap := s.heap.(live := s.heap.live - {t}))
  }

  function PutList(s: State, id: nat, l: seq<Wrapper>): State {
    s.(heap := s.heap.(lists := s.heap.lists[id := l]))
  }

  // ---- messages -------------------------------------------------------------------------------

  /** The reload thread holds the address of the main thread's message and still reads through it. */
  predicate ReloadReads(s: State) {
    s.rpc.RDispatch? || s.rpc.RDrainRequest? || s.rpc.RDrainWait? || s.rpc.RDrainSeen? || s.rpc.RReclaim?
  }

  function WriteMainTx(s: State, m: Msg): State {
    Flag(s, s.reloadMbox || ReloadReads(s), MessageRewritten).(mainTx := m)
  }

  function WriteReloadTx(s: State, m: Msg): State {
    Flag(s, s.mainMbox || s.mpc.MHandle?, MessageRewritten).(reloadTx := m)
  }

  // ---- main thread ----------------------------------------------------------------------------

  function LiveList(s: State): seq<Wrapper> { ListAt(s.heap, s.mgr.tasks) }

  /** The task at node k captures one packet or heartbeat: sent at once, or pushed to the ring. */
  function PollDeliver(s: State): State
    requires s.mpc.MPoll? && s.mpc.k < |LiveList(s)|
  {
    var t := LiveList(s)[s.mpc.k].task;
    var s1 := UseTask(UseList(s, s.mgr.tasks), t);
    if s.pipeline then s1.(ring := s.ring + [t]) else s1
  }

  function PollNext(s: State): State
    requires s.mpc.MPoll?
  {
    var s1 := UseList(s, s.mgr.tasks);
    if s.mpc.k < |LiveList(s)| then s1.(mpc := MPoll(s.mpc.k + 1)) else s1.(mpc := MLoop)
  }

  function MainReceive(s: State): State
  {
    if s.mainMbox then s.(mainMbox := false, mpc := MHandle) else s.(mpc := MTry)
  }

  function MainHandle(s: State): State
  {
    var m := s.reloadTx;
    match s.phase
    case AwaitingSurvivors =>
      if m.RptError? then s.(phase := Idle, mpc := MTry)
      else if !m.RptSurvivors? then Flag(s, true, UnexpectedMessage).(phase := Idle, mpc := MTry)
      else
        WriteMainTx(s, ReqBuild(s.mgr.tasks))
        .(mgr := s.mgr.(tasks := m.survivors), phase := AwaitingNewTasks, mpc := MSend)
    case AwaitingNewTasks =>
      if m.RptError? then
        var s1 := if m.restore.Some? then FreeList(s, s.mgr.tasks).(mgr := s.mgr.(tasks := m.restore.value)) else s;
        s1.(phase := Idle, mpc := MTry)
      else if !m.RptNewTasks? then Flag(s, true, UnexpectedMessage).(phase := Idle, mpc := MTry)
      else
        WriteMainTx(FreeList(s, s.mgr.tasks), ReqReclaim(s.mgr.config, s.mgr.errors, m.tasks))
        .(mgr := Manager(m.tasks, m.config, m.errors), phase := AwaitingReclaim, mpc := MSend,
          attempt := s.attempt.(done := true))
    case AwaitingReclaim =>
      Flag(s, !m.RptReclaimed?, UnexpectedMessage).(phase := Idle, mpc := MTry)
    case Idle =>
      Flag(s, true, UnexpectedMessage).(mpc := MTry)
  }

  function MainTry(s: State): State
  {
    if s.phase != Idle || !s.signal then s.(mpc := MLoop)
    else
      WriteMainTx(s, ReqPlan(s.mgr.tasks))
      .(signal := false, phase := AwaitingSurvivors, mpc := MSend,
        attempt := s.attempt.(base := s.mgr, tasks := LiveList(s),
                              config := ConfigAt(s.heap, s.mgr.config), errors := ErrorsAt(s.heap, s.mgr.errors),
                              read := false, done := false))
  }

  function MainSend(s: State): State
  {
    Flag(s, s.reloadMbox, MailboxOverwritten).(reloadMbox := true, mpc := MLoop)
  }

  // ---- reload thread --------------------------------------------------------------------------

  function ReloadReceive(s: State): State
  {
    if s.reloadMbox then s.(reloadMbox := false, rpc := RDispatch) else s
  }

  /** Starts handling a request; `listOk` and `errsOk` are the outcomes of the two allocations of a build. */
  function ReloadDispatch(s: State, listOk: bool, errsOk: bool): State
  {
    match s.mainTx
    case ReqPlan(l) => s.(ctx := s.ctx.(current := Some(l)), rpc := RParse)
    case ReqBuild(l) =>
      var s1 := s.(ctx := s.ctx.(old_ := Some(l)));
      if !listOk || !errsOk then s1.(rpc := RWrite(RptError(Some(l)), TFreeConfig))
      else
        var list, errs := s.heap.next, s.heap.next + 1;
        s1.(heap := s.heap.(next := s.heap.next + 2, lists := s.heap.lists[list := []], errors := s.heap.errors[errs := []]),
            attempt := s.attempt.(made := []),
            rpc := RBuild(list, errs, 0))
    case ReqReclaim(_, _, _) => s.(rpc := if s.pipeline then RDrainRequest else RReclaim(0))
    case _ => Flag(s, true, UnexpectedMessage).(rpc := RIdle)
  }

  /** Parses and validates the configuration file, then allocates the survivor list. */
  function ReloadParse(s: State, parsed: Option<seq<Option<Fingerprint>>>, listOk: bool): State
  {
    if parsed.None? || !AllFingerprinted(parsed.value) || !listOk then s.(rpc := RWrite(RptError(None), TReset))
    else
      var cfg, list := s.heap.next, s.heap.next + 1;
      s.(heap := s.heap.(next := s.heap.next + 2, lists := s.heap.lists[list := []],
                         configs := s.heap.configs[cfg := parsed.value]),
         attempt := s.attempt.(read := true, fps := parsed.value),
         rpc := RCollect(cfg, list, 0))
  }

  /** One iteration of collecting survivors; `ok` is the outcome of allocating the wrapper. */
  function CollectStep(s: State, ok: bool): State
    requires s.rpc.RCollect? && s.ctx.current.Some?
  {
    var RCollect(cfg, list, i) := s.rpc;
    var fps := ConfigAt(s.heap, cfg);
    var s1 := Flag(UseList(s, s.ctx.current.value), cfg !in s.heap.configs, FreedConfig);
    if i >= |fps| then s1.(ctx := s.ctx.(newConfig := Some(cfg)), rpc := RWrite(RptSurvivors(list), TNone))
    else if fps[i].None? then Flag(s1, true, MissingFingerprint).(rpc := RIdle)
    else
      match Find(fps[i], ListAt(s.heap, s.ctx.current.value))
      case None => s1.(rpc := RCollect(cfg, list, i + 1))
      case Some(w) =>
        if ok then PutList(UseList(s1, list), list, ListAt(s.heap, list) + [w]).(rpc := RCollect(cfg, list, i + 1))
        else FreeConfig(FreeList(s1, list), cfg).(rpc := RWrite(RptError(None), TReset))
  }

  /** One iteration of building; `created` and `ok` are the outcomes of the capture task and of the node. */
  function BuildStep(s: State, created: bool, ok: bool): State
    requires s.rpc.RBuild? && s.ctx.current.Some? && s.ctx.newConfig.Some?
  {
    var RBuild(list, errs, i) := s.rpc;
    var cfg := s.ctx.newConfig.value;
    var fps := ConfigAt(s.heap, cfg);
    var s1 := Flag(UseList(s, s.ctx.current.value), cfg !in s.heap.configs, FreedConfig);
    if i >= |fps| then s1.(rpc := RWrite(RptNewTasks(cfg, list, errs), TDropConfig))
    else if fps[i].None? then Flag(s1, true, MissingFingerprint).(rpc := RIdle)
    else
      var next := s1.(rpc := RBuild(list, errs, i + 1));
      match Find(fps[i], ListAt(s.heap, s.ctx.current.value))
      case Some(w) =>
        if ok then
          PutList(UseList(next, list), list, ListAt(s.heap, list) + [Wrapper(i, fps[i], w.task)])
          .(attempt := s.attempt.(made := s.attempt.made + [None]))
        else s1.(rpc := RUndo(list, errs, 0))
      case None =>
        var t := s.heap.next;
        if created && ok then
          PutList(UseList(next, list).(heap := s.heap.(next := t + 1, live := s.heap.live + {t})),
                  list, ListAt(s.heap, list) + [Wrapper(i, fps[i], t)])
          .(attempt := s.attempt.(made := s.attempt.made + [Some(t)]))
        else if created then       // created, destroyed again because its node could not be allocated
          s1.(heap := s.heap.(next := t + 1), rpc := RUndo(list, errs, 0))
        else if ok then
          Flag(next, errs !in s.heap.errors, FreedErrors)
          .(heap := s.heap.(errors :=
              s.heap.errors[errs := ErrorsAt(s.heap, errs) + [TaskError(i, fps[i])]]),
            attempt := s.attempt.(made := s.attempt.made + [None]))
        else s1.(rpc := RUndo(list, errs, 0))
  }

  /** One iteration of undoing a build: destroys the capture tasks that were created for it. */
  function UndoStep(s: State): State
    requires s.rpc.RUndo? && s.ctx.current.Some? && s.ctx.old_.Some?
  {
    var RUndo(list, errs, i) := s.rpc;
    var s1 := UseList(UseList(s, s.ctx.current.value), list);
    var l := ListAt(s.heap, list);
    if i >= |l| then FreeErrors(FreeList(s1, list), errs).(rpc := RWrite(RptError(s.ctx.old_), TFreeConfig))
    else if l[i].fp.None? then Flag(s1, true, MissingFingerprint).(rpc := RIdle)
    else
      var s2 := if Find(l[i].fp, ListAt(s.heap, s.ctx.current.value)).None? then Destroy(s1, l[i].task) else s1;
      s2.(rpc := RUndo(list, errs, i + 1))
  }

  /** One iteration of reclaiming: destroys the old capture tasks the new list does not name. */
  function ReclaimStep(s: State): State
    requires s.rpc.RReclaim? && s.mainTx.ReqReclaim? && s.ctx.old_.Some?
  {
    var i := s.rpc.i;
    var s1 := UseList(UseList(s, s.ctx.old_.value), s.mainTx.newTasks);
    var l := ListAt(s.heap, s.ctx.old_.value);
    if i >= |l| then
      FreeConfig(FreeErrors(FreeList(s1, s.ctx.old_.value), s.mainTx.oldErrors), s.mainTx.oldConfig)
      .(ctx := s.ctx.(current := None, old_ := None), rpc := RWrite(RptReclaimed, TNone))
    else
      var kept := l[i].fp.Some? && Find(l[i].fp, ListAt(s.heap, s.mainTx.newTasks)).Some?;
      (if kept then s1 else Destroy(s1, l[i].task)).(rpc := RReclaim(i + 1))
  }

  function ReloadSend(s: State): State
    requires s.rpc.RSend?
  {
    Flag(s, s.mainMbox, MailboxOverwritten)
    .(mainMbox := true, rpc := if s.rpc.tail.TNone? then RIdle else RTail(s.rpc.tail))
  }

  function ReloadTail(s: State): State
    requires s.rpc.RTail? && (s.rpc.tail.TFreeConfig? ==> s.ctx.newConfig.Some?)
  {
    match s.rpc.tail
    case TReset => s.(ctx := s.ctx.(current := None, old_ := None), rpc := RIdle)
    case TFreeConfig => FreeConfig(s, s.ctx.newConfig.value).(ctx := NO_CTX, rpc := RIdle)
    case TDropConfig => s.(ctx := s.ctx.(newConfig := None), rpc := RIdle)
    case TNone => s.(rpc := RIdle)
  }

  function DrainRequest(s: State): State
  {
    s.(drainRequest := true, rpc := RDrainWait)
  }

  function DrainWait(s: State): State
  {
    if s.drainResponse then s.(rpc := RDrainSeen) else s
  }

  function DrainSeen(s: State): State
  {
    s.(drainResponse := false, rpc := RReclaim(0))
  }

  function ReloadWrite(s: State): State
    requires s.rpc.RWrite?
  {
    WriteReloadTx(s, s.rpc.msg).(rpc := RSend(s.rpc.tail))
  }

  // ---- output thread --------------------------------------------------------------------------

  function OutTop(s: State): State
  {
    s.(opc := if s.drainRequest then OUsed else OPop)
  }

  function OutUsed(s: State): State
  {
    s.(opc := ODrain(|s.ring|))
  }

  function OutClear(s: State): State
  {
    s.(drainRequest := false, opc := ORespond)
  }

  function OutRespond(s: State): State
  {
    s.(drainResponse := true, opc := OPop)
  }

  function OutDrain(s: State): State
    requires s.opc.ODrain?
  {
    if s.opc.left == 0 || s.ring == [] then s.(opc := OClear)
    else s.(opc := OHandle(s.ring[0], Some(s.opc.left - 1)), ring := s.ring[1..])
  }

  function OutHandle(s: State): State
    requires s.opc.OHandle?
  {
    UseTask(s, s.opc.task).(opc := if s.opc.draining.Some? then ODrain(s.opc.draining.value) else OTop)
  }

  function OutPop(s: State): State
  {
    if s.ring == [] then s.(opc := OTop) else s.(opc := OHandle(s.ring[0], None), ring := s.ring[1..])
  }

  // ---- the transition relation ------------------------------------------------------------------

  datatype Action =
    | Signal
    | APollStart | APollDeliver | APollNext | AMainReceive | AMainHandle | AMainTry | AMainSend
    | AReloadReceive | AReloadDispatch(listOk: bool, errsOk: bool)
    | AReloadParse(parsed: Option<seq<Option<Fingerprint>>>, planOk: bool)
    | ACollect(ok: bool) | ABuild(created: bool, nodeOk: bool) | AUndo
    | ADrainRequest | ADrainWait | ADrainSeen | AReclaim
    | AReloadWrite | AReloadSend | AReloadTail
    | AOutTop | AOutUsed | AOutDrain | AOutHandle | AOutClear | AOutRespond | AOutPop

  ghost predicate Enabled(s: State, a: Action) {
    match a
    case Signal => true
    case APollStart => s.mpc.MLoop?
    case APollDeliver => s.mpc.MPoll? && s.mpc.k < |LiveList(s)| && (s.pipeline ==> |s.ring| < RING_CAPACITY)
    case APollNext => s.mpc.MPoll?
    case AMainReceive => s.mpc.MLoop?
    case AMainHandle => s.mpc.MHandle?
    case AMainTry => s.mpc.MTry?
    case AMainSend => s.mpc.MSend?
    case AReloadReceive => s.rpc.RIdle?
    case AReloadDispatch(_, _) => s.rpc.RDispatch?
    case AReloadParse(parsed, _) => s.rpc.RParse? && (parsed.Some? ==> UniqueConfig(parsed.value))
    case ACollect(_) => s.rpc.RCollect? && s.ctx.current.Some?
    case ABuild(_, _) => s.rpc.RBuild? && s.ctx.current.Some? && s.ctx.newConfig.Some?
    case AUndo => s.rpc.RUndo? && s.ctx.current.Some? && s.ctx.old_.Some?
    case ADrainRequest => s.rpc.RDrainRequest?
    case ADrainWait => s.rpc.RDrainWait?
    case ADrainSeen => s.rpc.RDrainSeen?
    case AReclaim => s.rpc.RReclaim? && s.mainTx.ReqReclaim? && s.ctx.old_.Some?
    case AReloadWrite => s.rpc.RWrite?
    case AReloadSend => s.rpc.RSend?
    case AReloadTail => s.rpc.RTail? && (s.rpc.tail.TFreeConfig? ==> s.ctx.newConfig.Some?)
    case AOutTop => s.pipeline && s.opc.OTop?
    case AOutUsed => s.pipeline && s.opc.OUsed?
    case AOutDrain => s.pipeline && s.opc.ODrain?
    case AOutHandle => s.pipeline && s.opc.OHandle?
    case AOutClear => s.pipeline && s.opc.OClear?
    case AOutRespond => s.pipeline && s.opc.ORespond?
    case AOutPop => s.pipeline && s.opc.OPop?
  }

  ghost function Step(s: State, a: Action): State
    requires Enabled(s, a)
  {
    match a
    case Signal => s.(signal := true)
    case APollStart => s.(mpc := MPoll(0))
    case APollDeliver => PollDeliver(s)
    case APollNext => PollNext(s)
    case AMainReceive => MainReceive(s)
    case AMainHandle => MainHandle(s)
    case AMainTry => MainTry(s)
    case AMainSend => MainSend(s)
    case AReloadReceive => ReloadReceive(s)
    case AReloadDispatch(listOk, errsOk) => ReloadDispatch(s, listOk, errsOk)
    case AReloadParse(parsed, planOk) => ReloadParse(s, parsed, planOk)
    case ACollect(ok) => CollectStep(s, ok)
    case ABuild(created, nodeOk) => BuildStep(s, created, nodeOk)
    case AUndo => UndoStep(s)
    case ADrainRequest => DrainRequest(s)
    case ADrainWait => DrainWait(s)
    case ADrainSeen => DrainSeen(s)
    case AReclaim => ReclaimStep(s)
    case AReloadWrite => ReloadWrite(s)
    case AReloadSend => ReloadSend(s)
    case AReloadTail => ReloadTail(s)
    case AOutTop => OutTop(s)
    case AOutUsed => OutUsed(s)
    case AOutDrain => OutDrain(s)
    case AOutHandle => OutHandle(s)
    case AOutClear => OutClear(s)
    case AOutRespond => OutRespond(s)
    case AOutPop => OutPop(s)
  }

  /** All threads started, no reload yet: the list came from the first configuration. */
  ghost predicate Init(s: State) {
    && s.phase == Idle && s.mpc == MLoop && !s.mainMbox && !s.reloadMbox
    && s.ctx == NO_CTX && s.rpc == RIdle
    && s.ring == [] && s.opc == OTop && !s.drainRequest && !s.drainResponse && s.faults == {}
    && s.heap.lists.Keys == {s.mgr.tasks} && s.heap.configs.Keys == {s.mgr.config} && s.heap.errors.Keys == {s.mgr.errors}
    && s.heap.live == TaskIds(LiveList(s))
    && UniqueTasks(LiveList(s)) && UniqueFingerprints(LiveList(s))
    && (forall t :: t in s.heap.live ==> t < s.heap.next)
    && s.mgr.tasks < s.heap.next && s.mgr.config < s.heap.next && s.mgr.errors < s.heap.next
    && s.attempt.base == s.mgr && s.attempt.tasks == LiveList(s)
    && s.attempt.config == ConfigAt(s.heap, s.mgr.config) && s.attempt.errors == ErrorsAt(s.heap, s.mgr.errors)
    && !s.attempt.done
  }

  ghost predicate Next(s: State, s': State) {
    exists a :: Enabled(s, a) && s' == Step(s, a)
  }

  ghost predicate IsRun(run: seq<State>) {
    && |run| > 0 && Init(run[0])
    && forall i :: 0 < i < |run| ==> Next(run[i - 1], run[i])
  }

  /** A run together with the action of each step. */
  ghost predicate IsTrace(run: seq<State>, acts: seq<Action>) {
    && |run| == |acts| + 1 && Init(run[0])
    && forall k :: 0 <= k < |acts| ==> Enabled(run[k], acts[k]) && run[k + 1] == Step(run[k], acts[k])
  }

  lemma TraceIsRun(run: seq<State>, acts: seq<Action>)
    requires IsTrace(run, acts)
    ensures IsRun(run)
  {
    hide Init, Enabled, Step;
    forall i | 0 < i < |run|
      ensures Next(run[i - 1], run[i])
    {
      assert Enabled(run[i - 1], acts[i - 1]);
    }
  }
}
