/**
  The daemon's loop around the memory fuse: strategies, runtime checks, reports and re-registration, and
  the worker process they start, reload, stop and kill. What the outside answers is in `World`.
 */
module Syncer {
  import opened Basics
  import opened MemFuse

  /** A capture task of a strategy: its fingerprint, if any, and its configured ring. */
  datatype Task = Task(fingerprint: Option<string>, ringMb: nat)

  function RingCfg(tasks: seq<Task>): nat {
    if tasks == [] then 0 else RingCfg(tasks[..|tasks| - 1]) + tasks[|tasks| - 1].ringMb
  }

  predicate Runs(current: seq<Task>, t: Task) {
    t.fingerprint.Some? && exists i :: 0 <= i < |current| && current[i].fingerprint == t.fingerprint
  }

  /** The tasks of `next` whose ring is opened by a reload: those not running, by fingerprint. */
  function NewTasks(current: seq<Task>, next: seq<Task>): seq<Task> {
    if next == [] then []
    else
      var t := next[|next| - 1];
      NewTasks(current, next[..|next| - 1]) + if Runs(current, t) then [] else [t]
  }

  function NewRingCfg(current: seq<Task>, next: seq<Task>): nat { RingCfg(NewTasks(current, next)) }

  lemma RingCfgAppend(tasks: seq<Task>, t: Task)
    ensures RingCfg(tasks + [t]) == RingCfg(tasks) + t.ringMb
  {
    assert (tasks + [t])[..|tasks|] == tasks;
  }

  /** A reload never opens more than a start would, and a start opens everything. */
  lemma {:induction false} NewRingBounds(current: seq<Task>, next: seq<Task>)
    ensures NewRingCfg(current, next) <= RingCfg(next)
    ensures current == [] ==> NewRingCfg(current, next) == RingCfg(next)
    ensures (forall i :: 0 <= i < |next| ==> Runs(current, next[i])) ==> NewRingCfg(current, next) == 0
  {
    if next != [] {
      var k := |next| - 1;
      NewRingBounds(current, next[..k]);
      if Runs(current, next[k]) {
        assert NewTasks(current, next) == NewTasks(current, next[..k]);
      } else {
        RingCfgAppend(NewTasks(current, next[..k]), next[k]);
      }
    }
  }

  /** The tasks that open a ring are those without a fingerprint and those whose fingerprint no running task has. */
  lemma {:induction false} NewTasksAre(current: seq<Task>, next: seq<Task>, t: Task)
    ensures t in NewTasks(current, next)
       <==> t in next && (t.fingerprint == None || forall c :: c in current ==> c.fingerprint != t.fingerprint)
  {
    if next != [] {
      var k := |next| - 1;
      NewTasksAre(current, next[..k], t);
      assert t in next <==> t in next[..k] || t == next[k];
      assert Runs(current, t) <==> t.fingerprint.Some? && exists c :: c in current && c.fingerprint == t.fingerprint;
    }
  }

  datatype Build = BuildFailed | Built(tasks: seq<Task>)

  /** How far a start gets: no worker object, a worker that did not start, or a running one. */
  datatype StartOutcome = NoWorker | NotStarted | Started

  /** What the outside answers during one step. */
  datatype World = World(
    build: Build,
    memAvailable: Option<nat>,     // None: reading memory failed
    memLimit: nat,
    workerRss: nat,
    start: StartOutcome,
    limitOk: bool,                 // setting the resource limit
    stopOk: bool,
    killOk: bool,
    aliveOk: bool,                 // the liveness test gave an answer
    reloadOk: bool,
    ackOk: bool,                   // the report was acknowledged
    now: nat)

  datatype Outcome = Done | Refused | Failed

  datatype Policy = Restart | Reload

  /** The tasks about to get a ring, given to the startup check. */
  datatype Alloc = Alloc(newMb: nat, totalMb: nat)

  class Manager {
    const policy: Policy
    const fuse: Fuse
    /** A worker object exists, and its process runs. */
    var present: bool
    var running: bool
    var current: seq<Task>

    ghost predicate Valid()
      reads this, fuse
    {
      fuse.Valid() && (running ==> present) && (!present ==> current == [])
    }

    constructor (policy: Policy, fuse: Fuse)
      requires fuse.Valid()
      ensures Valid() && !running && this.fuse == fuse
    {
      this.policy, this.fuse, present, running, current := policy, fuse, false, false, [];
    }

    method Forget()
      modifies this
      ensures !present && !running && current == []
    {
      present, running, current := false, false, [];
    }

    /** Stopping or killing, when it works, leaves no process; otherwise nothing changes. */
    method Stop(w: World) returns (ok: bool)
      requires Valid()
      modifies this
      ensures Valid() && (ok <==> !old(present) || w.stopOk)
      ensures if ok then !present && !running else present && running == old(running) && current == old(current)
    {
      if !present {
        return true;
      }
      if !w.stopOk {
        return false;
      }
      Forget();
      return true;
    }

    method Kill(w: World) returns (ok: bool)
      requires Valid()
      modifies this
      ensures Valid() && (ok <==> !old(present) || w.killOk)
      ensures if ok then !present && !running else present && running == old(running) && current == old(current)
    {
      if !present {
        return true;
      }
      if !w.killOk {
        return false;
      }
      Forget();
      return true;
    }

    /** The startup check. Memory is read only when armed; a failed read lets the start pass. */
    method Gate(alloc: Alloc, w: World) returns (allowed: bool)
      requires Valid()
      modifies fuse
      ensures Valid() && fuse.acknowledged == old(fuse.acknowledged) && fuse.checks == old(fuse.checks)
      ensures allowed <==> Allows(old(fuse.state), alloc, w, fuse.minAvailable)
      ensures allowed || old(fuse.state) != Armed ==> fuse.state == old(fuse.state) && fuse.snap == old(fuse.snap)
      ensures !allowed && old(fuse.state) == Armed ==> fuse.state == Tripped && w.memAvailable.Some? && fuse.snap.Some?
      ensures !allowed && old(fuse.state) == Armed ==>
                var s, r := fuse.snap.value, fuse.snap.value.reading;
                && s.reason == Startup && s.fusedAt == w.now && r.memAvailable == w.memAvailable.value && r.memLimit == w.memLimit
                && r.workerRss == (if running then w.workerRss else 0)
                && r.nicBufferCfg == alloc.totalMb && r.newNicBufferCfg == alloc.newMb
    {
      if fuse.state == Disabled {
        return true;
      } else if fuse.state == Tripped || fuse.state == Fused {
        return false;
      }
      if w.memAvailable == None {
        return true;
      }
      var rss := if running then w.workerRss else 0;
      allowed := fuse.BeforeStart(Reading(w.memAvailable.value, rss, alloc.totalMb, alloc.newMb, w.memLimit), w.now);
    }

    /** Starts a worker, if the check allows the rings of all its tasks. */
    method Create(w: World) returns (r: Outcome)
      requires Valid()
      modifies this, fuse
      ensures Valid() && fuse.acknowledged == old(fuse.acknowledged) && fuse.checks == old(fuse.checks)
      ensures r != Refused ==> fuse.state == old(fuse.state) && fuse.snap == old(fuse.snap)
      ensures r == Refused ==> (fuse.state == Tripped || fuse.state == Fused) && running == old(running)
      ensures old(fuse.snap).Some? ==> fuse.snap == old(fuse.snap) && fuse.state == old(fuse.state)
      ensures running && !old(running) ==> StartAllowed(fuse.state, w, fuse.minAvailable)
      ensures running ==> old(running) || fuse.state == Disabled || fuse.state == Armed
      ensures r == Refused <==> !old(present) && HasTasks(w) && !StartAllowed(old(fuse.state), w, fuse.minAvailable)
      ensures r == Done <==> !old(present) && w.build.Built? && (HasTasks(w) ==> Starts(old(fuse.state), w, fuse.minAvailable))
      ensures r == Done && HasTasks(w) ==> running && current == w.build.tasks
      ensures r == Done && !HasTasks(w) ==> !running
      ensures !old(present) && HasTasks(w) && StartAllowed(old(fuse.state), w, fuse.minAvailable) && !w.limitOk ==>
                running == (w.start == Started && !w.stopOk)
    {
      if present {
        return Failed;
      }
      if w.build == BuildFailed {
        return Failed;
      }
      var tasks := w.build.tasks;
      if tasks == [] {
        return Done;
      }
      var allowed := Gate(Alloc(RingCfg(tasks), RingCfg(tasks)), w);
      if !allowed {
        return Refused;
      }
      match w.start {
        case NoWorker =>
          return Failed;
        case NotStarted =>
          present := true;
          return Failed;
        case Started =>
          present, running, current := true, true, tasks;
          if !w.limitOk {
            running := !w.stopOk;
            return Failed;
          }
          return Done;
      }
    }

    method CreateIfDead(w: World) returns (r: Outcome)
      requires Valid()
      modifies this, fuse
      ensures Valid() && fuse.acknowledged == old(fuse.acknowledged) && fuse.checks == old(fuse.checks)
      ensures r != Refused ==> fuse.state == old(fuse.state) && fuse.snap == old(fuse.snap)
      ensures r == Refused ==> fuse.state == Tripped || fuse.state == Fused
      ensures old(fuse.snap).Some? ==> fuse.snap == old(fuse.snap) && fuse.state == old(fuse.state)
      ensures running ==> old(running) || fuse.state == Disabled || fuse.state == Armed
      ensures old(running) ==> r == Failed && running && current == old(current)
      ensures !old(running) && w.aliveOk && HasTasks(w) && Starts(old(fuse.state), w, fuse.minAvailable) ==>
                r == Done && running && current == w.build.tasks
    {
      if present {
        if !w.aliveOk || running {
          return Failed;
        }
        Forget();
      }
      r := Create(w);
    }

    /** Changes the tasks of a running worker; only rings of new tasks are checked. */
    method ReloadConfig(w: World) returns (r: Outcome)
      requires Valid() && present
      modifies this, fuse
      ensures Valid() && fuse.acknowledged == old(fuse.acknowledged) && fuse.checks == old(fuse.checks)
      ensures r != Refused ==> fuse.state == old(fuse.state) && fuse.snap == old(fuse.snap)
      ensures r == Refused ==> fuse.state == Tripped || fuse.state == Fused
      ensures old(fuse.snap).Some? ==> fuse.snap == old(fuse.snap) && fuse.state == old(fuse.state)
      ensures running ==> old(running)
      ensures HasTasks(w) ==>
                (r == Done <==> w.reloadOk && w.limitOk && ReloadAllowed(old(current), old(fuse.state), w, fuse.minAvailable))
      ensures r == Done && HasTasks(w) ==> present && running == old(running) && current == w.build.tasks
      ensures HasTasks(w) && w.reloadOk && !w.limitOk && ReloadAllowed(old(current), old(fuse.state), w, fuse.minAvailable) ==>
                running == (old(running) && !w.stopOk)
      ensures w.build == Built([]) ==> (r == Done <==> w.stopOk) && (r == Done ==> !present && !running)
      ensures r == Done && current != old(current) && current != [] ==>
                w.build.Built? && current == w.build.tasks
                && (NewRingCfg(old(current), current) == 0 || fuse.state == Disabled
                    || (fuse.state == Armed
                        && EnoughFor(Alloc(NewRingCfg(old(current), current), RingCfg(current)), w, fuse.minAvailable)))
    {
      if w.build == BuildFailed {
        return Failed;
      }
      var tasks := w.build.tasks;
      if tasks == [] {
        var stopped := Stop(w);
        return if stopped then Done else Failed;
      }
      var newMb := NewRingCfg(current, tasks);
      if newMb > 0 {
        var allowed := Gate(Alloc(newMb, RingCfg(tasks)), w);
        if !allowed {
          return Refused;
        }
      }
      if !w.reloadOk {
        return Failed;
      }
      current := tasks;
      if !w.limitOk {
        running := running && !w.stopOk;
        return Failed;
      }
      return Done;
    }

    method Update(w: World) returns (r: Outcome)
      requires Valid()
      modifies this, fuse
      ensures Valid() && fuse.acknowledged == old(fuse.acknowledged) && fuse.checks == old(fuse.checks)
      ensures r != Refused ==> fuse.state == old(fuse.state) && fuse.snap == old(fuse.snap)
      ensures r == Refused ==> fuse.state == Tripped || fuse.state == Fused
      ensures old(fuse.snap).Some? ==> fuse.snap == old(fuse.snap) && fuse.state == old(fuse.state)
      ensures running ==> old(running) || fuse.state == Disabled || fuse.state == Armed
      ensures HasTasks(w) && Serves(policy, old(present), old(current), old(fuse.state), w, fuse.minAvailable) ==>
                r == Done && current == w.build.tasks && running == (policy == Restart || !old(present) || old(running))
      ensures w.build == Built([]) && w.stopOk ==> r == Done && !running
    {
      if policy == Restart {
        var stopped := Stop(w);
        if !stopped {
          return Failed;
        }
        r := Create(w);
      } else if !present {
        r := Create(w);
      } else {
        r := ReloadConfig(w);
      }
    }
  }

  /** Memory could not be read, or covers twice the new rings and the reserve; 64-bit arithmetic. */
  predicate EnoughFor(alloc: Alloc, w: World, minAvailable: nat) {
    w.memAvailable == None
    || w.memAvailable.value >= (2 * alloc.newMb % TWO64 + minAvailable) % TWO64
  }

  /** The startup check lets rings be opened: a disabled fuse always, an armed one if there is memory for them. */
  predicate Allows(state: State, alloc: Alloc, w: World, minAvailable: nat) {
    state == Disabled || (state == Armed && EnoughFor(alloc, w, minAvailable))
  }

  predicate HasTasks(w: World) { w.build.Built? && w.build.tasks != [] }

  predicate StartAllowed(state: State, w: World, minAvailable: nat) {
    w.build.Built? && Allows(state, Alloc(RingCfg(w.build.tasks), RingCfg(w.build.tasks)), w, minAvailable)
  }

  /** A start gets all the way to a running worker. */
  predicate Starts(state: State, w: World, minAvailable: nat) {
    StartAllowed(state, w, minAvailable) && w.start == Started && w.limitOk
  }

  predicate ReloadAllowed(current: seq<Task>, state: State, w: World, minAvailable: nat)
    requires w.build.Built?
  {
    var newMb := NewRingCfg(current, w.build.tasks);
    newMb == 0 || Allows(state, Alloc(newMb, RingCfg(w.build.tasks)), w, minAvailable)
  }

  /** An update goes through: the old worker stops and a new one starts, or the worker takes the new tasks. */
  predicate Serves(policy: Policy, present: bool, current: seq<Task>, state: State, w: World, minAvailable: nat)
    requires w.build.Built?
  {
    if policy == Restart || !present then (present ==> w.stopOk) && Starts(state, w, minAvailable)
    else w.reloadOk && w.limitOk && ReloadAllowed(current, state, w, minAvailable)
  }

  /** The strategy fields the fuse looks at. */
  datatype Strategy = Strategy(memFuseEnabled: bool, memFused: bool)

  /** What can happen to the daemon, one loop step at a time. */
  datatype Event =
    | StrategyChanged(strategy: Strategy, w: World)
    | StrategyUnchanged(items: nat, instancesChanged: bool, w: World)
    | FuseTick(w: World)
    | MetricTick(w: World)
    | Registered(idChanged: bool, w: World)
    | WorkerExited

  /** A tick completes a check: a worker runs for a known strategy, and memory could be read. */
  predicate Checks(haveStrategy: bool, running: bool, w: World) {
    haveStrategy && running && w.aliveOk && w.memAvailable.Some?
  }

  /** Every kill works and every liveness test answers. */
  predicate Dependable(e: Event) {
    e.WorkerExited? || (e.w.killOk && e.w.aliveOk)
  }

  class Syncer {
    const fuse: Fuse
    const manager: Manager
    var haveStrategy: bool
    /** A kill of this fuse round failed, or the worker could not be seen: it may still run. */
    ghost var escaped: bool

    /** At a loop boundary a tripped or fused daemon runs no worker, unless one escaped its kill. */
    ghost predicate Valid()
      reads this, fuse, manager
    {
      && manager.fuse == fuse && manager.Valid()
      && ((fuse.state == Tripped || fuse.state == Fused) && manager.running ==> escaped)
    }

    constructor (policy: Policy, minAvailable: nat, failThreshold: nat)
      requires failThreshold >= 1
      ensures Valid() && !escaped && fresh(fuse) && fresh(manager)
      ensures Now() == Moment(Disabled, [], false, false) && fuse.minAvailable == minAvailable && fuse.failThreshold == failThreshold
    {
      var f := new Fuse(minAvailable, failThreshold);
      fuse := f;
      manager := new Manager(policy, f);
      haveStrategy, escaped := false, false;
    }

    /** The snapshot of a fuse round stays the same until it is cleared. */
    twostate predicate KeepsSnapshot()
      reads this, fuse
    {
      old(fuse.snap).Some? ==> fuse.snap == old(fuse.snap)
    }

    /** Kills the worker and reports at once. */
    method Trip(w: World)
      requires manager.fuse == fuse && manager.Valid() && (fuse.state == Tripped || fuse.state == Fused)
      modifies this, fuse, manager
      ensures Valid() && fuse.snap == old(fuse.snap) && fuse.checks == old(fuse.checks)
      ensures fuse.state == Tripped || fuse.state == Fused
      ensures escaped ==> !w.killOk
      ensures haveStrategy == old(haveStrategy)
    {
      var killed := manager.Kill(w);
      escaped := !killed;
      SyncMetric(w);
    }

    /** Reports the fuse; only an acknowledged report of its own snapshot turns tripped into fused. */
    method SyncMetric(w: World)
      requires Valid()
      modifies fuse
      ensures Valid() && fuse.snap == old(fuse.snap) && fuse.checks == old(fuse.checks)
      ensures fuse.state == if old(fuse.state) == Tripped && w.ackOk then Fused else old(fuse.state)
      ensures fuse.state != old(fuse.state) ==> fuse.snap.Some? && fuse.snap.value in fuse.acknowledged
    {
      var entry := fuse.Report();
      if w.ackOk {
        var confirmed := fuse.OnReportAck(entry.1);
      }
    }

    /** A changed strategy. While tripped or fused its content waits; one that could not be applied is not remembered. */
    method ApplyChanged(strategy: Strategy, w: World) returns (ok: bool)
      requires Valid()
      modifies this, fuse, manager
      ensures Valid() && haveStrategy == (ok || old(haveStrategy))
      ensures !ok ==> old(fuse.state) != Tripped && !strategy.memFused
      ensures !ok ==> fuse.state == if strategy.memFuseEnabled then Armed else Disabled
      ensures old(fuse.state) == Tripped ==> fuse.state == Tripped && fuse.snap == old(fuse.snap)
      ensures strategy.memFused ==> fuse.state == Tripped || fuse.state == Fused
      ensures strategy.memFused ==> KeepsSnapshot()
      ensures escaped ==> old(escaped) || !w.killOk || !w.aliveOk
      ensures fuse.checks == if old(fuse.state) == Tripped || strategy.memFused then old(fuse.checks) else []
      ensures fuse.state == Armed ==> old(fuse.state) != Tripped && !strategy.memFused && strategy.memFuseEnabled
      ensures var fresh_ := if strategy.memFuseEnabled then Armed else Disabled;
        old(fuse.state) != Tripped && !strategy.memFused && HasTasks(w)
        && Serves(manager.policy, old(manager.present), old(manager.current), fresh_, w, fuse.minAvailable) ==>
          && ok && fuse.state == fresh_ && manager.current == w.build.tasks
          && manager.running == (manager.policy == Restart || !old(manager.present) || old(manager.running))
      ensures old(fuse.state) != Tripped && !strategy.memFused && w.build == Built([]) && w.stopOk ==> ok && !manager.running
    {
      var before := fuse.state;
      var apply := fuse.OnStrategy(strategy.memFuseEnabled, strategy.memFused);
      if !apply {
        if before != Tripped && before != Fused {
          // the fuse state comes from the server: stop a worker that is seen running
          if manager.running && !w.aliveOk {
            escaped := true;
          } else if manager.running {
            var killed := manager.Kill(w);
            escaped := !killed;
          } else {
            escaped := false;
          }
        }
        haveStrategy := true;
        return true;
      }
      escaped := false;
      var r := manager.Update(w);
      if r == Refused {
        Trip(w);
      }
      ok := r != Failed;
      haveStrategy := haveStrategy || ok;
    }

    /** The strategy is unchanged: a dead worker is started again, changed instances are applied. */
    method ApplyUnchanged(items: nat, instancesChanged: bool, w: World)
      requires Valid()
      modifies this, fuse, manager
      ensures Valid() && KeepsSnapshot() && haveStrategy == old(haveStrategy)
      ensures old(fuse.state) == Tripped || old(fuse.state) == Fused ==> fuse.state == old(fuse.state) && manager.running == old(manager.running)
      ensures escaped ==> old(escaped) || !w.killOk
      ensures fuse.checks == old(fuse.checks) && (fuse.state == Armed ==> old(fuse.state) == Armed)
      ensures (old(fuse.state) == Disabled || old(fuse.state) == Armed) && w.aliveOk && haveStrategy && HasTasks(w) ==>
                && (!old(manager.running) && items > 0 && Starts(old(fuse.state), w, fuse.minAvailable) ==>
                      manager.running && manager.current == w.build.tasks)
                && (old(manager.running) && instancesChanged
                    && Serves(manager.policy, true, old(manager.current), old(fuse.state), w, fuse.minAvailable) ==>
                      manager.running && manager.current == w.build.tasks)
    {
      if fuse.state == Tripped || fuse.state == Fused {
        return;
      }
      if !w.aliveOk {
        return;
      }
      var r := Done;
      if !manager.running && haveStrategy {
        if items == 0 {
          return;
        }
        r := manager.CreateIfDead(w);
      } else if haveStrategy && instancesChanged {
        r := manager.Update(w);
      }
      if r == Refused {
        Trip(w);
      }
    }

    /** One runtime check. */
    method OnFuseTick(w: World)
      requires Valid()
      modifies this, fuse, manager
      ensures Valid() && KeepsSnapshot() && haveStrategy == old(haveStrategy)
      ensures old(fuse.state) == Armed ==>
                (fuse.state != Armed <==> Checks(old(haveStrategy), old(manager.running), w) && LastFailed(fuse.checks, fuse.failThreshold))
      ensures fuse.checks == if old(fuse.state) == Armed && Checks(old(haveStrategy), old(manager.running), w)
                             then old(fuse.checks) + [w.memAvailable.value < fuse.minAvailable] else old(fuse.checks)
      ensures old(fuse.state) == Armed && fuse.state != Armed ==>
                && (fuse.state == Tripped || fuse.state == Fused) && fuse.snap.Some? && w.memAvailable.Some?
                && var s, r := fuse.snap.value, fuse.snap.value.reading;
                && s.reason == Runtime && s.fusedAt == w.now && r.memAvailable == w.memAvailable.value
                && r.workerRss == w.workerRss && r.memLimit == w.memLimit && r.nicBufferCfg == RingCfg(old(manager.current))
      ensures old(fuse.state) != Armed ==> fuse.state == old(fuse.state)
      ensures escaped ==> old(escaped) || !w.killOk
    {
      if fuse.state != Armed || !haveStrategy || !w.aliveOk || !manager.running || w.memAvailable == None {
        return;
      }
      var r := Reading(w.memAvailable.value, w.workerRss, RingCfg(manager.current), 0, w.memLimit);
      var tripped := fuse.OnCheck(r, w.now);
      if tripped {
        Trip(w);
      }
    }

    /** The daemon registered; under a new id the worker is stopped and the fuse starts afresh. */
    method Register(idChanged: bool, w: World)
      requires Valid()
      modifies this, fuse, manager
      ensures Valid()
      ensures old(haveStrategy) && idChanged ==> fuse.state == Disabled && fuse.snap == None && !haveStrategy
      ensures !(old(haveStrategy) && idChanged) ==> fuse.state == old(fuse.state) && fuse.snap == old(fuse.snap)
      ensures fuse.checks == if old(haveStrategy) && idChanged then [] else old(fuse.checks)
      ensures old(haveStrategy) && idChanged && w.stopOk ==> !manager.running
      ensures escaped ==> old(escaped)
    {
      if haveStrategy && idChanged {
        var stopped := manager.Stop(w);
        haveStrategy, escaped := false, false;
        fuse.Reset();
      }
    }

    method WorkerExits()
      requires Valid()
      modifies manager
      ensures Valid() && !manager.running
    {
      manager.running := false;
    }

    /** What the runtime check depends on. */
    ghost function Now(): Moment
      reads this, fuse, manager
    {
      Moment(fuse.state, fuse.checks, haveStrategy, manager.running)
    }

    method Step(e: Event)
      requires Valid()
      modifies this, fuse, manager
      ensures Valid() && (Dependable(e) && escaped ==> old(escaped))
      ensures Follows(e, old(Now()), Now(), fuse.minAvailable, fuse.failThreshold)
      ensures old(fuse.state) == Tripped && fuse.state == Fused ==>
                fuse.snap == old(fuse.snap) && fuse.snap.Some? && fuse.snap.value in fuse.acknowledged
      ensures old(fuse.snap).Some? && fuse.snap != old(fuse.snap) ==>
                (fuse.snap == None && e.Registered?)
                || (old(fuse.state) == Fused && e.StrategyChanged? && !e.strategy.memFused)
    {
      match e {
        case StrategyChanged(strategy, w) => var _ := ApplyChanged(strategy, w);
        case StrategyUnchanged(items, changed, w) => ApplyUnchanged(items, changed, w);
        case FuseTick(w) => OnFuseTick(w);
        case MetricTick(w) => SyncMetric(w);
        case Registered(idChanged, w) => Register(idChanged, w);
        case WorkerExited => WorkerExits();
      }
    }

    /**
      Over every run with working kills, a tripped or fused daemon runs no worker. `ms` is what the runtime
      check depends on, before each event and at the end.
     */
    method Run(events: seq<Event>) returns (ghost ms: seq<Moment>)
      requires Valid()
      modifies this, fuse, manager
      ensures Valid()
      ensures |ms| == |events| + 1 && ms[0] == old(Now()) && ms[|events|] == Now()
      ensures History(events, ms, fuse.minAvailable, fuse.failThreshold)
      ensures !old(escaped) && (forall i :: 0 <= i < |events| ==> Dependable(events[i])) ==>
                (fuse.state == Tripped || fuse.state == Fused ==> !manager.running)
    {
      ms := [Now()];
      for i := 0 to |events|
        invariant Valid()
        invariant !old(escaped) && (forall k :: 0 <= k < i ==> Dependable(events[k])) ==> !escaped
        invariant |ms| == i + 1 && ms[0] == old(Now()) && ms[i] == Now()
        invariant forall k :: 0 <= k < i ==> Follows(events[k], ms[k], ms[k + 1], fuse.minAvailable, fuse.failThreshold)
      {
        Step(events[i]);
        ms := ms + [Now()];
      }
    }
  }

  // ---- runtime trips in terms of the events ------------------------------------------------------------

  /** What the runtime check depends on at a loop boundary. */
  datatype Moment = Moment(state: State, checks: seq<bool>, haveStrategy: bool, running: bool)

  /** The event is a tick that completes a check. */
  ghost predicate Completes(e: Event, m: Moment) {
    e.FuseTick? && m.state == Armed && Checks(m.haveStrategy, m.running, e.w)
  }

  /** The event makes the fuse start afresh: an accepted strategy, or a new id. */
  ghost predicate Afresh(e: Event, m: Moment) {
    (e.StrategyChanged? && m.state != Tripped && !e.strategy.memFused) || (e.Registered? && m.haveStrategy && e.idChanged)
  }

  /** One event: checks are recorded as they are made, and the fuse is armed and tripped by nothing else. */
  ghost predicate Follows(e: Event, m: Moment, m': Moment, minAvailable: nat, failThreshold: nat) {
    && m'.checks == (if Completes(e, m) then m.checks + [e.w.memAvailable.value < minAvailable]
                     else if Afresh(e, m) then [] else m.checks)
    && (m'.state == Armed && m.state != Armed ==> Afresh(e, m) && e.StrategyChanged?)
    && (e.FuseTick? ==> (m.state == Armed && m'.state != Armed <==> Completes(e, m) && LastFailed(m'.checks, failThreshold)))
  }

  ghost predicate History(events: seq<Event>, ms: seq<Moment>, minAvailable: nat, failThreshold: nat)
    requires |ms| == |events| + 1
  {
    forall i :: 0 <= i < |events| ==> Follows(events[i], ms[i], ms[i + 1], minAvailable, failThreshold)
  }

  /** The available memory at the completed ticks among the first n events, since the fuse last started afresh. */
  ghost function Readings(events: seq<Event>, ms: seq<Moment>, n: nat): (rs: seq<nat>)
    requires |ms| == |events| + 1 && n <= |events|
  {
    if n == 0 then []
    else
      var e, m := events[n - 1], ms[n - 1];
      if Completes(e, m) then Readings(events, ms, n - 1) + [e.w.memAvailable.value]
      else if Afresh(e, m) then []
      else Readings(events, ms, n - 1)
  }

  lemma {:induction false} ChecksAreReadings(events: seq<Event>, ms: seq<Moment>, minAvailable: nat, failThreshold: nat, n: nat)
    requires |ms| == |events| + 1 && n <= |events| && History(events, ms, minAvailable, failThreshold) && ms[0].checks == []
    ensures |ms[n].checks| == |Readings(events, ms, n)|
    ensures forall i :: 0 <= i < |ms[n].checks| ==> (ms[n].checks[i] <==> Readings(events, ms, n)[i] < minAvailable)
  {
    if n > 0 {
      ChecksAreReadings(events, ms, minAvailable, failThreshold, n - 1);
      assert Follows(events[n - 1], ms[n - 1], ms[n], minAvailable, failThreshold);
    }
  }

  /**
    Over every run of a new daemon, a tick trips the fuse exactly when it completes a check and the last
    `failThreshold` completed ticks since the fuse was armed all found less than `minAvailable`.
   */
  lemma TripsExactlyWhen(events: seq<Event>, ms: seq<Moment>, minAvailable: nat, failThreshold: nat, i: nat)
    requires |ms| == |events| + 1 && i < |events| && History(events, ms, minAvailable, failThreshold) && ms[0].checks == []
    requires events[i].FuseTick?
    ensures ms[i].state == Armed && ms[i + 1].state != Armed
       <==> && Completes(events[i], ms[i])
            && var rs := Readings(events, ms, i + 1);
            failThreshold <= |rs| && forall j :: |rs| - failThreshold <= j < |rs| ==> rs[j] < minAvailable
  {
    ChecksAreReadings(events, ms, minAvailable, failThreshold, i + 1);
    assert Follows(events[i], ms[i], ms[i + 1], minAvailable, failThreshold);
  }
}
