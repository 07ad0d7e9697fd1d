/** Safety of hot reload over every run of the three threads. */
module ReloadTheorems {
  import opened Basics
  import opened TaskLists
  import opened ReloadModel
  import opened ReloadInvariant
  import opened ReloadHeapProofs
  import opened ReloadViewProofs
  import opened ReloadMainProofs
  import opened ReloadProofs

  lemma {:induction false} RunInv(run: seq<State>, n: nat)
    requires IsRun(run) && n < |run|
    ensures Inv(run[n])
  {
    hide Inv, Init, Step, Enabled;
    if n == 0 {
      InitInv(run[0]);
    } else {
      RunInv(run, n - 1);
      assert Next(run[n - 1], run[n]);
      var a :| Enabled(run[n - 1], a) && run[n] == Step(run[n - 1], a);
      StepInv(run[n - 1], a);
    }
  }

  // ---- use after free, leaks, unexpected messages ------------------------------------------------

  /**
    Nothing is used after it was freed or destroyed, nothing is destroyed twice, no mailbox is
    overwritten, no message is rewritten under its reader, no unexpected message arrives; every task
    that is polled, queued in the ring or being sent is alive.
   */
  lemma ReloadIsSafe(run: seq<State>, n: nat)
    requires IsRun(run) && n < |run|
    ensures run[n].faults == {}
    ensures run[n].mgr.tasks in run[n].heap.lists
    ensures TaskIds(LiveList(run[n])) + InFlight(run[n].ring, run[n].opc) <= run[n].heap.live
  {
    RunInv(run, n);
    PolledTasksLive(run[n]);
    FlightIsLive(run[n]);
  }

  /** Between reloads the capture tasks that exist are exactly those of the live list, and no object is leaked. */
  lemma IdleHasNoLeftovers(run: seq<State>, n: nat)
    requires IsRun(run) && n < |run| && run[n].phase.Idle?
    ensures var s := run[n];
            && s.heap.live == TaskIds(LiveList(s)) && UniqueTasks(LiveList(s)) && UniqueFingerprints(LiveList(s))
            && s.heap.lists.Keys == {s.mgr.tasks} && s.heap.errors.Keys == {s.mgr.errors}
            && (s.rpc.RIdle? ==> s.heap.configs.Keys == {s.mgr.config})
  {
    RunInv(run, n);
  }

  // ---- the message token -------------------------------------------------------------------------

  /** Everyone who has, or is about to pass on, the protocol's message. */
  ghost function Holders(s: State): set<Place> {
    (if s.mpc.MSend? then {AtMainSending} else {}) + (if s.mpc.MHandle? then {AtMain} else {}) +
    (if s.reloadMbox then {InReloadMbox} else {}) + (if s.mainMbox then {InMainMbox} else {}) +
    (if !ReloadRests(s.rpc) then {AtReload} else {})
  }

  /** One message at most is anywhere, and none exactly while idle; what reaches a handler fits the phase. */
  lemma SingleToken(run: seq<State>, n: nat)
    requires IsRun(run) && n < |run|
    ensures var s := run[n];
            && Holders(s) == (if s.phase.Idle? then {} else {PlaceOf(s)})
            && (s.mpc.MHandle? ==>
                  match s.phase
                  case Idle => false
                  case AwaitingSurvivors => s.reloadTx.RptSurvivors? || s.reloadTx == RptError(None)
                  case AwaitingNewTasks => s.reloadTx.RptNewTasks? || s.reloadTx == RptError(Some(s.attempt.base.tasks))
                  case AwaitingReclaim => s.reloadTx.RptReclaimed?)
            && (s.rpc.RDispatch? ==>
                  match s.phase
                  case Idle => false
                  case AwaitingSurvivors => s.mainTx == ReqPlan(s.mgr.tasks)
                  case AwaitingNewTasks => s.mainTx == ReqBuild(s.attempt.base.tasks)
                  case AwaitingReclaim => s.mainTx.ReqReclaim?)
  {
    RunInv(run, n);
    var s := run[n];
    hide Collected, Built, Undone, Failed, OnlyManaged, Committed, Reclaiming, Bounded, FlightInv, SurvivorsLive;
    assert Inv(s);
  }

  // ---- draining ----------------------------------------------------------------------------------

  /** What reclaim destroys: an old node without fingerprint, or whose fingerprint the new list does not name. */
  ghost predicate Doomed(w: Wrapper, l: seq<Wrapper>) { w.fp.None? || Find(w.fp, l).None? }

  /**
    Once the reload thread has seen the drain response, neither the ring nor the output thread holds a
    message for a task that reclaim destroys. A drain starts with both flags down and the output thread
    outside its drain loop, so the response seen always answers this reload's request.
   */
  lemma DrainIsComplete(run: seq<State>, n: nat)
    requires IsRun(run) && n < |run|
    ensures var s := run[n];
            && (s.rpc.RDrainSeen? || s.rpc.RReclaim? ==>
                  forall w :: w in s.attempt.tasks && Doomed(w, LiveList(s)) ==> w.task !in InFlight(s.ring, s.opc))
            && (s.rpc.RDrainRequest? ==> !s.drainRequest && !s.drainResponse && !Draining(s.opc) && !s.opc.ORespond?)
            && (s.drainResponse ==> s.rpc.RDrainWait? || s.rpc.RDrainSeen?)
  {
    RunInv(run, n);
    var s := run[n];
    if s.rpc.RDrainSeen? || s.rpc.RReclaim? {
      var a := s.attempt;
      assert InFlight(s.ring, s.opc) <= TaskIds(LiveList(s));
      forall w | w in a.tasks && Doomed(w, LiveList(s)) ensures w.task !in InFlight(s.ring, s.opc) {
        KeptOrDoomed(a.fps, a.tasks, a.made, w);
      }
    }
  }

  // ---- atomicity ---------------------------------------------------------------------------------

  /** Only survivors are polled between the two switches of the live list. */
  lemma OnlySurvivorsPolled(run: seq<State>, n: nat)
    requires IsRun(run) && n < |run| && run[n].phase.AwaitingNewTasks?
    ensures var s := run[n];
            UniqueTasks(LiveList(s)) && forall w :: w in LiveList(s) <==> w in s.attempt.tasks && w.fp in s.attempt.fps
  {
    RunInv(run, n);
    var s := run[n];
    assert GoodList(s.attempt.tasks) by { BuildHasGoodList(ViewOf(s)); }
    SurvivorsMembers(s.attempt.fps, s.attempt.tasks);
    SurvivorsUnique(s.attempt.fps, s.attempt.tasks);
  }

  lemma BuildHasGoodList(v: View)
    requires BuildInv(v) && v.place != Nowhere
    ensures GoodList(v.attempt.tasks) && UniqueConfig(v.attempt.fps)
  {
    hide GoodList;
  }

  /** A capture task is only created while no replaced task is polled. */
  lemma OldStopsBeforeNewStarts(run: seq<State>, n: nat)
    requires IsRun(run) && n + 1 < |run| && !(run[n + 1].heap.live <= run[n].heap.live)
    ensures run[n].phase.AwaitingNewTasks?
    ensures forall w :: w in LiveList(run[n]) ==> w in run[n].attempt.tasks && w.fp in run[n].attempt.fps
  {
    StepRecord(run, n + 1);
    RunInv(run, n);
    assert run[n].rpc.RBuild?;
    hide PhaseInv, FlightInv, Init, Next;
    OnlySurvivorsPolled(run, n);
  }

  /** What every step of a run leaves on record. */
  lemma StepRecord(run: seq<State>, n: nat)
    requires IsRun(run) && 0 < n < |run|
    ensures var s, r := run[n - 1], run[n];
            Leaves(s, r)
  {
    hide Inv, Step, Enabled, Init, Quiet;
    RunInv(run, n - 1);
    assert Next(run[n - 1], run[n]);
    var a :| Enabled(run[n - 1], a) && run[n] == Step(run[n - 1], a);
    StepInv(run[n - 1], a);
  }

  /** While a reload is under way, what it started from stays on record. */
  lemma {:induction false} AttemptStays(run: seq<State>, from: nat, n: nat)
    requires IsRun(run) && from < n < |run| && run[from].phase.Idle?
    requires forall k :: from < k < n ==> !run[k].phase.Idle?
    requires !run[from + 1].phase.Idle?
    ensures var s, a := run[from], run[n].attempt;
            && a.base == s.mgr && a.tasks == LiveList(s)
            && a.config == ConfigAt(s.heap, s.mgr.config) && a.errors == ErrorsAt(s.heap, s.mgr.errors)
  {
    hide Inv, Step, Enabled, Init;
    StepRecord(run, n);
    if n == from + 1 {
      assert Starts(run[from], run[n]);
    } else {
      AttemptStays(run, from, n - 1);
    }
  }

  /** The state after `s'` is what a completed reload of configuration `fps` makes of `s`. */
  ghost predicate Reloaded(s: State, s': State, fps: seq<Option<Fingerprint>>, made: seq<Option<nat>>) {
    && AllFingerprinted(fps) && UniqueConfig(fps) && |made| == |fps| && FreshlyMade(LiveList(s), made)
    && ConfigAt(s'.heap, s'.mgr.config) == fps
    && LiveList(s') == BuildOf(fps, LiveList(s), made)
    && ErrorsAt(s'.heap, s'.mgr.errors) == ErrorsOf(fps, LiveList(s), made)
  }

  /** Nothing changed: same list, configuration and errors, by identity and by content. */
  ghost predicate RolledBack(s: State, s': State) {
    && s'.mgr == s.mgr && LiveList(s') == LiveList(s)
    && ConfigAt(s'.heap, s'.mgr.config) == ConfigAt(s.heap, s.mgr.config)
    && ErrorsAt(s'.heap, s'.mgr.errors) == ErrorsAt(s.heap, s.mgr.errors)
  }

  /** Some state after `from`, up to n, awaits reclaim: the new list took over. */
  ghost predicate TookOver(run: seq<State>, from: nat, n: nat)
    requires n < |run|
  {
    exists k :: from < k <= n && run[k].phase.AwaitingReclaim?
  }

  /** Between `from` and n the reload thread read the configuration `fps`. */
  ghost predicate ReadIn(run: seq<State>, from: nat, n: nat, fps: seq<Option<Fingerprint>>)
    requires n < |run|
  {
    exists k :: from < k < n && Reads(run[k], run[k + 1]) && run[k + 1].attempt.fps == fps
  }

  /** While a reload is under way, the record says whether the new list took over and what was read. */
  lemma {:induction false} RecordIsTrue(run: seq<State>, from: nat, n: nat)
    requires IsRun(run) && from < n < |run| && run[from].phase.Idle?
    requires forall k :: from < k < n ==> !run[k].phase.Idle?
    requires !run[from + 1].phase.Idle?
    ensures run[n].attempt.done <==> TookOver(run, from, n)
    ensures run[n].attempt.read ==> ReadIn(run, from, n, run[n].attempt.fps)
  {
    hide Inv, Step, Enabled, Init, Reads;
    StepRecord(run, n);
    if n == from + 1 {
      assert Starts(run[from], run[n]);
    } else {
      RecordIsTrue(run, from, n - 1);
      NextOnRecord(run[n - 1], run[n]);
    }
  }

  lemma NextOnRecord(s: State, r: State)
    requires Leaves(s, r) && !s.phase.Idle?
    ensures r.attempt.done <==> s.attempt.done || r.phase.AwaitingReclaim?
    ensures SamePlan(s.attempt, r.attempt) || Reads(s, r)
  {
  }

  /**
    From the state in which a reload starts to the next idle state, all of it happened or none of it. All
    of it happened exactly when the protocol came to await reclaim, and then for the configuration that the
    reload thread read in this reload.
   */
  lemma ReloadIsAtomic(run: seq<State>, from: nat, to: nat)
    requires IsRun(run) && from + 1 < to < |run|
    requires run[from].phase.Idle? && run[to].phase.Idle?
    requires forall k :: from < k < to ==> !run[k].phase.Idle?
    ensures var s, s', a := run[from], run[to], run[to].attempt;
            if TookOver(run, from, to) then Reloaded(s, s', a.fps, a.made) && ReadIn(run, from, to, a.fps)
            else RolledBack(s, s')
  {
    hide Init, Next, Reads;
    assert !run[from + 1].phase.Idle?;
    AttemptStays(run, from, to);
    RecordIsTrue(run, from, to);
    RunInv(run, to);
    IdleMeans(run[to]);
  }

  /** The record of an idle protocol says which of the two holds. */
  lemma IdleMeans(s: State)
    requires Inv(s) && s.phase.Idle?
    ensures if s.attempt.done then s.attempt.read && Committed(s.heap, s.mgr, s.attempt) else Unchanged(s.heap, s.mgr, s.attempt)
  {
    hide OnlyManaged, FlightInv, Bounded;
  }

  /**
    What a completed reload means: the list follows configuration order, every entry is either in it
    or reported as failed, a kept fingerprint keeps its capture task, and any other node got a new one.
   */
  lemma ReloadedMeans(s: State, s': State, fps: seq<Option<Fingerprint>>, made: seq<Option<nat>>)
    requires Reloaded(s, s', fps, made) && UniqueTasks(LiveList(s)) && UniqueFingerprints(LiveList(s))
    ensures InConfigOrder(LiveList(s')) && |LiveList(s')| + |ErrorsAt(s'.heap, s'.mgr.errors)| == |fps|
    ensures ErrorsInOrder(ErrorsAt(s'.heap, s'.mgr.errors))
    ensures forall e :: e in ErrorsAt(s'.heap, s'.mgr.errors) <==> NeitherKeptNorMade(e, fps, LiveList(s), made)
    ensures forall w :: w in LiveList(s) && w.fp.Some? && w.fp in fps ==>
              Find(w.fp, LiveList(s')).Some? && Find(w.fp, LiveList(s')).value.task == w.task
    ensures forall w :: w in LiveList(s') ==>
              && 0 <= w.index < |fps| && w.fp == fps[w.index]
              && (w.task in TaskIds(LiveList(s)) <==> Find(w.fp, LiveList(s)).Some?)
  {
    var prev, l := LiveList(s), LiveList(s');
    BuildOrder(fps, prev, made);
    BuildMembers(fps, prev, made);
    BuildAccountsForAll(fps, prev, made);
    ErrorsAre(fps, prev, made);
    forall w | w in prev && w.fp.Some? && w.fp in fps
      ensures Find(w.fp, l).Some? && Find(w.fp, l).value.task == w.task
    {
      FindIsUnique(prev, w);
      var i :| 0 <= i < |fps| && fps[i] == w.fp;
      assert Wrapper(i, fps[i], w.task) in l;
      KeptOrDoomed(fps, prev, made, w);
    }
  }
}
