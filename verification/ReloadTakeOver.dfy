/**
  What a reload does is decided by what its actions report: whether it takes over, which configuration it
  loads, and which of its entries get a new capture task.
 */
module ReloadTakeOver {
  import opened Basics
  import opened TaskLists
  import opened ReloadModel
  import opened ReloadInvariant
  import opened ReloadProofs
  import opened ReloadFrames
  import opened ReloadTheorems
  import opened ReloadOutcome
  import opened ReloadWorkViews

  /** A reload starts at `from`, and at n it is still under way or has just ended. */
  ghost predicate During(run: seq<State>, acts: seq<Action>, from: nat, n: nat) {
    && IsTrace(run, acts) && from < n < |run| && run[from].phase.Idle? && !run[from + 1].phase.Idle?
    && forall k :: from < k < n ==> !run[k].phase.Idle?
  }

  /** No action from `from` on, before n, stopped the reload. */
  ghost predicate Unstopped(run: seq<State>, acts: seq<Action>, from: nat, n: nat)
    requires |run| == |acts| + 1 && n < |run|
  {
    forall k :: from <= k < n ==> !Stops(run[k], acts[k])
  }

  lemma IdleStays(s: State, a: Action)
    requires TokenInv(s) && s.phase.Idle? && Enabled(s, a) && !a.AMainTry?
    ensures Step(s, a).phase.Idle?
  {
    if a.APollDeliver? {
      DeliverOnlyPolls(s);
    }
    if a.AReloadTail? && s.rpc.tail.TFreeConfig? {
      FreeConfigOnlyFrees(s, s.ctx.newConfig.value);
    }
    if OutputStep(a) {
      hide Step;
      OutputOnlyPolls(s, a);
    } else {
      hide PollDeliver, LiveList, FreeConfig;
    }
  }

  lemma TryStarts(s: State)
    requires TokenInv(s) && s.phase.Idle? && s.mpc.MTry? && s.signal
    ensures MainTry(s).phase.AwaitingSurvivors? && !Failing(MainTry(s))
  {
    hide LiveList;
  }

  lemma StartStopsNothing(s: State, a: Action)
    requires Inv(s) && s.phase.Idle? && Enabled(s, a) && !Step(s, a).phase.Idle?
    ensures a.AMainTry? && s.signal && !Stops(s, a) && Step(s, a).phase.AwaitingSurvivors? && !Failing(Step(s, a))
  {
    hide PhaseInv, FlightInv, Bounded, DrainInv, TokenInv, Failing;
    if a.AMainTry? {
      if s.signal {
        TryStarts(s);
      }
    } else {
      hide Step, Enabled;
      IdleStays(s, a);
    }
  }

  lemma ReclaimStopsNothing(s: State, a: Action)
    requires Inv(s) && s.phase.AwaitingReclaim? && Enabled(s, a)
    ensures !Stops(s, a)
  {
    hide Committed, Reclaiming, OnlyManaged, FlightInv, Bounded, DrainInv, Step;
  }

  /** Once the new list took over, the reload ends in idle and in nothing else. */
  lemma ReclaimLeadsToIdle(s: State, a: Action)
    requires Inv(s) && s.phase.AwaitingReclaim? && Enabled(s, a)
    ensures Step(s, a).phase.Idle? || Step(s, a).phase.AwaitingReclaim?
  {
    hide Step, Enabled, PhaseInv, FlightInv, Bounded, DrainInv, TokenInv, Reads;
    StepInv(s, a);
    assert Recorded(s.phase, s.attempt);
  }

  /** Up to any point of a reload: it took over, or it is failing exactly if some action stopped it. */
  lemma {:induction false} OutcomeSoFar(run: seq<State>, acts: seq<Action>, from: nat, n: nat)
    requires During(run, acts, from, n)
    ensures match run[n].phase
            case AwaitingReclaim => TookOver(run, from, n) && Unstopped(run, acts, from, n)
            case Idle => TookOver(run, from, n) <==> Unstopped(run, acts, from, n)
            case _ => !TookOver(run, from, n) && (Failing(run[n]) <==> !Unstopped(run, acts, from, n))
  {
    hide Inv, Step, Enabled, Init, Stops, Failing;
    TraceIsRun(run, acts);
    var s, a := run[n - 1], acts[n - 1];
    RunInv(run, n - 1);
    assert Enabled(s, a) && run[n] == Step(s, a);
    if n == from + 1 {
      StartStopsNothing(s, a);
    } else {
      OutcomeSoFar(run, acts, from, n - 1);
      if s.phase.AwaitingReclaim? {
        ReclaimStopsNothing(s, a);
        ReclaimLeadsToIdle(s, a);
      } else {
        StepDecides(s, a);
      }
    }
  }

  /** A reload takes over exactly when none of its actions stopped it. */
  lemma TakesOverExactlyWhen(run: seq<State>, acts: seq<Action>, from: nat, to: nat)
    requires During(run, acts, from, to) && run[to].phase.Idle?
    ensures TookOver(run, from, to) <==> Unstopped(run, acts, from, to)
  {
    hide Init, Step, Enabled, Stops;
    OutcomeSoFar(run, acts, from, to);
  }

  /** If no action reports a bad outcome, the reload takes over. */
  lemma GoodReloadsTakeOver(run: seq<State>, acts: seq<Action>, from: nat, to: nat)
    requires During(run, acts, from, to) && run[to].phase.Idle?
    requires forall k :: from <= k < to ==> Favourable(acts[k])
    ensures TookOver(run, from, to)
  {
    hide Init, Step, Enabled;
    TakesOverExactlyWhen(run, acts, from, to);
  }

  // ---- which configuration -------------------------------------------------------------------------

  /** The other threads leave the reload thread where it is, and what it made. */
  lemma OthersKeepRpc(s: State, a: Action)
    requires Inv(s) && !s.phase.Idle? && Enabled(s, a) && (MainStep(a) || OutputStep(a))
    ensures Step(s, a).rpc == s.rpc && Step(s, a).attempt.made == s.attempt.made
  {
    hide Step, Inv, Enabled;
    if OutputStep(a) {
      OutputOnlyPolls(s, a);
    } else if a.APollDeliver? {
      PollsOnlyPoll(s, a);
    } else {
      MainFrame(s, a);
    }
  }

  lemma ParsingMovesOn(s: State, fps: seq<Option<Fingerprint>>)
    requires s.rpc.RParse?
    ensures !ReloadParse(s, Some(fps), true).rpc.RParse?
  {
    hide AllFingerprinted;
  }

  /** Only parsing puts a configuration on record. */
  lemma OnlyParsingReads(s: State, a: Action)
    requires Inv(s) && !s.phase.Idle? && Enabled(s, a) && !a.AReloadParse?
    ensures SamePlan(s.attempt, Step(s, a).attempt)
  {
    hide Step, PhaseInv, FlightInv, Bounded, DrainInv, TokenInv, Leaves, ReloadParse;
    StepInv(s, a);
    var r := Step(s, a);
    NextOnRecord(s, r);
    if s.rpc.RParse? {
      ParsingMovesOn(s, r.attempt.fps);
      OthersKeepRpc(s, a);
    }
  }

  /** An action of the reload reads this configuration. */
  ghost predicate Loads(acts: seq<Action>, from: nat, n: nat, fps: seq<Option<Fingerprint>>)
    requires n <= |acts|
  {
    exists k :: from < k < n && acts[k] == AReloadParse(Some(fps), true)
  }

  lemma ParsingReads(s: State, a: Action)
    requires a.AReloadParse? && Enabled(s, a)
    ensures var r := Step(s, a).attempt;
      if Stops(s, a) then SamePlan(s.attempt, r) else r.read && a == AReloadParse(Some(r.fps), true)
  {
    hide AllFingerprinted, UniqueConfig;
  }

  lemma {:induction false} LoadedSoFar(run: seq<State>, acts: seq<Action>, from: nat, n: nat)
    requires During(run, acts, from, n)
    ensures run[n].attempt.read ==> Loads(acts, from, n, run[n].attempt.fps)
  {
    hide Inv, Step, Enabled, Init, Stops;
    TraceIsRun(run, acts);
    var s, a := run[n - 1], acts[n - 1];
    RunInv(run, n - 1);
    assert Enabled(s, a) && run[n] == Step(s, a);
    StepRecord(run, n);
    if n == from + 1 {
      assert Starts(s, run[n]);
    } else {
      LoadedSoFar(run, acts, from, n - 1);
      if a.AReloadParse? {
        ParsingReads(s, a);
      } else {
        OnlyParsingReads(s, a);
      }
    }
  }

  // ---- which entries get a capture task --------------------------------------------------------------

  /** The build of this reload has begun and is not being given up. */
  ghost predicate Building(s: State) {
    || s.phase.AwaitingReclaim?
    || (s.phase.AwaitingNewTasks? && !Failing(s) && (s.rpc.RBuild? || s.rpc.RWrite? || s.rpc.RSend? || s.mainMbox || s.mpc.MHandle?))
  }

  lemma ReclaimKeepsMade(s: State)
    requires Inv(s) && s.rpc.RReclaim? && s.mainTx.ReqReclaim? && s.ctx.old_.Some?
    ensures ReclaimStep(s).attempt == s.attempt
  {
    hide IdleInv, PlanInv, BuildInv, ReclaimInv, Bounded, FlightInv, DrainInv;
    ReclaimSteps(ViewOf(s));
  }

  lemma WriteKeepsMade(s: State)
    requires s.rpc.RWrite?
    ensures ReloadWrite(s).attempt == s.attempt
  {
  }

  lemma SendKeepsMade(s: State)
    requires s.rpc.RSend?
    ensures ReloadSend(s).attempt == s.attempt
  {
  }

  /** Only building changes the record of what was made, once it has begun. */
  lemma OnlyBuildingMakes(s: State, a: Action)
    requires Inv(s) && Building(s) && Enabled(s, a) && !a.ABuild?
    ensures Step(s, a).attempt.made == s.attempt.made
  {
    hide Committed, Reclaiming, OnlyManaged, FlightInv, Bounded, DrainInv, Built, Failed, SurvivorsLive, Collected;
    if MainStep(a) || OutputStep(a) {
      hide Step, PhaseInv;
      OthersKeepRpc(s, a);
    } else {
      hide ReclaimStep, ReloadTail, ReloadWrite, ReloadSend;
      match a {
        case AReclaim => ReclaimKeepsMade(s);
        case AReloadTail => Tidied(s);
        case AReloadWrite => WriteKeepsMade(s);
        case AReloadSend => SendKeepsMade(s);
        case _ =>
      }
    }
  }

  lemma DispatchBegins(s: State, listOk: bool, errsOk: bool)
    requires Inv(s) && Pending(s.phase) && s.rpc.RDispatch?
    ensures var r := ReloadDispatch(s, listOk, errsOk); Building(r) ==> r.attempt.made == []
  {
    hide IdleInv, PlanInv, BuildInv, ReclaimInv, Bounded, FlightInv, DrainInv;
    if s.phase.AwaitingSurvivors? {
      PlanDispatched(ViewOf(s));
    } else {
      BuildDispatched(ViewOf(s));
    }
  }

  /** The survivors were reported, and the main thread asks for the build. */
  lemma HandleAsksForBuild(s: State)
    requires Inv(s) && s.phase.AwaitingSurvivors? && s.mpc.MHandle?
    ensures !Building(MainHandle(s))
  {
    hide Collected, OnlyManaged, FlightInv, Bounded, DrainInv;
  }

  /** Until the reload thread has the request to build, nothing is built. */
  lemma WaitsForBuild(s: State, a: Action)
    requires Inv(s) && s.phase.AwaitingNewTasks? && !Building(s) && !Failing(s) && Enabled(s, a) && !a.AReloadDispatch?
    ensures !Building(Step(s, a))
  {
    hide FlightInv, Bounded, DrainInv, Collected, Built, Undone, Failed, SurvivorsLive;
    if OutputStep(a) {
      hide Step;
      OutputOnlyPolls(s, a);
    } else if a.AReloadReceive? || a.AMainReceive? {
    } else {
      assert !a.AMainHandle?;
      hide Step;
      PollsOnlyPoll(s, a);
    }
  }

  /** Before the build, no entry is being built; the build begins with nothing made. */
  lemma BuildBegins(s: State, a: Action)
    requires Inv(s) && Pending(s.phase) && !Building(s) && !Failing(s) && Enabled(s, a)
    ensures !a.ABuild? && (Building(Step(s, a)) ==> Step(s, a).attempt.made == [])
  {
    hide PhaseInv, FlightInv, Bounded, DrainInv, ReloadDispatch, MainHandle;
    if a.AReloadDispatch? {
      DispatchBegins(s, a.listOk, a.errsOk);
    } else if a.AMainHandle? {
      HandleAsksForBuild(s);
    } else {
      hide Step;
      StepDecides(s, a);
      if s.phase.AwaitingNewTasks? {
        WaitsForBuild(s, a);
      }
    }
  }

  /** The reload thread built entry i and its capture task could be created. */
  ghost predicate CreatedFor(run: seq<State>, acts: seq<Action>, from: nat, n: nat, i: nat)
    requires |run| == |acts| + 1 && n < |run|
  {
    exists k :: from < k < n && acts[k] == ABuild(true, true) && run[k].rpc.RBuild? && run[k].rpc.i == i
  }

  /** Entries are built one after the other: those on record, and then the end of the configuration. */
  ghost predicate InTurn(run: seq<State>, acts: seq<Action>, from: nat, n: nat, made: nat, all: nat)
    requires |run| == |acts| + 1 && n < |run|
  {
    forall k :: from < k < n && acts[k].ABuild? ==> run[k].rpc.RBuild? && (run[k].rpc.i < made || run[k].rpc.i >= all)
  }

  /** What is on record as made is what was created for the entries that needed it. */
  ghost predicate MadeAsCreated(run: seq<State>, acts: seq<Action>, from: nat, n: nat, t: Attempt)
    requires |run| == |acts| + 1 && n < |run|
  {
    && |t.made| <= |t.fps| && AllFingerprinted(t.fps)
    && forall i :: 0 <= i < |t.made| ==>
         (t.made[i].Some? <==> CreatedFor(run, acts, from, n, i) && Find(t.fps[i], t.tasks).None?)
  }

  lemma CreatedGrows(run: seq<State>, acts: seq<Action>, from: nat, n: nat, i: nat)
    requires |run| == |acts| + 1 && from < n < |acts|
    ensures CreatedFor(run, acts, from, n + 1, i)
       <==> CreatedFor(run, acts, from, n, i) || (acts[n] == ABuild(true, true) && run[n].rpc.RBuild? && run[n].rpc.i == i)
  {
  }

  lemma BuildIndex(s: State)
    requires Inv(s) && s.rpc.RBuild?
    ensures s.phase.AwaitingNewTasks? && s.ctx.current.Some? && s.ctx.newConfig.Some?
    ensures s.rpc.i == |s.attempt.made| <= |s.attempt.fps| && AllFingerprinted(s.attempt.fps)
  {
    hide FlightInv, Bounded, DrainInv, IdleInv, PlanInv, ReclaimInv, SurvivorsLive;
  }

  /** One more entry on record, as its action says. */
  lemma OneMoreEntry(run: seq<State>, acts: seq<Action>, from: nat, n: nat, t: Attempt, u: Attempt)
    requires |run| == |acts| + 1 && from < n < |acts| && acts[n].ABuild? && acts[n].nodeOk && run[n].rpc.RBuild?
    requires MadeAsCreated(run, acts, from, n, t) && InTurn(run, acts, from, n, |t.made|, |t.fps|)
    requires run[n].rpc.i == |t.made| < |t.fps| && u.fps == t.fps && u.tasks == t.tasks
    requires |u.made| == |t.made| + 1 && u.made[..|t.made|] == t.made
    requires u.made[|t.made|].Some? <==> acts[n].created && Find(t.fps[|t.made|], t.tasks).None?
    ensures MadeAsCreated(run, acts, from, n + 1, u) && InTurn(run, acts, from, n + 1, |u.made|, |u.fps|)
  {
    hide Find;
    forall i | 0 <= i < |u.made|
      ensures u.made[i].Some? <==> CreatedFor(run, acts, from, n + 1, i) && Find(u.fps[i], u.tasks).None?
    {
      CreatedGrows(run, acts, from, n, i);
      if i < |t.made| {
        assert u.made[i] == u.made[..|t.made|][i];
      } else {
        assert !CreatedFor(run, acts, from, n, i);
      }
    }
  }

  /** A step that makes nothing keeps the record right. */
  lemma NoMoreEntries(run: seq<State>, acts: seq<Action>, from: nat, n: nat, t: Attempt, u: Attempt)
    requires |run| == |acts| + 1 && from < n < |acts|
    requires acts[n].ABuild? ==> run[n].rpc.RBuild? && run[n].rpc.i >= |t.fps|
    requires MadeAsCreated(run, acts, from, n, t) && InTurn(run, acts, from, n, |t.made|, |t.fps|)
    requires u.fps == t.fps && u.tasks == t.tasks && u.made == t.made
    ensures MadeAsCreated(run, acts, from, n + 1, u) && InTurn(run, acts, from, n + 1, |u.made|, |u.fps|)
  {
    hide Find;
    forall i | 0 <= i < |u.made|
      ensures u.made[i].Some? <==> CreatedFor(run, acts, from, n + 1, i) && Find(u.fps[i], u.tasks).None?
    {
      CreatedGrows(run, acts, from, n, i);
    }
  }

  lemma HandleEndsBuild(s: State)
    requires s.phase.AwaitingNewTasks? && s.mpc.MHandle?
    ensures MainHandle(s).phase.Idle? || MainHandle(s).phase.AwaitingReclaim?
  {
  }

  lemma ReportGoesOn(s: State, a: Action)
    requires Inv(s) && s.phase.AwaitingNewTasks? && Building(s) && Enabled(s, a)
    requires a.AReloadWrite? || a.AReloadSend? || a.AMainReceive? || a.AReloadTail? || a.AReloadReceive?
    ensures var r := Step(s, a); Building(r) || Failing(r)
  {
    hide PhaseInv, FlightInv, Bounded, DrainInv, FreeConfig;
    if a.AReloadTail? && s.rpc.tail.TFreeConfig? {
      FreeConfigOnlyFrees(s, s.ctx.newConfig.value);
    }
  }

  /** A build that has begun goes on, fails or ends. */
  lemma BuildingGoesOn(s: State, a: Action)
    requires Inv(s) && s.phase.AwaitingNewTasks? && Building(s) && Enabled(s, a)
    ensures var r := Step(s, a); Building(r) || Failing(r) || r.phase.Idle?
  {
    hide PhaseInv, FlightInv, Bounded, DrainInv, MainHandle, BuildStep;
    if OutputStep(a) {
      hide Step;
      OutputOnlyPolls(s, a);
    } else if a.AMainHandle? {
      HandleEndsBuild(s);
    } else if a.ABuild? {
      BuildingMoves(s, a.created, a.nodeOk);
    } else if a.AReloadWrite? || a.AReloadSend? || a.AMainReceive? || a.AReloadTail? || a.AReloadReceive? {
      hide Step;
      ReportGoesOn(s, a);
    } else {
      hide Step;
      PollsOnlyPoll(s, a);
    }
  }

  ghost predicate NoBuilds(acts: seq<Action>, from: nat, n: nat)
    requires n <= |acts|
  {
    forall k :: from < k < n ==> !acts[k].ABuild?
  }

  /** The record at n is right. */
  ghost predicate RightlyMade(run: seq<State>, acts: seq<Action>, from: nat, n: nat)
    requires |run| == |acts| + 1 && n < |run|
  {
    var t := run[n].attempt;
    MadeAsCreated(run, acts, from, n, t) && InTurn(run, acts, from, n, |t.made|, |t.fps|)
  }

  /** A step of a build that has begun keeps the record right, unless the build is given up. */
  lemma BuildRecord(run: seq<State>, acts: seq<Action>, from: nat, n: nat)
    requires During(run, acts, from, n + 1) && from < n && Building(run[n]) && RightlyMade(run, acts, from, n)
    ensures RightlyMade(run, acts, from, n + 1) || Failing(run[n + 1])
  {
    hide Inv, Init, Step, Enabled, MadeAsCreated, InTurn, BuildStep;
    TraceIsRun(run, acts);
    var s, a, r := run[n], acts[n], run[n + 1];
    assert Enabled(s, a) && r == Step(s, a);
    RunInv(run, n);
    AttemptStays(run, from, n);
    AttemptStays(run, from, n + 1);
    NotParsing(s, a);
    OnlyParsingReads(s, a);
    if a.ABuild? {
      BuildActs(s, a);
      BuildIndex(s);
      if s.rpc.i >= |s.attempt.fps| {
        BuildEnds(s, a.created, a.nodeOk);
        NoMoreEntries(run, acts, from, n, s.attempt, r.attempt);
      } else if a.nodeOk {
        BuildEntry(s, a.created);
        OneMoreEntry(run, acts, from, n, s.attempt, r.attempt);
      } else {
        BuildIsGivenUp(s, a.created);
      }
    } else {
      OnlyBuildingMakes(s, a);
      NoMoreEntries(run, acts, from, n, s.attempt, r.attempt);
    }
  }

  lemma BuildActs(s: State, a: Action)
    requires Enabled(s, a) && a.ABuild?
    ensures s.rpc.RBuild? && s.ctx.current.Some? && s.ctx.newConfig.Some? && Step(s, a) == BuildStep(s, a.created, a.nodeOk)
  {
    hide BuildStep;
  }

  lemma NotParsing(s: State, a: Action)
    requires Inv(s) && Building(s) && Enabled(s, a)
    ensures !a.AReloadParse? && !s.phase.Idle?
  {
    hide PhaseInv, FlightInv, Bounded, DrainInv;
  }

  lemma FirstEntryIsNext(run: seq<State>, acts: seq<Action>, from: nat, n: nat)
    requires |run| == |acts| + 1 && n < |run| && NoBuilds(acts, from, n)
    requires run[n].attempt.made == [] && AllFingerprinted(run[n].attempt.fps)
    ensures RightlyMade(run, acts, from, n)
  {
  }

  lemma BuildingHasPlan(s: State)
    requires Inv(s) && Building(s)
    ensures AllFingerprinted(s.attempt.fps)
  {
    hide FlightInv, Bounded, DrainInv, Reclaiming, OnlyManaged;
  }

  lemma ReclaimDoesNotFail(s: State)
    requires Inv(s) && (s.phase.AwaitingReclaim? || s.phase.Idle?)
    ensures !Failing(s)
  {
    hide FlightInv, Bounded, DrainInv, Reclaiming, OnlyManaged, Committed;
  }

  /** Up to any point of a reload: nothing was built yet, or what was built is rightly on record. */
  lemma {:induction false} MadeSoFar(run: seq<State>, acts: seq<Action>, from: nat, n: nat)
    requires During(run, acts, from, n)
    ensures Building(run[n]) || (run[n].phase.Idle? && TookOver(run, from, n)) ==> RightlyMade(run, acts, from, n)
    ensures Pending(run[n].phase) && !Building(run[n]) && !Failing(run[n]) ==> NoBuilds(acts, from, n)
  {
    hide Inv, Init, Step, Enabled, Stops, RightlyMade;
    TraceIsRun(run, acts);
    var s, a, r := run[n - 1], acts[n - 1], run[n];
    assert Enabled(s, a) && r == Step(s, a);
    RunInv(run, n - 1);
    RunInv(run, n);
    if n == from + 1 {
      StartStopsNothing(s, a);
    } else {
      MadeSoFar(run, acts, from, n - 1);
      OutcomeSoFar(run, acts, from, n - 1);
      if s.phase.AwaitingReclaim? {
        ReclaimLeadsToIdle(s, a);
        BuildRecord(run, acts, from, n - 1);
        ReclaimDoesNotFail(r);
      } else if Failing(s) {
        hide Failing;
        StepDecides(s, a);
      } else if Building(s) {
        hide Failing;
        StepDecides(s, a);
        BuildRecord(run, acts, from, n - 1);
        BuildingGoesOn(s, a);
        if r.phase.AwaitingReclaim? {
          ReclaimDoesNotFail(r);
        }
      } else {
        hide Failing;
        StepDecides(s, a);
        BuildBegins(s, a);
        if Building(r) {
          BuildingHasPlan(r);
          FirstEntryIsNext(run, acts, from, n);
        }
      }
    }
  }

  /**
    What a reload does, from its actions alone. It takes over exactly when none of them stopped it. Then the
    live list, the configuration and the errors are those of a configuration that an action read, and a new
    capture task stands for exactly those entries without an old one for which an action created it.
   */
  lemma ReloadFollowsItsActions(run: seq<State>, acts: seq<Action>, from: nat, to: nat)
    requires During(run, acts, from, to) && from + 1 < to && run[to].phase.Idle?
    ensures TookOver(run, from, to) <==> Unstopped(run, acts, from, to)
    ensures !TookOver(run, from, to) ==> RolledBack(run[from], run[to])
    ensures TookOver(run, from, to) ==>
              var s, s', a := run[from], run[to], run[to].attempt;
              && Reloaded(s, s', a.fps, a.made) && Loads(acts, from, to, a.fps)
              && forall i :: 0 <= i < |a.fps| ==>
                   (a.made[i].Some? <==> CreatedFor(run, acts, from, to, i) && Find(a.fps[i], LiveList(s)).None?)
  {
    hide Init, Step, Enabled, Stops, Inv, Failing, Find, CreatedFor, RolledBack, ReadIn;
    TraceIsRun(run, acts);
    TakesOverExactlyWhen(run, acts, from, to);
    ReloadIsAtomic(run, from, to);
    MadeSoFar(run, acts, from, to);
    AttemptStays(run, from, to);
    LoadedSoFar(run, acts, from, to);
    RecordIsTrue(run, from, to);
    RunInv(run, to);
    IdleMeans(run[to]);
  }
}
