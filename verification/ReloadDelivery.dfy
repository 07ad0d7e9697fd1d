/**
  Captured packets on their way to an output, and signals on their way to a reload. In pipeline mode the ring
  and the output thread lie between capture and output; over every run, reloads and drains included, each
  message is handled once and in the order of capture.
 */
module ReloadDelivery {
  import opened Basics
  import opened TaskLists
  import opened ReloadModel
  import opened ReloadInvariant
  import opened ReloadProofs
  import opened ReloadFrames
  import opened ReloadOutcome
  import opened ReloadTheorems

  // ---- messages ----------------------------------------------------------------------------------------

  /** The messages between capture and output: the one in the output thread's hands, then those in the ring. */
  ghost function Flow(s: State): seq<nat> {
    (if s.opc.OHandle? then [s.opc.task] else []) + s.ring
  }

  /** What a step captures, and what it hands to an output. */
  ghost function Captures(s: State, a: Action): seq<nat>
    requires Enabled(s, a)
  {
    if a.APollDeliver? then [LiveList(s)[s.mpc.k].task] else []
  }

  ghost function Hands(s: State, a: Action): seq<nat>
    requires Enabled(s, a)
  {
    if a.AOutHandle? then [s.opc.task] else if a.APollDeliver? && !s.pipeline then Captures(s, a) else []
  }

  lemma DeliverFlows(s: State)
    requires s.mpc.MPoll? && s.mpc.k < |LiveList(s)|
    ensures var r, t := PollDeliver(s), LiveList(s)[s.mpc.k].task;
      r.pipeline == s.pipeline && Flow(r) == Flow(s) + (if s.pipeline then [t] else [])
  {
    hide LiveList;
    var r := PollDeliver(s);
    assert r.opc == s.opc && r.pipeline == s.pipeline;
    assert r.ring == s.ring + (if s.pipeline then [LiveList(s)[s.mpc.k].task] else []);
  }

  lemma HandleFlows(s: State)
    requires s.opc.OHandle?
    ensures var r := OutHandle(s); r.pipeline == s.pipeline && Flow(s) == [s.opc.task] + Flow(r)
  {
    var r := OutHandle(s);
    assert r.ring == s.ring && !r.opc.OHandle? && r.pipeline == s.pipeline;
  }

  lemma DrainFlows(s: State)
    requires s.opc.ODrain?
    ensures OutDrain(s).pipeline == s.pipeline && Flow(OutDrain(s)) == Flow(s)
  {
    if s.ring != [] {
      assert [s.ring[0]] + s.ring[1..] == s.ring;
    }
  }

  lemma PopFlows(s: State)
    requires s.opc.OPop?
    ensures OutPop(s).pipeline == s.pipeline && Flow(OutPop(s)) == Flow(s)
  {
    if s.ring != [] {
      assert [s.ring[0]] + s.ring[1..] == s.ring;
    }
  }

  lemma OutputFlows(s: State, a: Action)
    requires Enabled(s, a) && OutputStep(a) && !a.AOutHandle?
    ensures Step(s, a).pipeline == s.pipeline && Flow(Step(s, a)) == Flow(s)
  {
    hide OutDrain, OutPop;
    if a.AOutDrain? {
      DrainFlows(s);
    } else if a.AOutPop? {
      PopFlows(s);
    }
  }

  /** Every step keeps the balance between what is captured, under way and handed out. */
  lemma StepFlows(s: State, a: Action)
    requires Inv(s) && Enabled(s, a)
    ensures var r := Step(s, a); r.pipeline == s.pipeline && Flow(s) + Captures(s, a) == Hands(s, a) + Flow(r)
  {
    hide PhaseInv, FlightInv, Bounded, TokenInv, PollDeliver, OutHandle, LiveList;
    if a.APollDeliver? {
      DeliverFlows(s);
      assert !s.pipeline ==> Flow(s) == [];
    } else if a.AOutHandle? {
      HandleFlows(s);
    } else {
      hide Step, Flow;
      if OutputStep(a) {
        OutputFlows(s, a);
      } else {
        KeepsFlow(s, a);
      }
    }
  }

  lemma KeepsFlow(s: State, a: Action)
    requires Inv(s) && Enabled(s, a) && !OutputStep(a) && !a.APollDeliver?
    ensures var r := Step(s, a); r.pipeline == s.pipeline && Flow(r) == Flow(s)
  {
    hide Step, Inv, Enabled;
    if MainStep(a) {
      MainFrame(s, a);
    } else {
      ReloadFrame(s, a);
    }
  }

  ghost function Captured(run: seq<State>, acts: seq<Action>, n: nat): seq<nat>
    requires IsTrace(run, acts) && n < |run|
  {
    if n == 0 then [] else Captured(run, acts, n - 1) + Captures(run[n - 1], acts[n - 1])
  }

  ghost function Handed(run: seq<State>, acts: seq<Action>, n: nat): seq<nat>
    requires IsTrace(run, acts) && n < |run|
  {
    if n == 0 then [] else Handed(run, acts, n - 1) + Hands(run[n - 1], acts[n - 1])
  }

  /** What was captured is what was handed to an output, followed by what is under way: nothing is lost, repeated or reordered. */
  lemma {:induction false} EveryMessageIsHandedOutOnce(run: seq<State>, acts: seq<Action>, n: nat)
    requires IsTrace(run, acts) && n < |run|
    ensures Captured(run, acts, n) == Handed(run, acts, n) + Flow(run[n])
  {
    hide Inv, Enabled, Step, Captures, Hands;
    if n > 0 {
      hide Init, Flow;
      TraceIsRun(run, acts);
      RunInv(run, n - 1);
      EveryMessageIsHandedOutOnce(run, acts, n - 1);
      assert Enabled(run[n - 1], acts[n - 1]) && run[n] == Step(run[n - 1], acts[n - 1]);
      StepFlows(run[n - 1], acts[n - 1]);
      Regroup(Handed(run, acts, n - 1), Flow(run[n - 1]), Captures(run[n - 1], acts[n - 1]),
              Hands(run[n - 1], acts[n - 1]), Flow(run[n]));
    }
  }

  lemma Regroup(done: seq<nat>, flow: seq<nat>, new_: seq<nat>, out: seq<nat>, flow': seq<nat>)
    requires flow + new_ == out + flow'
    ensures done + flow + new_ == done + out + flow'
  {
    assert done + flow + new_ == done + (flow + new_);
    assert done + out + flow' == done + (out + flow');
  }

  // ---- polling -----------------------------------------------------------------------------------------

  lemma PollsInTurn(s: State, a: Action)
    requires Inv(s) && s.mpc.MPoll? && Enabled(s, a)
    ensures var r := Step(s, a);
      if a.APollNext? then r.mpc == (if s.mpc.k < |LiveList(s)| then MPoll(s.mpc.k + 1) else MLoop) else r.mpc == s.mpc
  {
    hide PhaseInv, FlightInv, Bounded, DrainInv, TokenInv;
    if PlanStep(a) || WorkStep(a) {
      hide Step;
      ReloadFrame(s, a);
    } else if a.AOutHandle? {
      OutHandleKeepsMain(s);
    } else {
      hide LiveList;
    }
  }

  lemma OutHandleKeepsMain(s: State)
    requires s.opc.OHandle?
    ensures OutHandle(s).mpc == s.mpc
  {
  }

  /** From the start of a poll, every node up to the current one was polled, in turn. */
  lemma {:induction false} PolledSoFar(run: seq<State>, acts: seq<Action>, from: nat, n: nat, i: nat)
    requires IsTrace(run, acts) && from <= n < |run| && run[from].mpc == MPoll(0)
    requires forall k :: from <= k <= n ==> run[k].mpc.MPoll?
    requires i <= run[n].mpc.k
    ensures exists k :: from <= k <= n && run[k].mpc == MPoll(i)
  {
    hide Inv, Enabled, Step, Init;
    if n > from && run[n].mpc != MPoll(i) {
      TraceIsRun(run, acts);
      RunInv(run, n - 1);
      assert Enabled(run[n - 1], acts[n - 1]) && run[n] == Step(run[n - 1], acts[n - 1]);
      PollsInTurn(run[n - 1], acts[n - 1]);
      PolledSoFar(run, acts, from, n - 1, i);
    }
  }

  /** A poll that ends has polled every node of the live list. */
  lemma EveryTaskIsPolled(run: seq<State>, acts: seq<Action>, from: nat, n: nat, i: nat)
    requires IsTrace(run, acts) && from <= n < |run| - 1 && run[from].mpc == MPoll(0)
    requires (forall k :: from <= k <= n ==> run[k].mpc.MPoll?) && !run[n + 1].mpc.MPoll? && i < |LiveList(run[n])|
    ensures exists k :: from <= k <= n && run[k].mpc == MPoll(i)
  {
    hide Inv, Enabled, Step, Init;
    TraceIsRun(run, acts);
    RunInv(run, n);
    assert Enabled(run[n], acts[n]) && run[n + 1] == Step(run[n], acts[n]);
    PollsInTurn(run[n], acts[n]);
    PolledSoFar(run, acts, from, n, i);
  }

  // ---- signals -----------------------------------------------------------------------------------------

  /** A signal stays up until a reload starts. */
  lemma SignalStays(s: State, a: Action)
    requires Inv(s) && Enabled(s, a) && s.signal
    ensures Step(s, a).signal || (s.phase.Idle? && Step(s, a).phase.AwaitingSurvivors?)
  {
    hide Step, Inv, Enabled;
    if OutputStep(a) {
      OutputOnlyPolls(s, a);
    } else if a.APollDeliver? {
      DeliverKeepsSignal(s, a);
    } else if MainStep(a) {
      MainFrame(s, a);
    } else {
      ReloadFrame(s, a);
    }
  }

  lemma DeliverKeepsSignal(s: State, a: Action)
    requires Enabled(s, a) && a.APollDeliver?
    ensures Step(s, a).signal == s.signal
  {
    DeliverOnlyPolls(s);
    hide LiveList;
  }

  lemma SignalGoesUp(s: State, a: Action)
    requires Enabled(s, a) && a.Signal?
    ensures Step(s, a).signal
  {
  }

  /** A reload starts between k and n. */
  ghost predicate StartsBetween(run: seq<State>, k: nat, n: nat)
    requires n < |run|
  {
    exists j :: k < j <= n && run[j - 1].phase.Idle? && run[j].phase.AwaitingSurvivors?
  }

  /** No signal is lost: it is still up, or a reload has started since. */
  lemma {:induction false} SignalsAreServed(run: seq<State>, k: nat, n: nat)
    requires IsRun(run) && k <= n < |run| && run[k].signal
    ensures run[n].signal || StartsBetween(run, k, n)
  {
    hide Inv, Enabled, Init, Step;
    if n > k {
      SignalsAreServed(run, k, n - 1);
      RunInv(run, n - 1);
      assert Next(run[n - 1], run[n]);
      var a :| Enabled(run[n - 1], a) && run[n] == Step(run[n - 1], a);
      if run[n - 1].signal {
        SignalStays(run[n - 1], a);
      }
    }
  }

  /** From the step that raises a signal on. */
  lemma RaisedSignalsAreServed(run: seq<State>, acts: seq<Action>, k: nat, n: nat)
    requires IsTrace(run, acts) && k < n < |run| && acts[k].Signal?
    ensures run[n].signal || StartsBetween(run, k + 1, n)
  {
    hide Enabled, Init, Step, Next;
    TraceIsRun(run, acts);
    assert Enabled(run[k], acts[k]) && run[k + 1] == Step(run[k], acts[k]);
    SignalGoesUp(run[k], acts[k]);
    SignalsAreServed(run, k + 1, n);
  }

  /** A run that leaves idle starts a reload. */
  lemma {:induction false} LeavingIdleStarts(run: seq<State>, k: nat, n: nat)
    requires IsRun(run) && k <= n < |run| && run[k].phase.Idle? && !run[n].phase.Idle?
    ensures StartsBetween(run, k, n)
  {
    hide Inv, Enabled, Init, Step;
    StepRecord(run, n);
    if !run[n - 1].phase.Idle? {
      LeavingIdleStarts(run, k, n - 1);
    }
  }
}
