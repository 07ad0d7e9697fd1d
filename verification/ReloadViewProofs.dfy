/** How the agreement between the main and reload threads changes when one of them acts. */
module ReloadViewProofs {
  import opened Basics
  import opened TaskLists
  import opened ReloadModel
  import opened ReloadInvariant
  import opened ReloadHeapProofs

  // ---- the message changes hands -----------------------------------------------------------------

  lemma MainReceives(phase: Phase, v: View)
    requires PhaseInv(phase, v) && v.place.InMainMbox? && !phase.Idle?
    ensures var z := v.(place := AtMain); PhaseInv(phase, z)
  {
    hide Collected, Built, Failed, OnlyManaged, Committed, Reclaiming, SurvivorsLive;
  }

  lemma MainSends(phase: Phase, v: View)
    requires PhaseInv(phase, v) && v.place.AtMainSending? && !phase.Idle?
    ensures var z := v.(place := InReloadMbox); PhaseInv(phase, z)
  {
    hide Collected, OnlyManaged, Committed, Reclaiming, SurvivorsLive;
  }

  lemma ReloadReceives(phase: Phase, v: View)
    requires PhaseInv(phase, v) && v.place.InReloadMbox? && v.rpc.RIdle? && !phase.Idle?
    ensures var z := v.(place := AtReload, rpc := RDispatch); PhaseInv(phase, z)
  {
    hide Collected, OnlyManaged, Committed, Reclaiming, SurvivorsLive;
  }

  lemma ReloadWrites(phase: Phase, v: View)
    requires PhaseInv(phase, v) && v.place.AtReload? && v.rpc.RWrite? && !phase.Idle?
    ensures var z := v.(reloadTx := v.rpc.msg, rpc := RSend(v.rpc.tail)); PhaseInv(phase, z)
  {
    hide Collected, Built, Failed, OnlyManaged, Committed, Reclaiming, SurvivorsLive;
  }

  lemma ReloadSends(phase: Phase, v: View)
    requires PhaseInv(phase, v) && v.place.AtReload? && v.rpc.RSend? && !phase.Idle?
    ensures var z := v.(place := InMainMbox, rpc := if v.rpc.tail.TNone? then RIdle else RTail(v.rpc.tail)); PhaseInv(phase, z)
  {
    hide Collected, Built, Failed, OnlyManaged, Committed, Reclaiming, SurvivorsLive;
  }

  // ---- the main thread ---------------------------------------------------------------------------

  lemma ReloadStarts(v: View)
    requires IdleInv(v)
    ensures v.mgr.tasks in v.heap.lists
    ensures (var z := v.(place := AtMainSending, mainTx := ReqPlan(v.mgr.tasks),
                       attempt := v.attempt.(base := v.mgr, tasks := ListAt(v.heap, v.mgr.tasks),
                                             config := ConfigAt(v.heap, v.mgr.config), errors := ErrorsAt(v.heap, v.mgr.errors),
                                             read := false, done := false)); PlanInv(z))
  {
    ManagedFacts(v.heap, v.mgr, TailConfig(v.rpc, v.ctx));
    hide OnlyManaged, Committed;
  }

  lemma SurvivorsArrive(v: View)
    requires PlanInv(v) && v.place.AtMain?
    ensures match v.reloadTx
            case RptError(_) => (var z := v.(place := Nowhere); IdleInv(z))
            case RptSurvivors(l) =>
              && (var z := v.(place := AtMainSending, mainTx := ReqBuild(v.mgr.tasks), mgr := v.mgr.(tasks := l)); BuildInv(z))
              && ReloadRests(v.rpc)
            case _ => false
  {
    hide OnlyManaged;
    if v.reloadTx.RptSurvivors? {
      var a := v.attempt;
      assert a.fps[..|a.fps|] == a.fps;
      SurvivorsMembers(a.fps, a.tasks);
    }
  }

  lemma NewTasksArrive(v: View)
    requires Bounded(v.heap) && BuildInv(v) && v.place.AtMain?
    ensures v.mgr.tasks in v.heap.lists
    ensures var h' := v.heap.(lists := v.heap.lists - {v.mgr.tasks});
            && Bounded(h')
            && match v.reloadTx
               case RptError(r) =>
                 && r.Some? && v.mgr.(tasks := r.value) == v.attempt.base
                 && (var z := v.(place := Nowhere, heap := h', mgr := v.attempt.base); IdleInv(z))
                 && r.value in h'.lists && h'.lists[r.value] == v.attempt.tasks
               case RptNewTasks(cfg, list, errs) =>
                 (var z := v.(place := AtMainSending, heap := h', mainTx := ReqReclaim(v.mgr.config, v.mgr.errors, list),
                               mgr := Manager(list, cfg, errs), attempt := v.attempt.(done := true)); ReclaimInv(z))
               case _ => false
  {
    hide Built, Failed, OnlyManaged, Committed, Reclaiming, Bounded;
    match v.reloadTx {
      case RptError(_) => RestoreHeap(v.heap, v.attempt, v.mgr.tasks, TailConfig(v.rpc, v.ctx));
      case RptNewTasks(cfg, list, errs) => CommitHeap(v.heap, v.attempt, v.mgr.tasks, cfg, list, errs);
      case _ =>
    }
  }

  lemma ReclaimedArrives(v: View)
    requires ReclaimInv(v) && v.place.AtMain?
    ensures v.reloadTx == RptReclaimed && (var z := v.(place := Nowhere); IdleInv(z))
  {
    hide OnlyManaged, Committed;
  }

  // ---- the reload thread tidies up -----------------------------------------------------------------

  lemma TailIsReal(phase: Phase, v: View)
    requires PhaseInv(phase, v) && v.rpc.RTail? && !v.place.AtReload?
    ensures v.rpc.tail != TNone
  {
    hide Collected, Built, Failed, OnlyManaged, Committed, Reclaiming, SurvivorsLive;
  }

  lemma TailResets(phase: Phase, v: View)
    requires PhaseInv(phase, v) && v.rpc == RTail(TReset) && !v.place.AtReload?
    ensures var z := v.(ctx := v.ctx.(current := None, old_ := None), rpc := RIdle); PhaseInv(phase, z)
  {
    hide Collected, Built, Failed, OnlyManaged, Committed, Reclaiming, SurvivorsLive;
  }

  lemma TailDrops(phase: Phase, v: View)
    requires PhaseInv(phase, v) && v.rpc == RTail(TDropConfig) && !v.place.AtReload?
    ensures var z := v.(ctx := v.ctx.(newConfig := None), rpc := RIdle); PhaseInv(phase, z)
  {
    hide Collected, Built, Failed, OnlyManaged, Committed, Reclaiming, SurvivorsLive;
  }

  lemma TailFrees(phase: Phase, v: View)
    requires Bounded(v.heap) && PhaseInv(phase, v) && v.rpc == RTail(TFreeConfig) && v.ctx.newConfig.Some? && !v.place.AtReload?
    ensures var cfg := v.ctx.newConfig.value;
            var h' := v.heap.(configs := v.heap.configs - {cfg});
            cfg in v.heap.configs && Bounded(h') && (var z := v.(heap := h', ctx := NO_CTX, rpc := RIdle); PhaseInv(phase, z))
  {
    hide Collected, Built, Failed, OnlyManaged, Committed, Reclaiming, Bounded;
    if phase.AwaitingNewTasks? {
      FailedTailGone(v.heap, v.attempt, v.mgr.tasks, v.ctx.newConfig.value);
    } else if phase.Idle? || phase.AwaitingSurvivors? {
      TailGone(v.heap, v.mgr, v.attempt, v.ctx.newConfig.value);
    }
  }
}
