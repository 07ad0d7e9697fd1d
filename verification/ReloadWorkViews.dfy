/** How the agreement between the threads changes while the reload thread plans, builds and reclaims. */
module ReloadWorkViews {
  import opened Basics
  import opened TaskLists
  import opened ReloadModel
  import opened ReloadInvariant
  import opened ReloadHeapProofs

  // ---- the reload thread -------------------------------------------------------------------------

  lemma PlanDispatched(v: View)
    requires PlanInv(v) && v.place.AtReload? && v.rpc.RDispatch?
    ensures v.mainTx == ReqPlan(v.mgr.tasks)
    ensures var z := v.(ctx := v.ctx.(current := Some(v.mgr.tasks)), rpc := RParse); PlanInv(z)
  {
    hide OnlyManaged;
  }

  lemma BuildDispatched(v: View)
    requires Bounded(v.heap) && BuildInv(v) && v.place.AtReload? && v.rpc.RDispatch?
    ensures var old_, h := v.attempt.base.tasks, v.heap;
            && v.mainTx == ReqBuild(old_)
            && var w := v.(ctx := v.ctx.(old_ := Some(old_)));
            && (var z := w.(rpc := RWrite(RptError(Some(old_)), TFreeConfig)); BuildInv(z))
            && var h' := h.(next := h.next + 2, lists := h.lists[h.next := []], errors := h.errors[h.next + 1 := []]);
            && Bounded(h')
            && (var z := w.(heap := h', attempt := v.attempt.(made := []), rpc := RBuild(h.next, h.next + 1, 0)); BuildInv(z))
  {
    hide Collected, Built, Failed, Bounded;
    var cfg := v.ctx.newConfig.value;
    CollectedFacts(v.heap, v.attempt, cfg, v.mgr.tasks, |v.attempt.fps|);
    StartBuilding(v.heap, v.attempt, v.mgr.tasks, cfg);
    BuildAborts(v.heap, v.attempt, v.mgr.tasks, cfg);
  }

  lemma ReclaimDispatched(v: View, pc: ReloadPc)
    requires ReclaimInv(v) && v.place.AtReload? && ReclaimReading(v.rpc) && ReclaimReading(pc)
    requires ReclaimedNodes(pc) == ReclaimedNodes(v.rpc)
    ensures v.mainTx.ReqReclaim? && (var z := v.(rpc := pc); ReclaimInv(z))
  {
    hide Committed, Reclaiming;
  }

  lemma Parsed(v: View, fps: seq<Option<Fingerprint>>)
    requires Bounded(v.heap) && PlanInv(v) && v.place.AtReload? && v.rpc.RParse?
    ensures var z := v.(rpc := RWrite(RptError(None), TReset)); PlanInv(z)
    ensures GoodPlan(fps) ==>
              var h := v.heap;
              var h' := h.(next := h.next + 2, lists := h.lists[h.next + 1 := []], configs := h.configs[h.next := fps]);
              Bounded(h') && (var z := v.(heap := h', attempt := v.attempt.(read := true, fps := fps), rpc := RCollect(h.next, h.next + 1, 0)); PlanInv(z))
  {
    hide OnlyManaged, Collected, Bounded, GoodPlan;
    if GoodPlan(fps) {
      StartCollecting(v.heap, v.mgr, v.attempt.(read := true, fps := fps), fps);
      var h := v.heap;
      var h' := h.(next := h.next + 2, lists := h.lists[h.next + 1 := []], configs := h.configs[h.next := fps]);
      CollectedFacts(h', v.attempt.(read := true, fps := fps), h.next, h.next + 1, 0);
    }
  }

  lemma CollectSteps(v: View)
    requires Bounded(v.heap) && PlanInv(v) && v.place.AtReload? && v.rpc.RCollect?
    ensures v.ctx.current == Some(v.mgr.tasks) && v.mgr.tasks in v.heap.lists && v.heap.lists[v.mgr.tasks] == v.attempt.tasks
    ensures var RCollect(cfg, list, i) := v.rpc;
            var fps, h := v.attempt.fps, v.heap;
            && cfg in h.configs && h.configs[cfg] == fps && list in h.lists && i <= |fps|
            && if i == |fps| then
                 (var z := v.(ctx := v.ctx.(newConfig := Some(cfg)), rpc := RWrite(RptSurvivors(list), TNone)); PlanInv(z))
               else
                 && fps[i].Some?
                 && match Find(fps[i], v.attempt.tasks)
                    case None => (var z := v.(rpc := RCollect(cfg, list, i + 1)); PlanInv(z))
                    case Some(w) =>
                      && (var h' := h.(lists := h.lists[list := h.lists[list] + [w]]);
                          Bounded(h') && (var z := v.(heap := h', rpc := RCollect(cfg, list, i + 1)); PlanInv(z)))
                      && (var h' := h.(lists := h.lists - {list}, configs := h.configs - {cfg});
                          Bounded(h') && (var z := v.(heap := h', rpc := RWrite(RptError(None), TReset)); PlanInv(z)))
  {
    hide Collected, OnlyManaged, Bounded;
    var RCollect(cfg, list, i) := v.rpc;
    var t := v.attempt;
    CollectedFacts(v.heap, t, cfg, list, i);
    if i < |t.fps| {
      match Find(t.fps[i], t.tasks) {
        case None => CollectSkips(v.heap, t, cfg, list, i);
        case Some(w) =>
          CollectKeeps(v.heap, t, cfg, list, i, w);
          CollectAborts(v.heap, v.mgr, t, cfg, list, i);
      }
    }
  }

  /** What a build step may read. */
  lemma BuildReads(v: View)
    requires BuildInv(v) && v.place.AtReload? && v.rpc.RBuild?
    ensures v.ctx.current == Some(v.attempt.base.tasks) && v.ctx.newConfig.Some?
    ensures var RBuild(list, errs, i) := v.rpc;
            var h, b, fps := v.heap, v.attempt.base, v.attempt.fps;
            && b.tasks in h.lists && h.lists[b.tasks] == v.attempt.tasks
            && v.ctx.newConfig.value in h.configs && h.configs[v.ctx.newConfig.value] == fps
            && list in h.lists && list != v.mgr.tasks && errs in h.errors && i <= |fps|
            && forall j :: 0 <= j < |fps| ==> fps[j].Some?
  {
    hide Built;
    var RBuild(list, errs, i) := v.rpc;
    BuiltFacts(v.heap, v.attempt, v.mgr.tasks, v.ctx.newConfig.value, list, errs, i);
  }

  lemma BuildFinishes(v: View)
    requires BuildInv(v) && v.place.AtReload? && v.rpc.RBuild? && v.rpc.i == |v.attempt.fps| && v.ctx.newConfig.Some?
    ensures var z := v.(rpc := RWrite(RptNewTasks(v.ctx.newConfig.value, v.rpc.list, v.rpc.errs), TDropConfig)); BuildInv(z)
  {
    hide Built, SurvivorsLive;
  }

  lemma BuildGivesUp(v: View)
    requires Bounded(v.heap) && BuildInv(v) && v.place.AtReload? && v.rpc.RBuild?
    ensures var h, pc := v.heap, RUndo(v.rpc.list, v.rpc.errs, 0);
            && (var z := v.(rpc := pc); BuildInv(z))
            && Bounded(h.(next := h.next + 1)) && (var z := v.(heap := h.(next := h.next + 1), rpc := pc); BuildInv(z))
  {
    hide Built, Undone, Bounded;
    var RBuild(list, errs, i) := v.rpc;
    StartUndoing(v.heap, v.attempt, v.mgr.tasks, v.ctx.newConfig.value, list, errs, i);
  }

  lemma BuildReuses(v: View, w: Wrapper)
    requires Bounded(v.heap) && BuildInv(v) && v.place.AtReload? && v.rpc.RBuild? && v.rpc.i < |v.attempt.fps|
    requires v.attempt.fps[v.rpc.i].Some? && Find(v.attempt.fps[v.rpc.i], v.attempt.tasks) == Some(w)
    ensures var RBuild(list, errs, i) := v.rpc;
            var h := v.heap;
            && list in h.lists
            && var h' := h.(lists := h.lists[list := h.lists[list] + [Wrapper(i, v.attempt.fps[i], w.task)]]);
            && Bounded(h')
            && (var z := v.(heap := h', attempt := v.attempt.(made := v.attempt.made + [None]), rpc := RBuild(list, errs, i + 1)); BuildInv(z))
  {
    BuildReads(v);
    hide Built, Bounded;
    var RBuild(list, errs, i) := v.rpc;
    BuildKeeps(v.heap, v.attempt, v.mgr.tasks, v.ctx.newConfig.value, list, errs, i, w);
  }

  lemma BuildAdds(v: View)
    requires Bounded(v.heap) && BuildInv(v) && v.place.AtReload? && v.rpc.RBuild? && v.rpc.i < |v.attempt.fps|
    requires v.attempt.fps[v.rpc.i].Some? && Find(v.attempt.fps[v.rpc.i], v.attempt.tasks).None?
    ensures var RBuild(list, errs, i) := v.rpc;
            var h := v.heap;
            && list in h.lists
            && var h' := h.(next := h.next + 1, live := h.live + {h.next},
                            lists := h.lists[list := h.lists[list] + [Wrapper(i, v.attempt.fps[i], h.next)]]);
            && Bounded(h')
            && (var z := v.(heap := h', attempt := v.attempt.(made := v.attempt.made + [Some(h.next)]),
                              rpc := RBuild(list, errs, i + 1));
                BuildInv(z))
  {
    BuildReads(v);
    hide Built, Bounded;
    var RBuild(list, errs, i) := v.rpc;
    BuildCreates(v.heap, v.attempt, v.mgr.tasks, v.ctx.newConfig.value, list, errs, i);
  }

  lemma BuildRecords(v: View)
    requires Bounded(v.heap) && BuildInv(v) && v.place.AtReload? && v.rpc.RBuild? && v.rpc.i < |v.attempt.fps|
    requires v.attempt.fps[v.rpc.i].Some? && Find(v.attempt.fps[v.rpc.i], v.attempt.tasks).None?
    ensures var RBuild(list, errs, i) := v.rpc;
            var h := v.heap;
            && errs in h.errors
            && var h' := h.(errors := h.errors[errs := h.errors[errs] + [TaskError(i, v.attempt.fps[i])]]);
            && Bounded(h')
            && (var z := v.(heap := h', attempt := v.attempt.(made := v.attempt.made + [None]), rpc := RBuild(list, errs, i + 1)); BuildInv(z))
  {
    BuildReads(v);
    hide Built, Bounded;
    var RBuild(list, errs, i) := v.rpc;
    BuildReportsError(v.heap, v.attempt, v.mgr.tasks, v.ctx.newConfig.value, list, errs, i);
  }

  lemma UndoSteps(v: View)
    requires Bounded(v.heap) && BuildInv(v) && v.place.AtReload? && v.rpc.RUndo?
    ensures var RUndo(list, errs, i) := v.rpc;
            var h, old_ := v.heap, v.attempt.base.tasks;
            && v.ctx.current == Some(old_) && v.ctx.old_ == Some(old_)
            && old_ in h.lists && h.lists[old_] == v.attempt.tasks
            && list in h.lists && i <= |h.lists[list]| && errs in h.errors
            && if i == |h.lists[list]| then
                 var h' := h.(lists := h.lists - {list}, errors := h.errors - {errs});
                 Bounded(h') && (var z := v.(heap := h', rpc := RWrite(RptError(Some(old_)), TFreeConfig)); BuildInv(z))
               else
                 var w, pc := h.lists[list][i], RUndo(list, errs, i + 1);
                 && w.fp.Some?
                 && if Find(w.fp, v.attempt.tasks).Some? then (var z := v.(rpc := pc); BuildInv(z))
                    else
                      var h' := h.(live := h.live - {w.task});
                      w.task in h.live && Bounded(h') && (var z := v.(heap := h', rpc := pc); BuildInv(z))
  {
    hide Undone, Failed, Bounded;
    var RUndo(list, errs, i) := v.rpc;
    var t, surv, cfg, h := v.attempt, v.mgr.tasks, v.ctx.newConfig.value, v.heap;
    UndoneFacts(h, t, surv, cfg, list, errs, i);
    if i < |h.lists[list]| {
      UndoDestroys(h, t, surv, cfg, list, errs, i);
      if Find(h.lists[list][i].fp, t.tasks).None? {
        UndoSpares(h, t, surv, cfg, list, errs, i);
      }
    } else {
      UndoEnds(h, t, surv, cfg, list, errs, i);
    }
  }

  /** Undoing never destroys a capture task of the old list. */
  lemma UndoSpares(h: Heap, a: Attempt, surv: nat, cfg: nat, list: nat, errs: nat, i: nat)
    requires Undone(h, a, surv, cfg, list, errs, i) && i < |h.lists[list]|
    requires h.lists[list][i].fp.Some? && Find(h.lists[list][i].fp, a.tasks).None?
    ensures h.lists[list][i].task !in TaskIds(a.tasks)
  {
    var n := |a.made|;
    BuildMembers(a.fps[..n], a.tasks, a.made);
    assert h.lists[list][i] in h.lists[list];
  }

  lemma ReclaimSteps(v: View)
    requires Bounded(v.heap) && ReclaimInv(v) && v.place.AtReload? && v.rpc.RReclaim?
    ensures var i, h, b := v.rpc.i, v.heap, v.attempt.base;
            && v.mainTx == ReqReclaim(b.config, b.errors, v.mgr.tasks) && v.ctx.old_ == Some(b.tasks)
            && b.tasks in h.lists && h.lists[b.tasks] == v.attempt.tasks && v.mgr.tasks in h.lists
            && b.tasks != v.mgr.tasks && b.errors in h.errors && b.config in h.configs
            && i <= |v.attempt.tasks|
            && if i == |v.attempt.tasks| then
                 var h' := h.(lists := h.lists - {b.tasks}, errors := h.errors - {b.errors}, configs := h.configs - {b.config});
                 Bounded(h') &&
                 (var z := v.(heap := h', ctx := v.ctx.(current := None, old_ := None), rpc := RWrite(RptReclaimed, TNone)); ReclaimInv(z))
               else
                 var w, pc := v.attempt.tasks[i], RReclaim(i + 1);
                 if w.fp.Some? && Find(w.fp, h.lists[v.mgr.tasks]).Some? then (var z := v.(rpc := pc); ReclaimInv(z))
                 else
                   var h' := h.(live := h.live - {w.task});
                   w.task in h.live && Bounded(h') && (var z := v.(heap := h', rpc := pc); ReclaimInv(z))
  {
    hide Committed, Reclaiming, OnlyManaged, Bounded;
    var i := v.rpc.i;
    ReclaimingFacts(v.heap, v.mgr, v.attempt, i);
    if i < |v.attempt.tasks| {
      ReclaimDestroys(v.heap, v.mgr, v.attempt, i);
    } else {
      ReclaimEnds(v.heap, v.mgr, v.attempt, i);
    }
  }
}
