/** What the heap-changing steps of the reload protocol do to the heap, apart from who runs them. */
module ReloadHeapProofs {
  import opened Basics
  import opened TaskLists
  import opened ReloadModel
  import opened ReloadInvariant

  lemma TaskIdsAppend(l: seq<Wrapper>, w: Wrapper)
    ensures TaskIds(l + [w]) == TaskIds(l) + {w.task}
  {
    assert forall v :: v in l + [w] <==> v in l || v == w;
  }

  lemma TaskIdsDrop(l: seq<Wrapper>, i: nat)
    requires i < |l|
    ensures TaskIds(l[i..]) == {l[i].task} + TaskIds(l[i + 1..])
  {
    assert l[i..] == [l[i]] + l[i + 1..];
  }

  lemma PrefixStep<T>(s: seq<T>, i: nat)
    requires i < |s|
    ensures s[..i + 1][..i] == s[..i] && s[..i + 1] == s[..i] + [s[i]]
  {
  }

  lemma PushedInFlight(ring: seq<nat>, t: nat, opc: OutPc)
    ensures InFlight(ring + [t], opc) == InFlight(ring, opc) + {t}
  {
    assert forall u :: u in ring + [t] <==> u in ring || u == t;
  }

  lemma PoppedInFlight(ring: seq<nat>, opc: OutPc, d: Option<nat>)
    requires ring != [] && !opc.OHandle?
    ensures InFlight(ring[1..], OHandle(ring[0], d)) == InFlight(ring, opc)
  {
    assert ring == [ring[0]] + ring[1..];
  }

  lemma IdleOutput(ring: seq<nat>, opc: OutPc, opc': OutPc)
    requires !opc.OHandle? && !opc'.OHandle?
    ensures InFlight(ring, opc) == InFlight(ring, opc')
  {
  }

  lemma CleanAfterPop(ring: seq<nat>, n: nat, l: seq<Wrapper>)
    requires CleanFrom(ring, n, l)
    ensures n > 0 && ring != [] ==> CleanFrom(ring[1..], n - 1, l)
    ensures n == 0 || ring == [] ==> InFlight(ring, OClear) <= TaskIds(l)
  {
  }

  // ---- planning ----------------------------------------------------------------------------------

  lemma StartCollecting(h: Heap, m: Manager, a: Attempt, fps: seq<Option<Fingerprint>>)
    requires Bounded(h) && OnlyManaged(h, m, {}) && GoodPlan(fps)
    requires Unchanged(h, m, a) && a.read && a.fps == fps
    ensures var h' := h.(next := h.next + 2, lists := h.lists[h.next + 1 := []], configs := h.configs[h.next := fps]);
            Bounded(h') && Collected(h', a, h.next, h.next + 1, 0)
  {
    var h' := h.(next := h.next + 2, lists := h.lists[h.next + 1 := []], configs := h.configs[h.next := fps]);
    assert m.tasks in h.lists && m.config in h.configs;
    assert h'.lists.Keys == {m.tasks, h.next + 1};
    assert h'.configs.Keys == {m.config, h.next};
  }

  lemma CollectSkips(h: Heap, a: Attempt, cfg: nat, list: nat, i: nat)
    requires Collected(h, a, cfg, list, i) && i < |a.fps| && Find(a.fps[i], a.tasks).None?
    ensures Collected(h, a, cfg, list, i + 1)
  {
    PrefixStep(a.fps, i);
  }

  lemma CollectKeeps(h: Heap, a: Attempt, cfg: nat, list: nat, i: nat, w: Wrapper)
    requires Bounded(h) && Collected(h, a, cfg, list, i) && i < |a.fps| && Find(a.fps[i], a.tasks) == Some(w)
    ensures var h' := h.(lists := h.lists[list := h.lists[list] + [w]]);
            Bounded(h') && Collected(h', a, cfg, list, i + 1)
  {
    PrefixStep(a.fps, i);
    var h' := h.(lists := h.lists[list := h.lists[list] + [w]]);
    assert h'.lists.Keys == h.lists.Keys;
  }

  lemma CollectAborts(h: Heap, m: Manager, a: Attempt, cfg: nat, list: nat, i: nat)
    requires Bounded(h) && Collected(h, a, cfg, list, i) && Unchanged(h, m, a)
    ensures var h' := h.(lists := h.lists - {list}, configs := h.configs - {cfg});
            Bounded(h') && OnlyManaged(h', m, {}) && Unchanged(h', m, a)
  {
    var h' := h.(lists := h.lists - {list}, configs := h.configs - {cfg});
    assert h'.lists.Keys == {m.tasks};
    assert h'.configs.Keys == {m.config};
  }

  // ---- building ----------------------------------------------------------------------------------

  lemma StartBuilding(h: Heap, a: Attempt, surv: nat, cfg: nat)
    requires Bounded(h) && Collected(h, a, cfg, surv, |a.fps|)
    ensures var h' := h.(next := h.next + 2, lists := h.lists[h.next := []], errors := h.errors[h.next + 1 := []]);
            Bounded(h') && Built(h', a.(made := []), surv, cfg, h.next, h.next + 1, 0) && h.next !in h.lists
  {
    var h' := h.(next := h.next + 2, lists := h.lists[h.next := []], errors := h.errors[h.next + 1 := []]);
    var b := a.base;
    assert a.fps[..|a.fps|] == a.fps;
    assert b.tasks in h.lists && surv in h.lists && b.errors in h.errors;
    assert h'.lists.Keys == {b.tasks, surv, h.next};
    assert h'.errors.Keys == {b.errors, h.next + 1};
    assert TaskIds([]) == {};
  }

  lemma BuildAborts(h: Heap, a: Attempt, surv: nat, cfg: nat)
    requires Collected(h, a, cfg, surv, |a.fps|)
    ensures Failed(h, a, surv, {cfg})
  {
    assert a.fps[..|a.fps|] == a.fps;
    assert h.configs.Keys == {a.base.config} + {cfg};
  }

  lemma MadeNothing(tasks: seq<Wrapper>, made: seq<Option<nat>>)
    requires FreshlyMade(tasks, made)
    ensures FreshlyMade(tasks, made + [None])
  {
  }

  lemma BuildKeeps(h: Heap, a: Attempt, surv: nat, cfg: nat, list: nat, errs: nat, i: nat, w: Wrapper)
    requires Bounded(h) && Built(h, a, surv, cfg, list, errs, i) && i < |a.fps| && Find(a.fps[i], a.tasks) == Some(w)
    ensures var h' := h.(lists := h.lists[list := h.lists[list] + [Wrapper(i, a.fps[i], w.task)]]);
            Bounded(h') && Built(h', a.(made := a.made + [None]), surv, cfg, list, errs, i + 1)
  {
    hide SurvivorsOf, GoodList;
    var n := Wrapper(i, a.fps[i], w.task);
    var h' := h.(lists := h.lists[list := h.lists[list] + [n]]);
    PrefixStep(a.fps, i);
    assert (a.made + [None])[..i] == a.made;
    MadeNothing(a.tasks, a.made);
    TaskIdsAppend(h.lists[list], n);
    assert w.task in TaskIds(a.tasks);
    assert h'.lists.Keys == h.lists.Keys;
    assert a.fps[..i + 1][i] == a.fps[i];
    assert h'.lists[list] == BuildOf(a.fps[..i + 1], a.tasks, a.made + [None]);
  }

  lemma BuildCreates(h: Heap, a: Attempt, surv: nat, cfg: nat, list: nat, errs: nat, i: nat)
    requires Bounded(h) && Built(h, a, surv, cfg, list, errs, i) && i < |a.fps| && Find(a.fps[i], a.tasks).None?
    ensures var h' := h.(next := h.next + 1, live := h.live + {h.next},
                         lists := h.lists[list := h.lists[list] + [Wrapper(i, a.fps[i], h.next)]]);
            Bounded(h') && Built(h', a.(made := a.made + [Some(h.next)]), surv, cfg, list, errs, i + 1)
  {
    var n := Wrapper(i, a.fps[i], h.next);
    var h' := h.(next := h.next + 1, live := h.live + {h.next}, lists := h.lists[list := h.lists[list] + [n]]);
    var made := a.made + [Some(h.next)];
    PrefixStep(a.fps, i);
    assert made[..i] == a.made;
    TaskIdsAppend(h.lists[list], n);
    assert h'.lists.Keys == h.lists.Keys;
    assert a.fps[..i + 1][i] == a.fps[i];
    assert FreshlyMade(a.tasks, made);
    assert h'.lists[list] == BuildOf(a.fps[..i + 1], a.tasks, made);
  }

  lemma BuildReportsError(h: Heap, a: Attempt, surv: nat, cfg: nat, list: nat, errs: nat, i: nat)
    requires Bounded(h) && Built(h, a, surv, cfg, list, errs, i) && i < |a.fps| && Find(a.fps[i], a.tasks).None?
    ensures var h' := h.(errors := h.errors[errs := h.errors[errs] + [TaskError(i, a.fps[i])]]);
            Bounded(h') && Built(h', a.(made := a.made + [None]), surv, cfg, list, errs, i + 1)
  {
    var h' := h.(errors := h.errors[errs := h.errors[errs] + [TaskError(i, a.fps[i])]]);
    PrefixStep(a.fps, i);
    assert (a.made + [None])[..i] == a.made;
    MadeNothing(a.tasks, a.made);
    assert h'.errors.Keys == h.errors.Keys;
    assert a.fps[..i + 1][i] == a.fps[i];
  }

  lemma StartUndoing(h: Heap, a: Attempt, surv: nat, cfg: nat, list: nat, errs: nat, i: nat)
    requires Bounded(h) && Built(h, a, surv, cfg, list, errs, i)
    ensures Undone(h, a, surv, cfg, list, errs, 0)
    ensures var h' := h.(next := h.next + 1); Bounded(h') && Undone(h', a, surv, cfg, list, errs, 0)
  {
    assert h.lists[list][0..] == h.lists[list];
  }

  lemma UndoDestroys(h: Heap, a: Attempt, surv: nat, cfg: nat, list: nat, errs: nat, i: nat)
    requires Bounded(h) && Undone(h, a, surv, cfg, list, errs, i) && i < |h.lists[list]|
    ensures var w := h.lists[list][i];
            && w.fp.Some?
            && (if Find(w.fp, a.tasks).Some? then Undone(h, a, surv, cfg, list, errs, i + 1)
                else
                  && w.task in h.live
                  && var h' := h.(live := h.live - {w.task});
                     Bounded(h') && Undone(h', a, surv, cfg, list, errs, i + 1))
  {
    var n, l := |a.made|, h.lists[list];
    var w := l[i];
    BuildMembers(a.fps[..n], a.tasks, a.made);
    assert w in l;
    TaskIdsDrop(l, i);
    if Find(w.fp, a.tasks).Some? {
      assert w.task in TaskIds(a.tasks);
    } else {
      UniquePrefix(a.fps, n);
      BuildUnique(a.fps[..n], a.tasks, a.made);
      assert w.task !in TaskIds(l[i + 1..]) by {
        assert forall j :: i < j < |l| ==> l[j].task != w.task;
      }
      assert w.task !in TaskIds(a.tasks);
    }
  }

  lemma UniquePrefix(fps: seq<Option<Fingerprint>>, n: nat)
    requires UniqueConfig(fps) && n <= |fps|
    ensures UniqueConfig(fps[..n])
  {
  }

  lemma UndoEnds(h: Heap, a: Attempt, surv: nat, cfg: nat, list: nat, errs: nat, i: nat)
    requires Bounded(h) && Undone(h, a, surv, cfg, list, errs, i) && i == |h.lists[list]|
    ensures var h' := h.(lists := h.lists - {list}, errors := h.errors - {errs});
            Bounded(h') && Failed(h', a, surv, {cfg})
  {
    var h' := h.(lists := h.lists - {list}, errors := h.errors - {errs});
    var b := a.base;
    assert h.lists[list][i..] == [];
    assert h'.lists.Keys == {b.tasks, surv};
    assert h'.errors.Keys == {b.errors};
    assert h'.configs.Keys == {b.config} + {cfg};
  }

  // ---- committing and restoring --------------------------------------------------------------------

  lemma RestoreHeap(h: Heap, a: Attempt, surv: nat, tail: set<nat>)
    requires Bounded(h) && Failed(h, a, surv, tail)
    ensures var h' := h.(lists := h.lists - {surv});
            Bounded(h') && OnlyManaged(h', a.base, tail) && Unchanged(h', a.base, a)
  {
    var h' := h.(lists := h.lists - {surv});
    assert h'.lists.Keys == {a.base.tasks};
  }

  lemma CommitHeap(h: Heap, a: Attempt, surv: nat, cfg: nat, list: nat, errs: nat)
    requires Bounded(h) && Built(h, a, surv, cfg, list, errs, |a.fps|)
    ensures var h', m := h.(lists := h.lists - {surv}), Manager(list, cfg, errs);
            Bounded(h') && Committed(h', m, a.(done := true)) && Reclaiming(h', m, a.(done := true), 0)
  {
    var h' := h.(lists := h.lists - {surv});
    assert a.fps[..|a.fps|] == a.fps;
    assert a.tasks[0..] == a.tasks;
    assert h'.lists.Keys == {a.base.tasks, list};
  }

  // ---- reclaiming ----------------------------------------------------------------------------------

  lemma ReclaimDestroys(h: Heap, m: Manager, a: Attempt, i: nat)
    requires Bounded(h) && Committed(h, m, a) && Reclaiming(h, m, a, i) && i < |a.tasks|
    ensures var w := a.tasks[i];
            if w.fp.Some? && Find(w.fp, h.lists[m.tasks]).Some? then Reclaiming(h, m, a, i + 1)
            else
              && w.task in h.live && w.task !in TaskIds(h.lists[m.tasks])
              && var h' := h.(live := h.live - {w.task});
                 Bounded(h') && Committed(h', m, a) && Reclaiming(h', m, a, i + 1)
  {
    var w := a.tasks[i];
    KeptOrDoomed(a.fps, a.tasks, a.made, w);
    TaskIdsDrop(a.tasks, i);
    assert w.task !in TaskIds(a.tasks[i + 1..]) by {
      assert forall j :: i < j < |a.tasks| ==> a.tasks[j].task != w.task;
    }
  }

  lemma ReclaimEnds(h: Heap, m: Manager, a: Attempt, i: nat)
    requires Bounded(h) && Committed(h, m, a) && Reclaiming(h, m, a, i) && i == |a.tasks|
    ensures var h' := h.(lists := h.lists - {a.base.tasks}, errors := h.errors - {a.base.errors}, configs := h.configs - {a.base.config});
            Bounded(h') && Committed(h', m, a) && OnlyManaged(h', m, {})
  {
    var b := a.base;
    var h' := h.(lists := h.lists - {b.tasks}, errors := h.errors - {b.errors}, configs := h.configs - {b.config});
    BuildUnique(a.fps, a.tasks, a.made);
    assert a.tasks[i..] == [];
    assert h'.lists.Keys == {m.tasks};
    assert h'.errors.Keys == {m.errors};
    assert h'.configs.Keys == {m.config};
  }

  // ---- the parts of the heap predicates that the steps read ---------------------------------------

  lemma ManagedFacts(h: Heap, m: Manager, tail: set<nat>)
    requires OnlyManaged(h, m, tail)
    ensures m.tasks in h.lists && h.live == TaskIds(h.lists[m.tasks])
  {
  }

  lemma CollectedFacts(h: Heap, a: Attempt, cfg: nat, list: nat, i: nat)
    requires Collected(h, a, cfg, list, i)
    ensures i <= |a.fps| && (forall j :: 0 <= j < |a.fps| ==> a.fps[j].Some?)
    ensures cfg in h.configs && h.configs[cfg] == a.fps && list in h.lists && list != a.base.tasks
    ensures a.base.tasks in h.lists && h.lists[a.base.tasks] == a.tasks && h.live == TaskIds(a.tasks)
  {
  }

  lemma BuiltFacts(h: Heap, a: Attempt, surv: nat, cfg: nat, list: nat, errs: nat, i: nat)
    requires Built(h, a, surv, cfg, list, errs, i)
    ensures i == |a.made| <= |a.fps| && (forall j :: 0 <= j < |a.fps| ==> a.fps[j].Some?)
    ensures cfg in h.configs && h.configs[cfg] == a.fps && list in h.lists && errs in h.errors
    ensures a.base.tasks in h.lists && h.lists[a.base.tasks] == a.tasks
    ensures surv in h.lists && list != surv && list != a.base.tasks && errs != a.base.errors
    ensures TaskIds(a.tasks) <= h.live
  {
  }

  lemma UndoneFacts(h: Heap, a: Attempt, surv: nat, cfg: nat, list: nat, errs: nat, i: nat)
    requires Undone(h, a, surv, cfg, list, errs, i)
    ensures list in h.lists && i <= |h.lists[list]| && errs in h.errors
    ensures a.base.tasks in h.lists && h.lists[a.base.tasks] == a.tasks
    ensures surv in h.lists && list != surv && list != a.base.tasks
    ensures TaskIds(a.tasks) <= h.live
  {
  }

  lemma ReclaimingFacts(h: Heap, m: Manager, a: Attempt, i: nat)
    requires Reclaiming(h, m, a, i)
    ensures i <= |a.tasks| && a.base.tasks in h.lists && h.lists[a.base.tasks] == a.tasks && m.tasks in h.lists
    ensures a.base.tasks != m.tasks && a.base.errors in h.errors && a.base.config in h.configs
    ensures TaskIds(h.lists[m.tasks]) <= h.live && h.live <= TaskIds(h.lists[m.tasks]) + TaskIds(a.tasks)
    ensures i == 0 ==> TaskIds(a.tasks) <= h.live
  {
    assert i == 0 ==> a.tasks[i..] == a.tasks;
  }

  // ---- the configuration of a failed build goes away ----------------------------------------------

  lemma TailGone(h: Heap, m: Manager, a: Attempt, cfg: nat)
    requires Bounded(h) && OnlyManaged(h, m, {cfg})
    ensures var h' := h.(configs := h.configs - {cfg});
            && Bounded(h') && OnlyManaged(h', m, {}) && cfg in h.configs
            && (Unchanged(h, m, a) ==> Unchanged(h', m, a)) && (Committed(h, m, a) ==> Committed(h', m, a))
  {
    var h' := h.(configs := h.configs - {cfg});
    assert h'.configs.Keys == {m.config};
  }

  lemma FailedTailGone(h: Heap, a: Attempt, surv: nat, cfg: nat)
    requires Bounded(h) && Failed(h, a, surv, {cfg})
    ensures var h' := h.(configs := h.configs - {cfg});
            Bounded(h') && Failed(h', a, surv, {}) && cfg in h.configs
  {
    var h' := h.(configs := h.configs - {cfg});
    assert h'.configs.Keys == {a.base.config};
  }
}
