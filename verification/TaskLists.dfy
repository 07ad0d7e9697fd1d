/**
  Task lists of the capture worker: sequences of wrapper nodes, each naming a capture task and the
  fingerprint of the configuration entry it was created from. This module defines what the reload
  thread computes from a list and a new configuration, and proves how those lists relate.
 */
module TaskLists {
  import opened Basics

  type Fingerprint = string

  /** One wrapper node. The first configuration may leave fingerprints out. */
  datatype Wrapper = Wrapper(index: int, fp: Option<Fingerprint>, task: nat)

  /** One configuration entry that could not be started. */
  datatype TaskError = TaskError(index: int, fp: Option<Fingerprint>)

  ghost function TaskIds(l: seq<Wrapper>): set<nat> {
    set w | w in l :: w.task
  }

  ghost predicate UniqueTasks(l: seq<Wrapper>) {
    forall i, j :: 0 <= i < j < |l| ==> l[i].task != l[j].task
  }

  /** No two nodes carry the same fingerprint; absent fingerprints may repeat. */
  ghost predicate UniqueFingerprints(l: seq<Wrapper>) {
    forall i, j :: 0 <= i < j < |l| && l[i].fp.Some? ==> l[i].fp != l[j].fp
  }

  /** What the configuration parser guarantees of its fingerprints. */
  ghost predicate UniqueConfig(fps: seq<Option<Fingerprint>>) {
    forall i, j :: 0 <= i < j < |fps| && fps[i].Some? ==> fps[i] != fps[j]
  }

  /** What a reload additionally demands: every entry is fingerprinted. */
  predicate AllFingerprinted(fps: seq<Option<Fingerprint>>) {
    forall i :: 0 <= i < |fps| ==> fps[i].Some?
  }

  /** The first node with fingerprint `fp`. */
  function Find(fp: Option<Fingerprint>, l: seq<Wrapper>): (r: Option<Wrapper>)
    requires fp.Some?
    ensures r.Some? ==> r.value in l && r.value.fp == fp
    ensures r.None? <==> forall w :: w in l ==> w.fp != fp
  {
    if l == [] then None
    else if l[0].fp == fp then Some(l[0])
    else
      assert forall w :: w in l ==> w == l[0] || w in l[1..];
      Find(fp, l[1..])
  }

  lemma FindIsUnique(l: seq<Wrapper>, w: Wrapper)
    requires UniqueFingerprints(l) && w in l && w.fp.Some?
    ensures Find(w.fp, l) == Some(w)
  {
    var r := Find(w.fp, l).value;
    var i :| 0 <= i < |l| && l[i] == w;
    var j :| 0 <= j < |l| && l[j] == r;
    assert i < j ==> l[i].fp != l[j].fp;
    assert j < i ==> l[j].fp != l[i].fp;
  }

  /** Two nodes with one capture task are one node. */
  lemma TaskNamesNode(l: seq<Wrapper>, v: Wrapper, w: Wrapper)
    requires UniqueTasks(l) && v in l && w in l && v.task == w.task
    ensures v == w
  {
    var i :| 0 <= i < |l| && l[i] == v;
    var j :| 0 <= j < |l| && l[j] == w;
    assert !(i < j) && !(j < i);
  }

  /** The nodes of `prev` whose fingerprint the new configuration still names, in configuration order. */
  ghost function SurvivorsOf(fps: seq<Option<Fingerprint>>, prev: seq<Wrapper>): seq<Wrapper>
    requires AllFingerprinted(fps)
  {
    if fps == [] then []
    else
      var k := |fps| - 1;
      SurvivorsOf(fps[..k], prev) + (match Find(fps[k], prev) case Some(w) => [w] case None => [])
  }

  /** The full new list: kept fingerprints reuse their capture task, the others get what creation made. */
  ghost function BuildOf(fps: seq<Option<Fingerprint>>, prev: seq<Wrapper>, made: seq<Option<nat>>): seq<Wrapper>
    requires AllFingerprinted(fps) && |made| == |fps|
  {
    if fps == [] then []
    else
      var k := |fps| - 1;
      BuildOf(fps[..k], prev, made[..k]) +
      match Find(fps[k], prev)
      case Some(w) => [Wrapper(k, fps[k], w.task)]
      case None => if made[k].Some? then [Wrapper(k, fps[k], made[k].value)] else []
  }

  /** The entries that were neither kept nor created. */
  ghost function ErrorsOf(fps: seq<Option<Fingerprint>>, prev: seq<Wrapper>, made: seq<Option<nat>>): seq<TaskError>
    requires AllFingerprinted(fps) && |made| == |fps|
  {
    if fps == [] then []
    else
      var k := |fps| - 1;
      ErrorsOf(fps[..k], prev, made[..k]) +
      (if Find(fps[k], prev).None? && made[k].None? then [TaskError(k, fps[k])] else [])
  }

  /** `made` records creations only: ids that `prev` does not use, each once. */
  ghost predicate FreshlyMade(prev: seq<Wrapper>, made: seq<Option<nat>>) {
    && (forall i :: 0 <= i < |made| && made[i].Some? ==> made[i].value !in TaskIds(prev))
    && (forall i, j :: 0 <= i < j < |made| && made[i].Some? ==> made[i] != made[j])
  }

  lemma {:induction false} SurvivorsMembers(fps: seq<Option<Fingerprint>>, prev: seq<Wrapper>)
    requires AllFingerprinted(fps) && UniqueFingerprints(prev)
    ensures forall w :: w in SurvivorsOf(fps, prev) <==> w in prev && w.fp in fps
  {
    if fps != [] {
      var k := |fps| - 1;
      SurvivorsMembers(fps[..k], prev);
      assert forall f :: f in fps <==> f in fps[..k] || f == fps[k];
      forall w | w in prev && w.fp == fps[k] ensures Find(fps[k], prev) == Some(w) {
        FindIsUnique(prev, w);
      }
    }
  }

  /** No survivor is listed twice. */
  lemma {:induction false} SurvivorsUnique(fps: seq<Option<Fingerprint>>, prev: seq<Wrapper>)
    requires AllFingerprinted(fps) && UniqueConfig(fps) && UniqueTasks(prev) && UniqueFingerprints(prev)
    ensures UniqueTasks(SurvivorsOf(fps, prev))
  {
    hide Find;
    if fps != [] {
      var k := |fps| - 1;
      SurvivorsUnique(fps[..k], prev);
      SurvivorsMembers(fps[..k], prev);
      var l := SurvivorsOf(fps[..k], prev);
      match Find(fps[k], prev) {
        case None =>
        case Some(w) =>
          forall i | 0 <= i < |l|
            ensures l[i].task != w.task
          {
            var v := l[i];
            assert v in l && v.fp != fps[k];
            if v.task == w.task {
              TaskNamesNode(prev, v, w);
            }
          }
      }
    }
  }

  /** The node that entry i gets: its old capture task, or the one made for it. */
  ghost predicate Stands(w: Wrapper, fps: seq<Option<Fingerprint>>, prev: seq<Wrapper>, made: seq<Option<nat>>)
    requires AllFingerprinted(fps) && |made| == |fps|
  {
    && 0 <= w.index < |fps| && w.fp == fps[w.index]
    && match Find(w.fp, prev)
       case Some(o) => w.task == o.task
       case None => made[w.index] == Some(w.task)
  }

  lemma {:induction false} NodesStand(fps: seq<Option<Fingerprint>>, prev: seq<Wrapper>, made: seq<Option<nat>>, w: Wrapper)
    requires AllFingerprinted(fps) && |made| == |fps|
    ensures w in BuildOf(fps, prev, made) <==> Stands(w, fps, prev, made)
  {
    hide Find;
    if fps != [] {
      var k := |fps| - 1;
      NodesStand(fps[..k], prev, made[..k], w);
    }
  }

  /** Every node of the built list, seen from its configuration entry. */
  lemma BuildMembers(fps: seq<Option<Fingerprint>>, prev: seq<Wrapper>, made: seq<Option<nat>>)
    requires AllFingerprinted(fps) && |made| == |fps|
    ensures forall w :: w in BuildOf(fps, prev, made) ==>
              && 0 <= w.index < |fps| && w.fp == fps[w.index]
              && (match Find(w.fp, prev)
                  case Some(o) => w.task == o.task
                  case None => made[w.index] == Some(w.task))
    ensures forall i :: 0 <= i < |fps| ==>
              match Find(fps[i], prev)
              case Some(o) => Wrapper(i, fps[i], o.task) in BuildOf(fps, prev, made)
              case None => made[i].Some? ==> Wrapper(i, fps[i], made[i].value) in BuildOf(fps, prev, made)
  {
    hide Find, BuildOf;
    forall w | w in BuildOf(fps, prev, made)
      ensures Stands(w, fps, prev, made)
    {
      NodesStand(fps, prev, made, w);
    }
    forall i | 0 <= i < |fps|
      ensures match Find(fps[i], prev)
              case Some(o) => Wrapper(i, fps[i], o.task) in BuildOf(fps, prev, made)
              case None => made[i].Some? ==> Wrapper(i, fps[i], made[i].value) in BuildOf(fps, prev, made)
    {
      match Find(fps[i], prev) {
        case Some(o) => NodesStand(fps, prev, made, Wrapper(i, fps[i], o.task));
        case None =>
          if made[i].Some? {
            NodesStand(fps, prev, made, Wrapper(i, fps[i], made[i].value));
          }
      }
    }
  }

  ghost predicate InConfigOrder(l: seq<Wrapper>) {
    forall i, j :: 0 <= i < j < |l| ==> l[i].index < l[j].index
  }

  /** The built list follows configuration order. */
  lemma {:induction false} BuildOrder(fps: seq<Option<Fingerprint>>, prev: seq<Wrapper>, made: seq<Option<nat>>)
    requires AllFingerprinted(fps) && |made| == |fps|
    ensures InConfigOrder(BuildOf(fps, prev, made))
  {
    if fps != [] {
      var k := |fps| - 1;
      BuildOrder(fps[..k], prev, made[..k]);
      BuildMembers(fps[..k], prev, made[..k]);
      var p := BuildOf(fps[..k], prev, made[..k]);
      forall i | 0 <= i < |p| ensures p[i].index < k {
        assert p[i] in p;
      }
    }
  }

  lemma BuildUnique(fps: seq<Option<Fingerprint>>, prev: seq<Wrapper>, made: seq<Option<nat>>)
    requires AllFingerprinted(fps) && |made| == |fps| && UniqueConfig(fps)
    requires UniqueTasks(prev) && FreshlyMade(prev, made)
    ensures UniqueTasks(BuildOf(fps, prev, made)) && UniqueFingerprints(BuildOf(fps, prev, made))
  {
    var l := BuildOf(fps, prev, made);
    BuildOrder(fps, prev, made);
    BuildMembers(fps, prev, made);
    forall i, j | 0 <= i < j < |l| ensures l[i].fp != l[j].fp && l[i].task != l[j].task {
      var v, w := l[i], l[j];
      assert v in l && w in l && v.index < w.index;
      assert fps[v.index] != fps[w.index];
      var fv, fw := Find(v.fp, prev), Find(w.fp, prev);
      if fv.Some? {
        assert v.task in TaskIds(prev);
      }
      if fw.Some? {
        assert w.task in TaskIds(prev);
      }
    }
  }

  /** A node of the old list keeps its capture task in the new list exactly when its fingerprint is still listed. */
  lemma KeptOrDoomed(fps: seq<Option<Fingerprint>>, prev: seq<Wrapper>, made: seq<Option<nat>>, w: Wrapper)
    requires AllFingerprinted(fps) && |made| == |fps|
    requires UniqueTasks(prev) && UniqueFingerprints(prev) && FreshlyMade(prev, made) && w in prev
    ensures var l := BuildOf(fps, prev, made);
            (w.fp.Some? && Find(w.fp, l).Some?) <==> w.task in TaskIds(l)
    ensures w.fp.Some? && Find(w.fp, BuildOf(fps, prev, made)).Some? ==>
              Find(w.fp, BuildOf(fps, prev, made)).value.task == w.task
  {
    var l := BuildOf(fps, prev, made);
    BuildMembers(fps, prev, made);
    if w.fp.Some? {
      FindIsUnique(prev, w);
    }
    if w.task in TaskIds(l) {
      var n :| n in l && n.task == w.task;
      assert w.task in TaskIds(prev);
      TaskNamesNode(prev, Find(n.fp, prev).value, w);
    }
  }

  ghost predicate ErrorsInOrder(es: seq<TaskError>) {
    forall i, j :: 0 <= i < j < |es| ==> es[i].index < es[j].index
  }

  /** The error list follows the configuration and holds exactly the entries that were neither kept nor created. */
  lemma {:induction false} ErrorsAre(fps: seq<Option<Fingerprint>>, prev: seq<Wrapper>, made: seq<Option<nat>>)
    requires AllFingerprinted(fps) && |made| == |fps|
    ensures ErrorsInOrder(ErrorsOf(fps, prev, made))
    ensures forall e :: e in ErrorsOf(fps, prev, made) <==> NeitherKeptNorMade(e, fps, prev, made)
  {
    if fps != [] {
      var k := |fps| - 1;
      ErrorsAre(fps[..k], prev, made[..k]);
      var es := ErrorsOf(fps[..k], prev, made[..k]);
      forall i | 0 <= i < |es|
        ensures es[i].index < k
      {
        assert es[i] in es;
      }
    }
  }

  ghost predicate NeitherKeptNorMade(e: TaskError, fps: seq<Option<Fingerprint>>, prev: seq<Wrapper>, made: seq<Option<nat>>)
    requires AllFingerprinted(fps) && |made| == |fps|
  {
    0 <= e.index < |fps| && e.fp == fps[e.index] && Find(e.fp, prev).None? && made[e.index].None?
  }

  /** Entries are accounted for exactly once: in the built list or in the error list. */
  lemma {:induction false} BuildAccountsForAll(fps: seq<Option<Fingerprint>>, prev: seq<Wrapper>, made: seq<Option<nat>>)
    requires AllFingerprinted(fps) && |made| == |fps|
    ensures |BuildOf(fps, prev, made)| + |ErrorsOf(fps, prev, made)| == |fps|
  {
    if fps != [] {
      var k := |fps| - 1;
      BuildAccountsForAll(fps[..k], prev, made[..k]);
    }
  }

  /** The duplicate check of the configuration parser, entry against all earlier entries. */
  method CheckFingerprints(fps: seq<Option<Fingerprint>>) returns (ok: bool)
    ensures ok <==> UniqueConfig(fps)
  {
    for i := 0 to |fps|
      invariant UniqueConfig(fps[..i])
    {
      if fps[i].Some? {
        for j := 0 to i
          invariant forall k :: 0 <= k < j ==> fps[k].None? || fps[k] != fps[i]
        {
          if fps[j].Some? && fps[i].value == fps[j].value {
            return false;
          }
        }
      }
      assert UniqueConfig(fps[..i + 1]);
    }
    assert fps[..|fps|] == fps;
    return true;
  }
}
