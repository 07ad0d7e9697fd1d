/** Start-up of the task manager: the first configuration becomes the first live list. */
module TaskManager {
  import opened Basics
  import opened TaskLists
  import opened ReloadModel

  /** Node i of the start-up list, if its capture task could be created; its identity is its index. */
  ghost predicate FromEntry(w: Wrapper, fps: seq<Option<Fingerprint>>, created: seq<bool>)
    requires |created| == |fps|
  {
    0 <= w.index < |fps| && created[w.index] && w == Wrapper(w.index, fps[w.index], w.index)
  }

  /** Entry i, if its capture task could not be created. */
  ghost predicate FailedEntry(e: TaskError, fps: seq<Option<Fingerprint>>, created: seq<bool>)
    requires |created| == |fps|
  {
    0 <= e.index < |fps| && !created[e.index] && e.fp == fps[e.index]
  }

  /**
    Creates a capture task per entry; an entry that fails is recorded, a record that cannot be
    allocated ends start-up. `created` and `nodeOk` are the outcomes of the capture tasks and of the
    records.
   */
  method NewTaskManager(fps: seq<Option<Fingerprint>>, created: seq<bool>, nodeOk: seq<bool>)
    returns (started: bool, tasks: seq<Wrapper>, errors: seq<TaskError>)
    requires |created| == |nodeOk| == |fps|
    ensures started <==> forall i :: 0 <= i < |fps| ==> nodeOk[i]
    ensures started ==> InConfigOrder(tasks) && |tasks| + |errors| == |fps|
    ensures started ==> forall w :: w in tasks <==> FromEntry(w, fps, created)
    ensures started ==> ErrorsInOrder(errors)
    ensures started ==> forall e :: e in errors <==> FailedEntry(e, fps, created)
  {
    started, tasks, errors := true, [], [];
    for i := 0 to |fps|
      invariant started && InConfigOrder(tasks) && |tasks| + |errors| == i
      invariant forall j :: 0 <= j < i ==> nodeOk[j]
      invariant forall w :: w in tasks <==> FromEntry(w, fps, created) && w.index < i
      invariant ErrorsInOrder(errors)
      invariant forall e :: e in errors <==> FailedEntry(e, fps, created) && e.index < i
    {
      if !nodeOk[i] {
        return false, [], [];
      }
      if created[i] {
        assert forall k :: 0 <= k < |tasks| ==> tasks[k] in tasks;
        tasks := tasks + [Wrapper(i, fps[i], i)];
      } else {
        assert forall k :: 0 <= k < |errors| ==> errors[k] in errors;
        errors := errors + [TaskError(i, fps[i])];
      }
    }
  }

  /** The state in which the threads start, for a start-up that succeeded. */
  ghost function Started(pipeline: bool, fps: seq<Option<Fingerprint>>, tasks: seq<Wrapper>, errors: seq<TaskError>): State {
    var n := |fps|;
    State(pipeline, Heap(n + 3, TaskIds(tasks), map[n := tasks], map[n + 1 := fps], map[n + 2 := errors]),
          Manager(n, n + 1, n + 2), Idle, MLoop, false, RptReclaimed, false, RptReclaimed, false,
          NO_CTX, RIdle, [], OTop, false, false,
          Attempt(Manager(n, n + 1, n + 2), tasks, fps, errors, false, [], [], false), {})
  }

  /** Start-up meets the premise of the reload protocol whenever the parser accepted the fingerprints. */
  lemma StartUpIsInit(pipeline: bool, fps: seq<Option<Fingerprint>>, created: seq<bool>, tasks: seq<Wrapper>, errors: seq<TaskError>)
    requires |created| == |fps| && UniqueConfig(fps) && InConfigOrder(tasks)
    requires forall w :: w in tasks <==> FromEntry(w, fps, created)
    ensures Init(Started(pipeline, fps, tasks, errors))
  {
    forall i, j | 0 <= i < j < |tasks|
      ensures tasks[i].task != tasks[j].task && (tasks[i].fp.Some? ==> tasks[i].fp != tasks[j].fp)
    {
      assert tasks[i] in tasks && tasks[j] in tasks;
    }
  }
}
