/** The memory fuse: four states, consecutive failed checks, and the reading that tripped it. */
module MemFuse {
  import opened Basics

  const TWO64: nat := 0x1_0000_0000_0000_0000

  datatype State = Disabled | Armed | Tripped | Fused

  datatype Reason = Startup | Runtime

  datatype Reading = Reading(memAvailable: nat, workerRss: nat, nicBufferCfg: nat, newNicBufferCfg: nat, memLimit: nat)

  datatype Snapshot = Snapshot(reason: Reason, fusedAt: nat, reading: Reading)

  /** The resident ring is up to twice the configured buffer; 64-bit arithmetic. */
  function NicBuffer(cfg: nat): nat { cfg * 2 % TWO64 }

  function StartupNeed(r: Reading, minAvailable: nat): nat { (NicBuffer(r.newNicBufferCfg) + minAvailable) % TWO64 }

  /** How many checks at the end of the list failed, one after the other. */
  function Trailing(failed: seq<bool>): (n: nat)
    ensures n <= |failed|
  {
    if failed == [] || !failed[|failed| - 1] then 0 else 1 + Trailing(failed[..|failed| - 1])
  }

  /** At least n checks were made and the last n all failed. */
  ghost predicate LastFailed(failed: seq<bool>, n: nat) {
    n <= |failed| && forall i :: |failed| - n <= i < |failed| ==> failed[i]
  }

  lemma {:induction false} TrailingMeansLastFailed(failed: seq<bool>, n: nat)
    ensures Trailing(failed) >= n <==> LastFailed(failed, n)
  {
    var k := |failed| - 1;
    if n > 0 && failed != [] && failed[k] {
      TrailingMeansLastFailed(failed[..k], n - 1);
      assert LastFailed(failed, n) <==> LastFailed(failed[..k], n - 1);
    }
  }

  lemma TrailingAppend(failed: seq<bool>, b: bool)
    ensures Trailing(failed + [b]) == if b then Trailing(failed) + 1 else 0
  {
    assert (failed + [b])[..|failed|] == failed;
  }

  class Fuse {
    const minAvailable: nat
    const failThreshold: nat
    var state: State
    var enabled: bool
    var hits: nat
    var snap: Option<Snapshot>
    /** The runtime checks made since the fuse was last armed. */
    ghost var checks: seq<bool>
    /** The snapshots of acknowledged reports. */
    ghost var acknowledged: set<Snapshot>

    ghost predicate Valid()
      reads this
    {
      && failThreshold >= 1
      && (state == Tripped ==> snap.Some?)
      && (snap.Some? ==> state == Tripped || state == Fused)
      && (state == Fused && snap.Some? ==> snap.value in acknowledged)
      && (state == Armed ==> hits == Trailing(checks) < failThreshold)
    }

    constructor (minAvailable: nat, failThreshold: nat)
      requires failThreshold >= 1
      ensures Valid() && state == Disabled && snap == None && checks == []
      ensures this.minAvailable == minAvailable && this.failThreshold == failThreshold
    {
      this.minAvailable, this.failThreshold := minAvailable, failThreshold;
      state, enabled, hits, snap, checks, acknowledged := Disabled, false, 0, None, [], {};
    }

    /** The fuse fields of a changed strategy; true when the strategy may be applied. */
    method OnStrategy(on: bool, fused: bool) returns (apply: bool)
      requires Valid()
      modifies this
      ensures Valid() && enabled == on && acknowledged == old(acknowledged)
      ensures old(state) == Tripped ==> !apply && state == Tripped && snap == old(snap) && checks == old(checks)
      ensures old(state) != Tripped && fused ==> !apply && state == Fused && snap == old(snap) && checks == old(checks)
      ensures old(state) != Tripped && !fused ==>
                apply && state == (if on then Armed else Disabled) && snap == None && hits == 0 && checks == []
    {
      enabled := on;
      if state == Tripped {
        return false;
      }
      if fused {
        state, hits := Fused, 0;
        return false;
      }
      snap, hits, checks := None, 0, [];
      state := if on then Armed else Disabled;
      return true;
    }

    /** The startup check: refuses while tripped or fused, and trips when memory is short. */
    method BeforeStart(r: Reading, now: nat) returns (ok: bool)
      requires Valid()
      modifies this
      ensures Valid() && acknowledged == old(acknowledged) && checks == old(checks)
      ensures ok <==> old(state) == Disabled || (old(state) == Armed && r.memAvailable >= StartupNeed(r, minAvailable))
      ensures ok || old(state) != Armed ==> state == old(state) && snap == old(snap)
      ensures !ok && old(state) == Armed ==> state == Tripped && snap == Some(Snapshot(Startup, now, r))
    {
      if state == Disabled {
        return true;
      } else if state == Tripped || state == Fused {
        return false;
      }
      if r.memAvailable >= StartupNeed(r, minAvailable) {
        return true;
      }
      Trip(Startup, r, now);
      return false;
    }

    /** One runtime check: it trips exactly when the last `failThreshold` checks since arming all failed. */
    method OnCheck(r: Reading, now: nat) returns (tripped: bool)
      requires Valid()
      modifies this
      ensures Valid() && acknowledged == old(acknowledged)
      ensures old(state) != Armed ==> !tripped && state == old(state) && snap == old(snap) && checks == old(checks)
      ensures old(state) == Armed ==> checks == old(checks) + [r.memAvailable < minAvailable]
      ensures old(state) == Armed ==> (tripped <==> LastFailed(checks, failThreshold))
      ensures tripped ==> state == Tripped && snap == Some(Snapshot(Runtime, now, r))
      ensures old(state) == Armed && !tripped ==> state == Armed && snap == None
    {
      hide Trailing, LastFailed;
      if state != Armed {
        return false;
      }
      TrailingAppend(checks, r.memAvailable < minAvailable);
      checks := checks + [r.memAvailable < minAvailable];
      TrailingMeansLastFailed(checks, failThreshold);
      if r.memAvailable >= minAvailable {
        hits := 0;
        return false;
      }
      hits := hits + 1;
      tripped := hits >= failThreshold;
      if tripped {
        Trip(Runtime, r, now);
      }
    }

    method Trip(reason: Reason, r: Reading, now: nat)
      modifies this`state, this`snap
      ensures state == Tripped && snap == Some(Snapshot(reason, now, r))
    {
      state, snap := Tripped, Some(Snapshot(reason, now, r));
    }

    /** A report was acknowledged; a tripped fuse becomes fused. `reported` is the snapshot the report carried. */
    method OnReportAck(ghost reported: Option<Snapshot>) returns (confirmed: bool)
      requires Valid() && reported == snap
      modifies this
      ensures Valid() && snap == old(snap) && checks == old(checks)
      ensures confirmed <==> old(state) == Tripped
      ensures state == if confirmed then Fused else old(state)
      ensures acknowledged == old(acknowledged) + if reported.Some? then {reported.value} else {}
    {
      if reported.Some? {
        acknowledged := acknowledged + {reported.value};
      }
      if state != Tripped {
        return false;
      }
      state := Fused;
      return true;
    }

    method Reset()
      requires Valid()
      modifies this
      ensures Valid() && state == Disabled && !enabled && hits == 0 && snap == None && checks == [] && acknowledged == old(acknowledged)
    {
      state, enabled, hits, snap, checks := Disabled, false, 0, None, [];
    }

    /** What the next report says: a fuse round of this process is reported fused, with its snapshot. */
    function Report(): (r: (State, Option<Snapshot>))
      reads this
      requires snap.Some? ==> state == Tripped || state == Fused
      ensures r.0 == Fused <==> snap.Some?
      ensures r.1 == snap && r.0 != Tripped
      ensures r.0 == Armed <==> snap == None && (state == Armed || (state == Fused && enabled))
    {
      if snap.Some? then (Fused, snap)
      else if state == Armed || (state == Fused && enabled) then (Armed, None)
      else (Disabled, None)
    }
  }
}
