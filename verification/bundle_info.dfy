/** BundlePriorityInfo as the shared, mutable object that the account map and
    the index both point to. */
module BundleObjects {
  import opened Collections
  import opened RegistryTypes

  class BundleInfo {
    const uid: int
    const createTime: int
    /** The identity of the object, for the value it stands for. */
    ghost const id: nat
    var priority: int
    var waiting: bool
    var procs: map<int, Proc>

    constructor (uid: int, priority: int, createTime: int, ghost id: nat)
      ensures Value() == Bundle(uid, id, priority, false, createTime, map[])
      ensures this.uid == uid
    {
      this.uid, this.priority, this.createTime, this.id := uid, priority, createTime, id;
      waiting, procs := false, map[];
    }

    ghost function Value(): Bundle
      reads this
    {
      Bundle(uid, id, priority, waiting, createTime, procs)
    }

    /** Inserting an existing pid changes nothing. */
    method AddProc(p: Proc)
      modifies this`procs
      ensures procs == if p.pid in old(procs) then old(procs) else old(procs)[p.pid := p]
    {
      if p.pid !in procs {
        procs := procs[p.pid := p];
      }
    }

    method GetMinProcPriority() returns (m: int)
      ensures m == MinPriority(procs)
    {
      m := PRIORITY_UNKNOWN;
      var pids := Ascending(procs.Keys);
      for i := 0 to |pids|
        invariant m <= PRIORITY_UNKNOWN
        invariant forall k :: 0 <= k < i && !procs[pids[k]].render ==> m <= procs[pids[k]].priority
        invariant m == PRIORITY_UNKNOWN ||
                  exists pid :: pid in procs && !procs[pid].render && procs[pid].priority == m
      {
        assert pids[i] in pids;
        var p := procs[pids[i]];
        if !p.render && p.priority < m {
          m := p.priority;
        }
      }
      forall pid | pid in procs && !procs[pid].render
        ensures m <= procs[pid].priority
      {
        assert pid in pids;
      }
      MinPriorityIs(procs, m);
    }

    method UpdatePriority()
      modifies this`priority
      ensures priority == BundlePriority(procs)
    {
      var target := GetMinProcPriority();
      if target >= PRIORITY_MAX {
        target := PRIORITY_MAX;
      } else if target <= PRIORITY_MIN {
        target := PRIORITY_MIN;
      }
      priority := target;
    }

    /** Moves every process by the same amount. */
    method IncreaseProcsPriority(delta: int)
      modifies this`procs
      ensures procs == Shifted(old(procs), old(procs.Keys), delta)
    {
      hide Shifted, Ascending, Increasing;
      var pids := Ascending(procs.Keys);
      ShiftedNone(procs, delta);
      ghost var start, done: set<int> := procs, {};
      for i := 0 to |pids|
        invariant procs == Shifted(start, done, delta)
        invariant forall pid :: pid in done <==> pid in pids[..i]
      {
        var pid := pids[i];
        NextAscending(pids, i);
        ShiftedStep(start, done, pid, delta);
        procs := procs[pid := procs[pid].(priority := procs[pid].priority + delta)];
        done := done + {pid};
      }
      assert pids[..|pids|] == pids;
      ShiftedAll(start, done, delta);
    }
  }

  /** procs with the priorities of the given pids moved by delta. */
  function Shifted(procs: map<int, Proc>, pids: set<int>, delta: int): map<int, Proc> {
    map pid | pid in procs ::
      if pid in pids then procs[pid].(priority := procs[pid].priority + delta) else procs[pid]
  }

  lemma ShiftedStep(procs: map<int, Proc>, done: set<int>, pid: int, delta: int)
    requires pid in procs && pid !in done
    ensures pid in Shifted(procs, done, delta) && Shifted(procs, done, delta)[pid] == procs[pid]
    ensures Shifted(procs, done + {pid}, delta) ==
            Shifted(procs, done, delta)[pid := procs[pid].(priority := procs[pid].priority + delta)]
  {
  }

  lemma ShiftedAll(procs: map<int, Proc>, done: set<int>, delta: int)
    requires forall pid :: pid in procs ==> pid in done
    ensures Shifted(procs, done, delta) == Shifted(procs, procs.Keys, delta)
  {
    var a, b := Shifted(procs, done, delta), Shifted(procs, procs.Keys, delta);
    assert a.Keys == b.Keys;
    forall pid | pid in a
      ensures a[pid] == b[pid]
    {
      assert pid in procs && pid in procs.Keys;
    }
  }

  lemma ShiftedNone(procs: map<int, Proc>, delta: int)
    ensures Shifted(procs, {}, delta) == procs
  {
  }
}
