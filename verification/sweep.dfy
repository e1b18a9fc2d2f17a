/** FilterDiedProcess: what the periodic sweep leaves registered, and when the
    priorities it does not recompute are still right. */
module DiedProcessSweep {
  import opened RegistryTypes
  import opened Registry
  import opened RegistryInvariant
  import opened StepFrame
  import opened StartTimers
  import opened AbilityStartWindow
  import opened WalkCompletion
  import opened ExtensionPass

  ghost predicate EdgesWithin(edges: map<int, int>, before: map<int, int>, alive: set<int>) {
    && (forall pid :: pid in edges <==> pid in before && pid in alive)
    && (forall pid :: pid in edges ==> edges[pid] == before[pid])
  }

  /** After a sweep the registered processes are the previous ones that are
      alive, unchanged but for the edges to dead processes, no bundle is empty,
      and the index agrees with the map. */
  lemma SweepLeavesTheLiving(s: State, alive: set<int>)
    requires Inv(s)
    ensures var t := HandleSweep(s, alive);
      && Inv(t)
      && (forall uid, pid :: Registered(t, uid, pid) <==> Registered(s, uid, pid) && pid in alive)
      && (forall uid, pid :: Registered(t, uid, pid) ==>
            var p, q := ProcAt(s, uid, pid), ProcAt(t, uid, pid);
            && EdgesWithin(q.bindToMe, p.bindToMe, alive)
            && EdgesWithin(q.bindFromMe, p.bindFromMe, alive)
            && q == p.(bindToMe := q.bindToMe, bindFromMe := q.bindFromMe))
      && (forall uid :: uid in t.bundles ==> t.bundles[uid].priority == s.bundles[uid].priority)
  {
    SweepKeeps(s, alive);
    var t := HandleSweep(s, alive);
    forall uid, pid | Registered(s, uid, pid) && pid in alive
      ensures Registered(t, uid, pid)
    {
      assert Survives(s.bundles[uid], alive);
    }
  }

  function Clamped(priority: int): int { AtLeast(AtMost(priority, PRIORITY_MAX), PRIORITY_MIN) }

  /** A living process has the priority the bundle stands at. */
  ghost predicate LeastSurvives(b: Bundle, alive: set<int>) {
    b.priority == PRIORITY_MAX ||
    exists pid :: pid in b.procs && pid in alive && Clamped(b.procs[pid].priority) == b.priority
  }

  lemma ClampedAttained(procs: map<int, Proc>, priority: int)
    requires forall pid :: pid in procs ==> !procs[pid].render
    requires priority <= BundlePriority(procs)
    ensures priority == BundlePriority(procs) <==>
            (priority == PRIORITY_MAX || exists pid :: pid in procs && Clamped(procs[pid].priority) == priority)
  {
    var m := MinPriority(procs);
    if priority == BundlePriority(procs) && m != PRIORITY_UNKNOWN {
      var w :| w in procs && !procs[w].render && procs[w].priority == m;
      assert Clamped(procs[w].priority) == priority;
    }
    if pid :| pid in procs && Clamped(procs[pid].priority) == priority {
      assert m <= procs[pid].priority;
    }
  }

  /** The sweep keeps a bundle exact if and only if the least process survives. */
  lemma SweepExactIff(s: State, alive: set<int>, uid: int)
    requires Inv(s) && uid in HandleSweep(s, alive).bundles
    ensures Exact(HandleSweep(s, alive).bundles[uid]) <==> LeastSurvives(s.bundles[uid], alive)
  {
    SweepKeeps(s, alive);
    var b, c := s.bundles[uid], HandleSweep(s, alive).bundles[uid];
    assert BundleOk(uid, b) && BundleOk(uid, c);
    assert c.procs == SweptProcs(b.procs, alive);
    ClampedAttained(c.procs, c.priority);
    assert forall pid :: pid in c.procs <==> pid in b.procs && pid in alive;
  }

  // ----- a run on which it does not

  const STALE_EVENTS := [
    Create(1, 1, None, false, 0), Create(1, 2, None, false, 0), Update(Background, 1, 2, INVALID_TIME), Sweep({2})]

  /** In the background the second process is at 400, the first stays at 0. */
  lemma AfterBackground(s: State) returns (s': State)
    requires Healthy(s) && TargetsMarked(s)
    requires forall n: Ref :: RefRegistered(s, n) <==> n == Ref(1, 1) || n == Ref(2, 1)
    requires RefProc(s, Ref(1, 1)) == CreatedProc(STALE_EVENTS[0])
    requires RefProc(s, Ref(2, 1)) == CreatedProc(STALE_EVENTS[1])
    ensures Step(s, STALE_EVENTS[2], s') && Healthy(s')
    ensures Registered(s', 1, 1) && ProcAt(s', 1, 1).priority == 0
    ensures Registered(s', 1, 2) && ProcAt(s', 1, 2).priority == 400
  {
    hide Inv, AllExact, UniqueProcs, TimersOk, TargetsMarked, Step;
    var e := STALE_EVENTS[2];
    assert RefRegistered(s, Ref(1, 1)) && RefRegistered(s, Ref(2, 1));
    forall pid | pid in s.bundles[1].procs
      ensures s.bundles[1].procs[pid].priority >= 0
    {
      assert RefRegistered(s, Ref(pid, 1));
    }
    OrdinaryBundle(s, 1);
    TameCompletes(s, e);
    s' :| Step(s, e, s');
    StepHealthy(s, e, s');
    PlainUpdateStep(s, e, s', 1, 2);
    StepElsewhere(s, e, s', 1, 1);
  }

  /** The sweep takes the process the bundle stands at. */
  lemma SweepMisses(s: State)
    requires Inv(s) && Registered(s, 1, 1) && ProcAt(s, 1, 1).priority == 0
    requires Registered(s, 1, 2) && ProcAt(s, 1, 2).priority == 400
    ensures 1 in HandleSweep(s, {2}).bundles && !Exact(HandleSweep(s, {2}).bundles[1])
  {
    hide Inv, HandleSweep, Exact;
    SweepLeavesTheLiving(s, {2});
    ProcAboveBundle(s, 1, 1);
    assert Registered(HandleSweep(s, {2}), 1, 2);
    SweepExactIff(s, {2}, 1);
  }

  /** Four events, the last of them a sweep, that leave a bundle below its
      minimum; before the sweep it was exact. */
  lemma SweepCanLeaveStale() returns (states: seq<State>)
    ensures Run(states, STALE_EVENTS)
    ensures 1 in states[3].bundles && Exact(states[3].bundles[1])
    ensures 1 in states[4].bundles && !Exact(states[4].bundles[1])
  {
    hide Handle, Step, Inv, UniqueProcs, TimersOk, TargetsMarked, Exact, HandleSweep;
    var s1, s2 := TwoCreations(STALE_EVENTS[0], STALE_EVENTS[1]);
    var s3 := AfterBackground(s2);
    SweepMisses(s3);
    var s4 := HandleSweep(s3, {2});
    SweepIsStep(s3, {2});
    states := [EMPTY, s1, s2, s3, s4];
    forall i | 0 <= i < 4
      ensures Step(states[i], STALE_EVENTS[i], states[i + 1])
    {
      assert i == 0 || i == 1 || i == 2 || i == 3;
    }
  }

  lemma SweepIsStep(s: State, alive: set<int>)
    ensures Step(s, Sweep(alive), HandleSweep(s, alive))
  {
  }
}
