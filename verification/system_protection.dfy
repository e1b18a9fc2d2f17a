/** Processes at or below -800 stay there, and keep their bundle there, over
    every run; only a reset or the death of the process ends it. */
module SystemProtection {
  import opened RegistryTypes
  import opened Registry
  import opened RegistryInvariant
  import opened StepFrame

  predicate GuardProc(p: Proc) {
    p.priority <= PRIORITY_KILLABLE_SYSTEM && !p.extension && !p.render
  }

  predicate Guarded(s: State, uid: int, pid: int) {
    Registered(s, uid, pid) && GuardProc(ProcAt(s, uid, pid))
  }

  lemma GuardedBundle(s: State, uid: int, pid: int)
    requires Inv(s) && Guarded(s, uid, pid)
    ensures SystemBundle(s.bundles[uid])
  {
    ProcAboveBundle(s, uid, pid);
    assert BundleOk(uid, s.bundles[uid]);
  }

  /** The events that may end the protection of pid. */
  predicate Ends(e: Event, pid: int) {
    e.Reset? || (e.Sweep? && pid !in e.alive)
  }

  lemma UpdateByStatusRefused(s: State, uid: int, pid: int)
    requires Registered(s, uid, pid) && SystemBundle(s.bundles[uid])
    ensures UpdateByStatus(s, uid, pid) == Done(s)
  {
  }

  /** An event addressed to such a process, or to its whole bundle, does not
      get as far as a change of priority, nor as far as making it an extension. */
  lemma AddressedGuards(s: State, e: Event, uid: int, pid: int)
    requires Inv(s) && Guarded(s, uid, pid) && !Ends(e, pid) && !Elsewhere(s, e, uid, pid)
    ensures Handle(s, e).Done? && Guarded(Handle(s, e).state, uid, pid)
  {
    hide HandleUpdate, HandleTerminate, HandleSuspend, HandleCreate, UpdateByStatus, Resort;
    GuardedBundle(s, uid, pid);
    match e
    case Terminate(_, _) =>
    case Suspend(_, _) =>
    case Update(_, _, _, _) =>
    case Bind(_, _, _, _, _) => assert Guarded(BindCaller(s, e), uid, pid);
    case AbilityStart(_, _, _) =>
    case StartTimer(which) =>
      var t := s.(timers := s.timers[..which] + s.timers[which + 1..]);
      UpdateByStatusRefused(Put(t, uid, pid, ProcAt(t, uid, pid).(starting := false)), uid, pid);
    case CreateTimer(_, _) => UpdateByStatusRefused(s, uid, pid);
  }

  lemma StepGuards(s: State, e: Event, s': State, uid: int, pid: int)
    requires Inv(s) && Step(s, e, s') && Guarded(s, uid, pid) && !Ends(e, pid)
    ensures Guarded(s', uid, pid)
  {
    hide Handle;
    if Elsewhere(s, e, uid, pid) {
      StepElsewhere(s, e, s', uid, pid);
    } else {
      AddressedGuards(s, e, uid, pid);
    }
  }

  /** A process at or below -800 keeps its bundle there for the rest of the
      run, unless a reset comes or a sweep finds the process dead. */
  lemma {:induction false} GuardStays(states: seq<State>, events: seq<Event>, i: nat, j: nat, uid: int, pid: int)
    requires Run(states, events) && i <= j < |states|
    requires Guarded(states[i], uid, pid)
    requires forall k :: i <= k < j ==> !Ends(events[k], pid)
    ensures Guarded(states[j], uid, pid) && SystemBundle(states[j].bundles[uid])
  {
    hide Step;
    RunInvariant(states, events, j);
    if i < j {
      GuardStays(states, events, i, j - 1, uid, pid);
      RunInvariant(states, events, j - 1);
      StepGuards(states[j - 1], events[j - 1], states[j], uid, pid);
    }
    GuardedBundle(states[j], uid, pid);
  }

  /** A bundle at or below -800 owes it to such a process. */
  lemma GuardExists(s: State, uid: int) returns (pid: int)
    requires Inv(s) && AllExact(s) && uid in s.bundles && SystemBundle(s.bundles[uid])
    ensures Guarded(s, uid, pid)
  {
    var b := s.bundles[uid];
    assert Exact(b) && BundleOk(uid, b);
    pid :| pid in b.procs && !b.procs[pid].render && b.procs[pid].priority == MinPriority(b.procs);
  }

  /** Once at or below -800, always at or below -800: on every run without a
      sweep or a reset. */
  lemma SystemBundleStays(states: seq<State>, events: seq<Event>, i: nat, j: nat, uid: int)
    requires Run(states, events) && i <= j < |states|
    requires forall k :: 0 <= k < |events| ==> !events[k].Sweep? && !events[k].Reset?
    requires uid in states[i].bundles && SystemBundle(states[i].bundles[uid])
    ensures uid in states[j].bundles && SystemBundle(states[j].bundles[uid])
  {
    hide Step;
    RunInvariant(states, events, i);
    RunExact(states, events, i);
    var pid := GuardExists(states[i], uid);
    GuardStays(states, events, i, j, uid, pid);
  }
}
