/** The pending "ability start completed" checks: on every run each starting
    process has exactly one, its own. */
module StartTimers {
  import opened RegistryTypes
  import opened Registry
  import opened RegistryInvariant
  import opened ExtensionPass

  // ----- timers

  function TimersOf(timers: seq<Timer>, pid: int): seq<Timer> {
    if timers == [] then []
    else (if timers[0].pid == pid then [timers[0]] else []) + TimersOf(timers[1..], pid)
  }

  lemma {:induction false} TimersOfAppend(a: seq<Timer>, b: seq<Timer>, pid: int)
    ensures TimersOf(a + b, pid) == TimersOf(a, pid) + TimersOf(b, pid)
    decreases |a|
  {
    if a == [] {
      assert a + b == b;
    } else {
      var head := if a[0].pid == pid then [a[0]] else [];
      assert (a + b)[0] == a[0] && (a + b)[1..] == a[1..] + b;
      TimersOfAppend(a[1..], b, pid);
      assert TimersOf(a, pid) == head + TimersOf(a[1..], pid);
      assert TimersOf(a + b, pid) == head + TimersOf(a[1..] + b, pid);
    }
  }

  lemma {:induction false} TimersOfWithout(timers: seq<Timer>, gone: int, pid: int)
    ensures TimersOf(WithoutTimers(timers, gone), pid) == if pid == gone then [] else TimersOf(timers, pid)
    decreases |timers|
  {
    if timers != [] {
      var head := if timers[0].pid == gone then [] else [timers[0]];
      TimersOfWithout(timers[1..], gone, pid);
      TimersOfAppend(head, WithoutTimers(timers[1..], gone), pid);
      assert timers[0].pid != gone ==> head[1..] == [];
    }
  }

  lemma TimersOfFired(timers: seq<Timer>, which: nat, pid: int)
    requires which < |timers|
    ensures pid != timers[which].pid ==>
            TimersOf(timers[..which] + timers[which + 1..], pid) == TimersOf(timers, pid)
    ensures pid == timers[which].pid ==> timers[which] in TimersOf(timers, pid)
  {
    var a, t, c := timers[..which], timers[which], timers[which + 1..];
    assert timers == a + [t] + c;
    TimersOfAppend(a, c, pid);
    TimersOfAppend(a + [t], c, pid);
    TimersOfAppend(a, [t], pid);
    assert [t][1..] == [];
    assert TimersOf([t], pid) == if t.pid == pid then [t] else [];
  }

  /** The one pending check of a starting process is its own. */
  ghost predicate TimersOk(s: State) {
    forall uid, pid :: Registered(s, uid, pid) && ProcAt(s, uid, pid).starting ==>
      TimersOf(s.timers, pid) == [Timer(pid, uid)]
  }

  /** Every starting process of t was starting in s, and the timers are the same. */
  ghost predicate NoNewStart(s: State, t: State) {
    && t.timers == s.timers
    && forall uid, pid :: Registered(t, uid, pid) && ProcAt(t, uid, pid).starting ==>
         Registered(s, uid, pid) && ProcAt(s, uid, pid).starting
  }

  lemma NoNewStartOk(s: State, t: State)
    requires TimersOk(s) && NoNewStart(s, t)
    ensures TimersOk(t)
  {
  }

  /** A status update: starting flags may only be cleared, with their timers. */
  lemma StatusTimers(s: State, uid: int, pid: int)
    requires Registered(s, uid, pid)
    ensures NoNewStart(s, UpdateByStatus(s, uid, pid).state)
  {
    var p := ProcAt(s, uid, pid);
    AssignSlot(s, uid, pid, p.(priority := AdjustedPriority(p)));
  }

  lemma UpdateTimers(s: State, reason: Reason, uid: int, pid: int, time: int)
    requires TimersOk(s) && UniqueProcs(s) && Registered(s, uid, pid)
    ensures TimersOk(HandleUpdate(s, reason, uid, pid, time).state)
  {
    var p := ProcAt(s, uid, pid);
    var q := AfterReason(p, reason, time);
    var ends := FinishesStart(p, reason, time);
    var t := Put(s, uid, pid, q).(timers := if ends then WithoutTimers(s.timers, pid) else s.timers);
    forall u, x | Registered(t, u, x) && ProcAt(t, u, x).starting
      ensures TimersOf(t.timers, x) == [Timer(x, u)]
    {
      assert Registered(s, u, x) && ProcAt(s, u, x).starting;
      assert x == pid ==> u == uid;
      TimersOfWithout(s.timers, pid, x);
    }
    StatusTimers(t, uid, pid);
    NoNewStartOk(t, UpdateByStatus(t, uid, pid).state);
  }

  lemma AbilityStartTimers(s: State, uid: int, pid: int, time: int)
    requires TimersOk(s) && UniqueProcs(s) && Registered(s, uid, pid)
    ensures TimersOk(HandleAbilityStart(s, uid, pid, time))
  {
    hide Resort;
    var p := ProcAt(s, uid, pid);
    if MayStartAbility(p) {
      var q := p.(priority := PRIORITY_FOREGROUND, startTime := time, starting := true);
      AssignSlot(s, uid, pid, q);
      var t := HandleAbilityStart(s, uid, pid, time);
      var kept := WithoutTimers(s.timers, pid);
      assert t.timers == kept + [Timer(pid, uid)];
      forall u, x | Registered(t, u, x) && ProcAt(t, u, x).starting
        ensures TimersOf(t.timers, x) == [Timer(x, u)]
      {
        assert Registered(s, u, x);
        TimersOfWithout(s.timers, pid, x);
        TimersOfAppend(kept, [Timer(pid, uid)], x);
        assert [Timer(pid, uid)][1..] == [];
        assert TimersOf([Timer(pid, uid)], x) == if x == pid then [Timer(pid, uid)] else [];
        if x == pid { assert u == uid; }
      }
    }
  }

  lemma FireTimers(s: State, which: nat)
    requires TimersOk(s) && UniqueProcs(s) && which < |s.timers|
    ensures TimersOk(HandleStartTimer(s, which).state)
  {
    var timer := s.timers[which];
    var t := s.(timers := s.timers[..which] + s.timers[which + 1..]);
    var live := Registered(t, timer.uid, timer.pid) && ProcAt(t, timer.uid, timer.pid).starting;
    var t' := if live then Put(t, timer.uid, timer.pid, ProcAt(t, timer.uid, timer.pid).(starting := false)) else t;
    forall u, x | Registered(t', u, x) && ProcAt(t', u, x).starting
      ensures TimersOf(t'.timers, x) == [Timer(x, u)]
    {
      assert Registered(s, u, x) && ProcAt(s, u, x).starting;
      TimersOfFired(s.timers, which, x);
      assert x != timer.pid;
    }
    if live {
      StatusTimers(t', timer.uid, timer.pid);
      NoNewStartOk(t', UpdateByStatus(t', timer.uid, timer.pid).state);
    }
  }

  lemma BindTimers(s: State, e: Event)
    requires TimersOk(s) && UniqueProcs(s) && e.Bind?
    ensures TimersOk(HandleBind(s, e).state)
  {
    var t := BindCaller(s, e);
    assert NoNewStart(s, t) && SameProcs(s, t);
    if RefRegistered(t, e.target) {
      var uid, pid := e.target.uid, e.target.pid;
      var t' := Put(t, uid, pid, BoundTarget(RefProc(t, e.target), e));
      assert NoNewStart(t, t') && SameProcs(t, t');
      UpdateTimers(t', if e.bind then BindExtension else UnbindExtension, uid, pid, e.time);
    }
  }

  lemma CreateTimers(s: State, e: Event)
    requires e.Create?
    ensures NoNewStart(s, HandleCreate(s, e))
    ensures forall uid, pid :: Registered(HandleCreate(s, e), uid, pid) <==>
              Registered(s, uid, pid) || (uid == e.uid && pid == e.pid)
  {
    var t := WithBundle(s, e);
    assert NoNewStart(s, t) && SameProcs(s, t);
    if e.pid in t.bundles[e.uid].procs {
      ResortReplaces(t, e.uid);
    } else {
      AssignSlot(t, e.uid, e.pid, CreatedProc(e));
    }
  }

  /** The handlers that take processes away or leave the registry as it is. */
  ghost predicate Fewer(s: State, t: State) {
    && NoNewStart(s, t)
    && forall uid, pid :: Registered(t, uid, pid) ==> Registered(s, uid, pid)
  }

  lemma TerminateFewer(s: State, uid: int, pid: int)
    requires Registered(s, uid, pid)
    ensures Fewer(s, HandleTerminate(s, uid, pid))
  {
    var t := s.(bundles := s.bundles[uid := WithoutProc(s.bundles[uid], pid)]);
    ResortReplaces(t, uid);
  }

  lemma SuspendFewer(s: State, uid: int)
    requires uid in s.bundles
    ensures Fewer(s, HandleSuspend(s, uid))
  {
    var b := s.bundles[uid];
    ResortReplaces(s.(bundles := s.bundles[uid := b.(procs := SuspendedProcs(b.procs))]), uid);
  }

  /** A pid is not created under a second uid while it is registered. */
  ghost predicate FreshPid(s: State, e: Event) {
    e.Create? ==> forall v :: Registered(s, v, e.pid) ==> v == e.uid
  }

  lemma HandleTimers(s: State, e: Event)
    requires TimersOk(s) && UniqueProcs(s) && FreshPid(s, e)
    ensures TimersOk(Handle(s, e).state)
  {
    hide HandleCreate, HandleTerminate, HandleSuspend, HandleUpdate, HandleBind, HandleAbilityStart, HandleStartTimer, UpdateByStatus;
    match e
    case Create(_, _, _, _, _) => CreateTimers(s, e);
    case RenderCreate(_, _) =>
    case Terminate(uid, pid) => if Registered(s, uid, pid) { TerminateFewer(s, uid, pid); }
    case Suspend(uid, pid) => if uid in s.bundles { SuspendFewer(s, uid); }
    case Update(reason, uid, pid, time) => if Registered(s, uid, pid) { UpdateTimers(s, reason, uid, pid, time); }
    case Bind(_, _, _, _, _) => BindTimers(s, e);
    case AbilityStart(uid, pid, time) => if Registered(s, uid, pid) { AbilityStartTimers(s, uid, pid, time); }
    case StartTimer(which) => if which < |s.timers| { FireTimers(s, which); }
    case CreateTimer(uid, pid) => if Registered(s, uid, pid) { StatusTimers(s, uid, pid); }
    case Sweep(alive) => assert NoNewStart(s, HandleSweep(s, alive));
    case Reset =>
    case MarkWaiting(uid) => assert NoNewStart(s, HandleMark(s, uid));
  }

  lemma HandleUnique(s: State, e: Event)
    requires UniqueProcs(s) && FreshPid(s, e)
    ensures UniqueProcs(Handle(s, e).state)
  {
    hide HandleCreate, HandleTerminate, HandleSuspend, HandleUpdate, HandleBind, HandleAbilityStart, HandleStartTimer, UpdateByStatus;
    match e
    case Create(_, _, _, _, _) => CreateTimers(s, e);
    case RenderCreate(_, _) =>
    case Terminate(uid, pid) => if Registered(s, uid, pid) { TerminateFewer(s, uid, pid); }
    case Suspend(uid, pid) => if uid in s.bundles { SuspendFewer(s, uid); }
    case Update(reason, uid, pid, time) => if Registered(s, uid, pid) { UpdateSameProcs(s, reason, uid, pid, time); }
    case Bind(_, _, _, _, _) => BindSameProcs(s, e);
    case AbilityStart(uid, pid, time) => if Registered(s, uid, pid) { StartUnique(s, uid, pid, time); }
    case StartTimer(which) => if which < |s.timers| { FireSameProcs(s, which); }
    case CreateTimer(uid, pid) => if Registered(s, uid, pid) { StatusSameProcs(s, uid, pid); }
    case Sweep(alive) => assert Fewer(s, HandleSweep(s, alive));
    case Reset =>
    case MarkWaiting(uid) => assert SameProcs(s, HandleMark(s, uid));
  }

  lemma StartUnique(s: State, uid: int, pid: int, time: int)
    requires Registered(s, uid, pid)
    ensures SameProcs(s, HandleAbilityStart(s, uid, pid, time))
  {
    var p := ProcAt(s, uid, pid);
    AssignSlot(s, uid, pid, p.(priority := PRIORITY_FOREGROUND, startTime := time, starting := true));
  }

  lemma StepTimers(s: State, e: Event, s': State)
    requires Step(s, e, s') && TimersOk(s) && UniqueProcs(s) && FreshPid(s, e)
    ensures TimersOk(s') && UniqueProcs(s')
  {
    HandleTimers(s, e);
    HandleUnique(s, e);
    match Handle(s, e)
    case Done(t) =>
    case Spread(t, start) =>
      var order :| IsPassOrder(t, start, order) && s' == Pass(t, order);
      PassFrame(t, order);
      assert SameProcs(t, s');
      assert NoNewStart(t, s');
  }

  /** In every state of every run, each starting process has exactly one
      pending timer, and it is its own. */
  lemma {:induction false} RunTimers(states: seq<State>, events: seq<Event>, i: nat)
    requires Run(states, events) && i < |states|
    requires forall k :: 0 <= k < |events| ==> FreshPid(states[k], events[k])
    ensures TimersOk(states[i]) && UniqueProcs(states[i])
  {
    hide Step;
    if i > 0 {
      RunTimers(states, events, i - 1);
      StepTimers(states[i - 1], events[i - 1], states[i]);
    }
  }
}
