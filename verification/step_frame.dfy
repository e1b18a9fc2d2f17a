/** What a step does to a process it is not addressed to. */
module StepFrame {
  import opened RegistryTypes
  import opened Registry
  import opened RegistryInvariant
  import opened ExtensionPass

  predicate SameButEdges(p: Proc, q: Proc) {
    q == p.(bindToMe := q.bindToMe, bindFromMe := q.bindFromMe)
  }

  /** The event is not addressed to the process. */
  predicate Elsewhere(s: State, e: Event, uid: int, pid: int) {
    match e
    case Create(_, _, _, _, _) => true
    case RenderCreate(_, _) => true
    case Terminate(u, x) => u != uid || x != pid
    case Suspend(u, _) => u != uid
    case Update(_, u, x, _) => u != uid || x != pid
    case Bind(_, target, _, _, _) => target != Ref(pid, uid)
    case AbilityStart(u, x, _) => u != uid || x != pid
    case StartTimer(which) => which < |s.timers| ==> s.timers[which] != Timer(pid, uid)
    case CreateTimer(u, x) => u != uid || x != pid
    case Sweep(alive) => pid in alive
    case Reset => false
    case MarkWaiting(_) => true
  }

  ghost predicate LeftAlone(s: State, t: State, uid: int, pid: int) {
    Registered(s, uid, pid) && Registered(t, uid, pid) && SameButEdges(ProcAt(s, uid, pid), ProcAt(t, uid, pid))
  }

  lemma StatusElsewhere(s: State, u: int, x: int, uid: int, pid: int)
    requires Registered(s, uid, pid) && Registered(s, u, x) && (u != uid || x != pid)
    ensures LeftAlone(s, UpdateByStatus(s, u, x).state, uid, pid)
  {
    var p := ProcAt(s, u, x);
    AssignSlot(s, u, x, p.(priority := AdjustedPriority(p)));
  }

  lemma UpdateElsewhere(s: State, reason: Reason, u: int, x: int, time: int, uid: int, pid: int)
    requires Registered(s, uid, pid) && Registered(s, u, x) && (u != uid || x != pid)
    ensures LeftAlone(s, HandleUpdate(s, reason, u, x, time).state, uid, pid)
  {
    hide UpdateByStatus, Recorded;
    var p := ProcAt(s, u, x);
    var timers := if FinishesStart(p, reason, time) then WithoutTimers(s.timers, x) else s.timers;
    var t := Put(s, u, x, AfterReason(p, reason, time)).(timers := timers);
    StatusElsewhere(t, u, x, uid, pid);
  }

  lemma BindElsewhere(s: State, e: Event, uid: int, pid: int)
    requires Registered(s, uid, pid) && e.Bind? && e.target != Ref(pid, uid)
    ensures LeftAlone(s, HandleBind(s, e).state, uid, pid)
  {
    hide HandleUpdate;
    var t := BindCaller(s, e);
    assert LeftAlone(s, t, uid, pid);
    if RefRegistered(t, e.target) {
      var u, x := e.target.uid, e.target.pid;
      var t' := Put(t, u, x, BoundTarget(RefProc(t, e.target), e));
      UpdateElsewhere(t', if e.bind then BindExtension else UnbindExtension, u, x, e.time, uid, pid);
    }
  }

  lemma StartElsewhere(s: State, u: int, x: int, time: int, uid: int, pid: int)
    requires Registered(s, uid, pid) && Registered(s, u, x) && (u != uid || x != pid)
    ensures LeftAlone(s, HandleAbilityStart(s, u, x, time), uid, pid)
  {
    var p := ProcAt(s, u, x);
    AssignSlot(s, u, x, p.(priority := PRIORITY_FOREGROUND, startTime := time, starting := true));
  }

  lemma FireElsewhere(s: State, which: nat, uid: int, pid: int)
    requires Registered(s, uid, pid) && which < |s.timers| && s.timers[which] != Timer(pid, uid)
    ensures LeftAlone(s, HandleStartTimer(s, which).state, uid, pid)
  {
    hide UpdateByStatus;
    var timer := s.timers[which];
    var t := s.(timers := s.timers[..which] + s.timers[which + 1..]);
    if Registered(t, timer.uid, timer.pid) {
      var t' := Put(t, timer.uid, timer.pid, ProcAt(t, timer.uid, timer.pid).(starting := false));
      StatusElsewhere(t', timer.uid, timer.pid, uid, pid);
    }
  }

  lemma CreateElsewhere(s: State, e: Event, uid: int, pid: int)
    requires Registered(s, uid, pid) && e.Create?
    ensures LeftAlone(s, HandleCreate(s, e), uid, pid)
  {
    var t := WithBundle(s, e);
    assert LeftAlone(s, t, uid, pid);
    if e.pid in t.bundles[e.uid].procs {
      ResortReplaces(t, e.uid);
    } else {
      AssignSlot(t, e.uid, e.pid, CreatedProc(e));
    }
  }

  lemma TerminateElsewhere(s: State, u: int, x: int, uid: int, pid: int)
    requires Registered(s, uid, pid) && Registered(s, u, x) && (u != uid || x != pid)
    ensures LeftAlone(s, HandleTerminate(s, u, x), uid, pid)
  {
    var t := s.(bundles := s.bundles[u := WithoutProc(s.bundles[u], x)]);
    ResortReplaces(t, u);
    assert u == uid ==> pid in WithoutProc(s.bundles[u], x).procs;
  }

  lemma SuspendElsewhere(s: State, u: int, uid: int, pid: int)
    requires Registered(s, uid, pid) && u in s.bundles && u != uid
    ensures LeftAlone(s, HandleSuspend(s, u), uid, pid)
  {
    var b := s.bundles[u];
    ResortReplaces(s.(bundles := s.bundles[u := b.(procs := SuspendedProcs(b.procs))]), u);
  }

  lemma SweepElsewhere(s: State, alive: set<int>, uid: int, pid: int)
    requires Registered(s, uid, pid) && pid in alive
    ensures LeftAlone(s, HandleSweep(s, alive), uid, pid)
  {
    assert Survives(s.bundles[uid], alive);
  }

  lemma HandleElsewhere(s: State, e: Event, uid: int, pid: int)
    requires Registered(s, uid, pid) && Elsewhere(s, e, uid, pid)
    ensures LeftAlone(s, Handle(s, e).state, uid, pid)
  {
    hide HandleCreate, HandleTerminate, HandleSuspend, HandleUpdate, HandleBind, HandleAbilityStart, HandleStartTimer, UpdateByStatus, HandleSweep;
    match e
    case Create(_, _, _, _, _) => CreateElsewhere(s, e, uid, pid);
    case RenderCreate(_, _) =>
    case Terminate(u, x) => if Registered(s, u, x) { TerminateElsewhere(s, u, x, uid, pid); }
    case Suspend(u, _) => if u in s.bundles { SuspendElsewhere(s, u, uid, pid); }
    case Update(reason, u, x, time) => if Registered(s, u, x) { UpdateElsewhere(s, reason, u, x, time, uid, pid); }
    case Bind(_, _, _, _, _) => BindElsewhere(s, e, uid, pid);
    case AbilityStart(u, x, time) => if Registered(s, u, x) { StartElsewhere(s, u, x, time, uid, pid); }
    case StartTimer(which) => if which < |s.timers| { FireElsewhere(s, which, uid, pid); }
    case CreateTimer(u, x) => if Registered(s, u, x) { StatusElsewhere(s, u, x, uid, pid); }
    case Sweep(alive) => SweepElsewhere(s, alive, uid, pid);
    case MarkWaiting(_) =>
  }

  /** The pass does not touch a process that is not an extension. */
  lemma PassElsewhere(s: State, start: Ref, order: seq<Ref>, uid: int, pid: int)
    requires IsPassOrder(s, start, order) && Registered(s, uid, pid) && !ProcAt(s, uid, pid).extension
    ensures Registered(Pass(s, order), uid, pid)
    ensures ProcAt(Pass(s, order), uid, pid) == ProcAt(s, uid, pid)
  {
    hide IsPassOrder;
    PassOrderExtensions(s, start, order);
    PassFrame(s, order);
    assert RefRegistered(s, Ref(pid, uid));
  }

  /** Whatever happens elsewhere, a process that is not an extension keeps its
      priority and its flags. */
  lemma StepElsewhere(s: State, e: Event, s': State, uid: int, pid: int)
    requires Step(s, e, s') && Registered(s, uid, pid) && !ProcAt(s, uid, pid).extension
    requires Elsewhere(s, e, uid, pid)
    ensures LeftAlone(s, s', uid, pid)
  {
    hide Handle, IsPassOrder, Pass;
    HandleElsewhere(s, e, uid, pid);
    match Handle(s, e)
    case Done(t) =>
    case Spread(t, start) =>
      var order :| IsPassOrder(t, start, order) && s' == Pass(t, order);
      PassElsewhere(t, start, order, uid, pid);
  }
}
