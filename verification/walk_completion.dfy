/** Over whole runs: which events keep every live bind target an extension, that
    no handler then gets lost in the bind graph, and a run on which one does. */
module WalkCompletion {
  import opened Collections
  import opened RegistryTypes
  import opened BundleIndex
  import opened BindGraph
  import opened Registry
  import opened RegistryInvariant
  import opened ExtensionPass
  import opened StartTimers

  /** p has r among the processes it binds. */
  predicate Binds(p: Proc, r: Ref) { r.pid in p.bindFromMe && p.bindFromMe[r.pid] == r.uid }

  /** Every live bind target is an extension. */
  ghost predicate TargetsMarked(s: State) {
    forall n: Ref, r: Ref :: RefRegistered(s, n) && RefRegistered(s, r) && Binds(RefProc(s, n), r) ==>
      RefProc(s, r).extension
  }

  /** t has no process, no edge and no plain process that s has not. */
  ghost predicate Kin(s: State, t: State) {
    forall n: Ref :: RefRegistered(t, n) ==>
      && RefRegistered(s, n)
      && (RefProc(s, n).extension ==> RefProc(t, n).extension)
      && (forall r :: Binds(RefProc(t, n), r) ==> Binds(RefProc(s, n), r))
  }

  lemma KinKeeps(s: State, t: State)
    requires TargetsMarked(s) && Kin(s, t)
    ensures TargetsMarked(t)
  {
  }

  lemma KinTransitive(s: State, t: State, t': State)
    requires Kin(s, t) && Kin(t, t')
    ensures Kin(s, t')
  {
  }

  // ----- the handlers that only take away

  lemma StatusKin(s: State, uid: int, pid: int)
    requires Registered(s, uid, pid)
    ensures Kin(s, UpdateByStatus(s, uid, pid).state)
  {
    hide AdjustedPriority, Assign;
    var p := ProcAt(s, uid, pid);
    AssignSlot(s, uid, pid, p.(priority := AdjustedPriority(p)));
  }

  lemma UpdateKin(s: State, reason: Reason, uid: int, pid: int, time: int)
    requires Registered(s, uid, pid)
    ensures Kin(s, HandleUpdate(s, reason, uid, pid, time).state)
  {
    hide UpdateByStatus, NextStatus, NextBindStatus, Kin;
    var t := AfterRecord(s, reason, uid, pid, time);
    RecordKin(s, reason, uid, pid, time);
    StatusKin(t, uid, pid);
    KinTransitive(s, t, UpdateByStatus(t, uid, pid).state);
  }

  lemma RecordKin(s: State, reason: Reason, uid: int, pid: int, time: int)
    requires Registered(s, uid, pid)
    ensures Kin(s, AfterRecord(s, reason, uid, pid, time))
  {
    hide NextStatus, NextBindStatus;
  }

  lemma StartKin(s: State, uid: int, pid: int, time: int)
    requires Registered(s, uid, pid)
    ensures Kin(s, HandleAbilityStart(s, uid, pid, time))
  {
    hide Assign;
    var p := ProcAt(s, uid, pid);
    AssignSlot(s, uid, pid, p.(priority := PRIORITY_FOREGROUND, startTime := time, starting := true));
  }

  lemma FireKin(s: State, which: nat)
    requires which < |s.timers|
    ensures Kin(s, HandleStartTimer(s, which).state)
  {
    hide UpdateByStatus;
    var timer := s.timers[which];
    var t := s.(timers := s.timers[..which] + s.timers[which + 1..]);
    if Registered(t, timer.uid, timer.pid) && ProcAt(t, timer.uid, timer.pid).starting {
      var t' := Put(t, timer.uid, timer.pid, ProcAt(t, timer.uid, timer.pid).(starting := false));
      assert Kin(s, t');
      StatusKin(t', timer.uid, timer.pid);
    }
  }

  lemma TerminateKin(s: State, uid: int, pid: int)
    requires Registered(s, uid, pid)
    ensures Kin(s, HandleTerminate(s, uid, pid))
  {
    hide Resort;
    var t := s.(bundles := s.bundles[uid := WithoutProc(s.bundles[uid], pid)]);
    ResortReplaces(t, uid);
  }

  lemma SuspendKin(s: State, uid: int)
    requires uid in s.bundles
    ensures Kin(s, HandleSuspend(s, uid))
  {
    hide Resort;
    var b := s.bundles[uid];
    ResortReplaces(s.(bundles := s.bundles[uid := b.(procs := SuspendedProcs(b.procs))]), uid);
  }

  lemma SweepKin(s: State, alive: set<int>)
    ensures Kin(s, HandleSweep(s, alive))
  {
    hide SweptIndex, Survives;
  }

  lemma PassKin(s: State, order: seq<Ref>)
    ensures Kin(s, Pass(s, order))
  {
    hide Pass;
    PassFrame(s, order);
  }

  // ----- creation and binding

  /** Nobody registered binds r. */
  ghost predicate Unnamed(s: State, r: Ref) {
    forall n: Ref :: RefRegistered(s, n) ==> !Binds(RefProc(s, n), r)
  }

  /** The target is registered and would be made an extension. */
  predicate Accepts(s: State, e: Event)
    requires e.Bind?
  {
    && RefRegistered(s, e.target)
    && RefProc(s, e.target).priority > PRIORITY_KILLABLE_SYSTEM
    && s.bundles[e.target.uid].priority > PRIORITY_KILLABLE_SYSTEM
    && !e.killable
  }

  /** A new process is one that nobody binds already, and a registered process
      binds a registered one only if that accepts or is an extension already. */
  ghost predicate Tame(s: State, e: Event) {
    match e
    case Create(uid, pid, _, _, _) => Registered(s, uid, pid) || Unnamed(s, Ref(pid, uid))
    case Bind(caller, target, bind, _, _) =>
      bind && RefRegistered(s, caller) && RefRegistered(s, target) ==>
        Accepts(s, e) || RefProc(s, target).extension
    case _ => true
  }

  /** t has one more process, plain and without edges. */
  ghost predicate OneMore(s: State, t: State, r: Ref) {
    && !RefRegistered(s, r) && RefRegistered(t, r)
    && !RefProc(t, r).extension && RefProc(t, r).bindFromMe == map[]
    && forall n: Ref :: n != r ==>
         && (RefRegistered(t, n) <==> RefRegistered(s, n))
         && (RefRegistered(s, n) ==> RefProc(t, n) == RefProc(s, n))
  }

  lemma OneMoreMarkedIff(s: State, t: State, r: Ref)
    requires TargetsMarked(s) && OneMore(s, t, r)
    ensures TargetsMarked(t) <==> Unnamed(s, r)
  {
    if n: Ref :| RefRegistered(s, n) && Binds(RefProc(s, n), r) {
      assert n != r && RefRegistered(t, n) && Binds(RefProc(t, n), r);
    }
  }

  lemma CreateAddsOne(s: State, e: Event)
    requires e.Create? && !Registered(s, e.uid, e.pid)
    ensures OneMore(s, HandleCreate(s, e), Ref(e.pid, e.uid))
    ensures ProcAt(HandleCreate(s, e), e.uid, e.pid) == CreatedProc(e)
  {
    hide Assign, Insert;
    var t := WithBundle(s, e);
    AssignSlot(t, e.uid, e.pid, CreatedProc(e));
    var t' := HandleCreate(s, e);
    forall n: Ref | n != Ref(e.pid, e.uid)
      ensures RefRegistered(t', n) <==> RefRegistered(s, n)
      ensures RefRegistered(s, n) ==> RefProc(t', n) == RefProc(s, n)
    {
      assert n.uid != e.uid || n.pid != e.pid;
      assert Registered(t, n.uid, n.pid) <==> Registered(s, n.uid, n.pid);
    }
  }

  lemma CreateMarkedIff(s: State, e: Event)
    requires TargetsMarked(s) && e.Create?
    ensures TargetsMarked(HandleCreate(s, e)) <==> Tame(s, e)
  {
    hide HandleCreate, OneMore, Unnamed;
    if Registered(s, e.uid, e.pid) {
      RecreateKin(s, e);
      KinKeeps(s, HandleCreate(s, e));
    } else {
      CreateAddsOne(s, e);
      OneMoreMarkedIff(s, HandleCreate(s, e), Ref(e.pid, e.uid));
    }
  }

  lemma RecreateKin(s: State, e: Event)
    requires e.Create? && Registered(s, e.uid, e.pid)
    ensures Kin(s, HandleCreate(s, e))
  {
    hide Resort;
    ResortReplaces(s, e.uid);
  }

  /** The caller's own edges, and nothing else. */
  lemma CallerEdges(s: State, e: Event, n: Ref)
    requires e.Bind?
    ensures RefRegistered(BindCaller(s, e), n) <==> RefRegistered(s, n)
    ensures RefRegistered(s, n) && n != e.caller ==> RefProc(BindCaller(s, e), n) == RefProc(s, n)
    ensures RefRegistered(s, n) && n == e.caller ==>
      var p, q := RefProc(s, n), RefProc(BindCaller(s, e), n);
      q == p.(bindFromMe := q.bindFromMe) &&
      q.bindFromMe == if e.bind then p.bindFromMe[e.target.pid := e.target.uid] else p.bindFromMe - {e.target.pid}
  {
  }

  /** Only the edge from the caller to the target can be new. */
  lemma CallerBinds(s: State, e: Event, n: Ref, r: Ref)
    requires e.Bind? && RefRegistered(s, n) && RefRegistered(BindCaller(s, e), n)
    requires Binds(RefProc(BindCaller(s, e), n), r)
    ensures Binds(RefProc(s, n), r) || (e.bind && n == e.caller && r == e.target)
  {
    CallerEdges(s, e, n);
  }

  lemma RefusedMarkedIff(s: State, e: Event)
    requires TargetsMarked(s) && e.Bind?
    ensures TargetsMarked(BindCaller(s, e)) <==>
      (e.bind && RefRegistered(s, e.caller) && RefRegistered(s, e.target) ==> RefProc(s, e.target).extension)
  {
    hide BindCaller;
    var t := BindCaller(s, e);
    forall n: Ref
      ensures RefRegistered(t, n) <==> RefRegistered(s, n)
      ensures RefRegistered(s, n) ==> RefProc(t, n).extension == RefProc(s, n).extension
    {
      CallerEdges(s, e, n);
    }
    if e.bind && RefRegistered(s, e.caller) && RefRegistered(s, e.target) {
      CallerEdges(s, e, e.caller);
      assert Binds(RefProc(t, e.caller), e.target);
    }
    forall n: Ref, r: Ref | RefRegistered(t, n) && RefRegistered(t, r) && Binds(RefProc(t, n), r)
      ensures RefProc(t, r).extension || (e.bind && n == e.caller && r == e.target)
    {
      CallerBinds(s, e, n, r);
    }
  }

  /** An accepted target is an extension from then on. */
  lemma AcceptedMarked(s: State, e: Event)
    requires TargetsMarked(s) && e.Bind? && RefRegistered(BindCaller(s, e), e.target)
    ensures var t := BindCaller(s, e);
      TargetsMarked(Put(t, e.target.uid, e.target.pid, BoundTarget(RefProc(t, e.target), e)))
  {
    hide BindCaller;
    var t := BindCaller(s, e);
    var t' := Put(t, e.target.uid, e.target.pid, BoundTarget(RefProc(t, e.target), e));
    forall n: Ref, r: Ref | RefRegistered(t', n) && RefRegistered(t', r) && Binds(RefProc(t', n), r)
      ensures RefProc(t', r).extension
    {
      assert RefRegistered(t, n) && RefRegistered(t, r) && Binds(RefProc(t, n), r);
      CallerEdges(s, e, n);
      CallerEdges(s, e, r);
      if r != e.target {
        CallerBinds(s, e, n, r);
      }
    }
  }

  lemma BindMarkedIff(s: State, e: Event)
    requires TargetsMarked(s) && e.Bind?
    ensures TargetsMarked(HandleBind(s, e).state) <==> Tame(s, e)
  {
    hide BindCaller, HandleUpdate, TargetsMarked;
    var t := BindCaller(s, e);
    CallerEdges(s, e, e.target);
    RefusedMarkedIff(s, e);
    if RefRegistered(s, e.target) { CallerKeepsPriority(s, e); }
    if Accepts(s, e) {
      AcceptedMarked(s, e);
      var t' := Put(t, e.target.uid, e.target.pid, BoundTarget(RefProc(t, e.target), e));
      var reason := if e.bind then BindExtension else UnbindExtension;
      UpdateKin(t', reason, e.target.uid, e.target.pid, e.time);
      KinKeeps(t', HandleUpdate(t', reason, e.target.uid, e.target.pid, e.time).state);
    }
  }

  lemma CallerKeepsPriority(s: State, e: Event)
    requires e.Bind? && e.target.uid in s.bundles
    ensures e.target.uid in BindCaller(s, e).bundles
    ensures BindCaller(s, e).bundles[e.target.uid].priority == s.bundles[e.target.uid].priority
  {
  }

  // ----- steps and runs

  /** A handler leaves every live bind target an extension if and only if the
      event is tame. */
  lemma HandleMarkedIff(s: State, e: Event)
    requires TargetsMarked(s)
    ensures TargetsMarked(Handle(s, e).state) <==> Tame(s, e)
  {
    hide HandleCreate, HandleTerminate, HandleSuspend, HandleUpdate, HandleBind, HandleAbilityStart, HandleStartTimer, UpdateByStatus, HandleSweep, TargetsMarked, Kin, Unnamed;
    var t := Handle(s, e).state;
    match e
    case Create(_, _, _, _, _) => CreateMarkedIff(s, e);
    case Bind(_, _, _, _, _) => BindMarkedIff(s, e);
    case _ =>
      OtherKin(s, e);
      KinKeeps(s, t);
  }

  lemma OtherKin(s: State, e: Event)
    requires !e.Create? && !e.Bind?
    ensures Kin(s, Handle(s, e).state)
  {
    hide HandleTerminate, HandleSuspend, HandleUpdate, HandleAbilityStart, HandleStartTimer, UpdateByStatus, HandleSweep;
    match e
    case RenderCreate(_, _) =>
    case Terminate(uid, pid) => if Registered(s, uid, pid) { TerminateKin(s, uid, pid); }
    case Suspend(uid, pid) => if uid in s.bundles { SuspendKin(s, uid); }
    case Update(reason, uid, pid, time) => if Registered(s, uid, pid) { UpdateKin(s, reason, uid, pid, time); }
    case AbilityStart(uid, pid, time) => if Registered(s, uid, pid) { StartKin(s, uid, pid, time); }
    case StartTimer(which) => if which < |s.timers| { FireKin(s, which); }
    case CreateTimer(uid, pid) => if Registered(s, uid, pid) { StatusKin(s, uid, pid); }
    case Sweep(alive) => SweepKin(s, alive);
    case Reset =>
    case MarkWaiting(_) =>
  }

  lemma StepMarked(s: State, e: Event, s': State)
    requires TargetsMarked(s) && Step(s, e, s') && Tame(s, e)
    ensures TargetsMarked(s')
  {
    hide Handle, IsPassOrder, Pass, TargetsMarked, Tame, Kin;
    HandleMarkedIff(s, e);
    match Handle(s, e)
    case Done(_) =>
    case Spread(t, start) =>
      var order :| IsPassOrder(t, start, order) && s' == Pass(t, order);
      PassKin(t, order);
      KinKeeps(t, s');
  }

  lemma {:induction false} LiveTargetsBound(s: State, edges: map<int, int>, pids: seq<int>, r: Ref)
    requires forall i :: 0 <= i < |pids| ==> pids[i] in edges
    ensures r in LiveTargets(s, edges, pids) <==>
            r.pid in pids && edges[r.pid] == r.uid && RefRegistered(s, r)
    decreases |pids|
  {
    if pids != [] {
      assert pids == [pids[0]] + pids[1..];
      LiveTargetsBound(s, edges, pids[1..], r);
    }
  }

  /** The edges of the graph are the live bind targets. */
  lemma ChildIff(s: State, n: Ref, r: Ref)
    requires RefRegistered(s, n)
    ensures r in Children(GraphOf(s), n) <==> RefRegistered(s, r) && Binds(RefProc(s, n), r)
  {
    hide LiveTargets, Ascending, Increasing;
    var p := RefProc(s, n);
    assert n in LiveRefs(s);
    LiveTargetsBound(s, p.bindFromMe, Ascending(p.bindFromMe.Keys), r);
  }

  /** With every live bind target an extension, the walk ends. */
  lemma MarkedWalkEnds(s: State, start: Ref)
    requires TargetsMarked(s) && UniqueProcs(s) && RefRegistered(s, start)
    ensures Terminates(GraphOf(s), start)
  {
    hide Targets;
    var g := GraphOf(s);
    GraphWellFormed(s);
    UniqueGraph(s);
    forall n, c | n in g.nodes && c in Children(g, n)
      ensures c in g.extensions
    {
      ChildIff(s, n, c);
    }
    ExtensionTargetsTerminate(g, start);
  }

  /** A tame event always has an outcome. */
  lemma TameCompletes(s: State, e: Event)
    requires TargetsMarked(s) && UniqueProcs(s) && Tame(s, e)
    ensures exists s' :: Step(s, e, s')
  {
    hide Handle, IsPassOrder, Pass, TargetsMarked, Tame, Terminates, GraphOf;
    HandleMarkedIff(s, e);
    match Handle(s, e)
    case Done(t) => assert Step(s, e, t);
    case Spread(t, start) =>
      SpreadSameProcs(s, e);
      MarkedWalkEnds(t, start);
      PassOrderIff(t, start);
      var order :| IsPassOrder(t, start, order);
      assert Step(s, e, Pass(t, order));
  }

  /** On every run of tame events every live bind target is an extension, and no
      further tame event gets stuck. */
  lemma {:induction false} RunCompletes(states: seq<State>, events: seq<Event>, i: nat)
    requires Run(states, events) && i < |states|
    requires forall k :: 0 <= k < |events| ==> FreshPid(states[k], events[k]) && Tame(states[k], events[k])
    ensures TargetsMarked(states[i]) && UniqueProcs(states[i])
    ensures forall e :: Tame(states[i], e) ==> exists s' :: Step(states[i], e, s')
  {
    hide Step, TargetsMarked, Tame, FreshPid;
    RunMarked(states, events, i);
    RunTimers(states, events, i);
    forall e | Tame(states[i], e)
      ensures exists s' :: Step(states[i], e, s')
    {
      TameCompletes(states[i], e);
    }
  }

  lemma {:induction false} RunMarked(states: seq<State>, events: seq<Event>, i: nat)
    requires Run(states, events) && i < |states|
    requires forall k :: 0 <= k < |events| ==> Tame(states[k], events[k])
    ensures TargetsMarked(states[i])
  {
    hide Step, Tame;
    if i > 0 {
      RunMarked(states, events, i - 1);
      StepMarked(states[i - 1], events[i - 1], states[i]);
    }
  }

  // ----- building runs

  ghost predicate Healthy(s: State) {
    Inv(s) && AllExact(s) && UniqueProcs(s) && TimersOk(s)
  }

  lemma StepHealthy(s: State, e: Event, s': State)
    requires Healthy(s) && Step(s, e, s') && !e.Sweep? && FreshPid(s, e)
    ensures Healthy(s')
  {
    hide Step, Inv, AllExact, UniqueProcs, TimersOk, FreshPid;
    StepKeeps(s, e, s');
    StepTimers(s, e, s');
  }

  lemma EmptyHealthy()
    ensures Healthy(EMPTY)
  {
    hide Inv, AllExact;
    EmptyInv();
  }

  function NewRef(e: Event): Ref
    requires e.Create?
  {
    Ref(e.pid, e.uid)
  }

  lemma Creates(s: State, e: Event) returns (t: State)
    requires e.Create? && !RefRegistered(s, NewRef(e))
    ensures Step(s, e, t) && OneMore(s, t, NewRef(e)) && RefProc(t, NewRef(e)) == CreatedProc(e)
  {
    hide HandleCreate, OneMore, CreatedProc;
    CreateAddsOne(s, e);
    t := HandleCreate(s, e);
  }

  /** Two processes created in an empty registry. */
  lemma TwoCreations(e1: Event, e2: Event) returns (s1: State, s2: State)
    requires e1.Create? && e2.Create? && e1.pid != e2.pid
    ensures Step(EMPTY, e1, s1) && Step(s1, e2, s2) && Healthy(s2) && TargetsMarked(s2)
    ensures forall n: Ref :: RefRegistered(s2, n) <==> n == NewRef(e1) || n == NewRef(e2)
    ensures RefProc(s2, NewRef(e1)) == CreatedProc(e1) && RefProc(s2, NewRef(e2)) == CreatedProc(e2)
  {
    hide Step, CreatedProc, Healthy;
    EmptyHealthy();
    assert forall n: Ref :: !RefRegistered(EMPTY, n);
    s1 := Creates(EMPTY, e1);
    FreshIn(EMPTY, e1);
    StepHealthy(EMPTY, e1, s1);
    s2 := Creates(s1, e2);
    FreshIn(s1, e2);
    StepHealthy(s1, e2, s2);
    forall n: Ref
      ensures RefRegistered(s2, n) <==> n == NewRef(e1) || n == NewRef(e2)
      ensures RefRegistered(s2, n) ==> RefProc(s2, n).bindFromMe == map[]
    {
      assert RefRegistered(s1, n) <==> n == NewRef(e1);
    }
  }

  lemma FreshIn(s: State, e: Event)
    requires e.Create? && forall n: Ref :: RefRegistered(s, n) ==> n.pid != e.pid
    ensures FreshPid(s, e)
  {
    forall v | Registered(s, v, e.pid)
      ensures false
    {
      assert RefRegistered(s, Ref(e.pid, v));
    }
  }

  // ----- a run that is not tame

  const FIRST := Ref(1, 1)
  const SECOND := Ref(2, 2)
  const THIRD := Ref(3, 3)

  function Creation(r: Ref, system: bool): Event { Create(r.uid, r.pid, None, system, 0) }

  /** Two system applications bind each other, an ordinary one binds the first. */
  const STUCK_EVENTS := [
    Creation(FIRST, true), Creation(SECOND, true), Creation(THIRD, false),
    Bind(FIRST, SECOND, true, true, INVALID_TIME), Bind(SECOND, FIRST, true, true, INVALID_TIME),
    Bind(THIRD, FIRST, true, true, INVALID_TIME)]

  /** The processes registered, and whom each of them binds. */
  ghost predicate Registers(s: State, edges: map<Ref, map<int, int>>) {
    && (forall n: Ref :: RefRegistered(s, n) <==> n in edges)
    && (forall n: Ref :: RefRegistered(s, n) ==> RefProc(s, n).bindFromMe == edges[n] && !RefProc(s, n).extension)
  }

  lemma CreationRegisters(s: State, r: Ref, system: bool, edges: map<Ref, map<int, int>>)
    requires Registers(s, edges) && r !in edges
    ensures Handle(s, Creation(r, system)).Done?
    ensures Registers(Handle(s, Creation(r, system)).state, edges[r := map[]])
    ensures RefProc(Handle(s, Creation(r, system)).state, r) == CreatedProc(Creation(r, system))
    ensures forall n: Ref :: RefRegistered(s, n) && n != r ==>
      RefRegistered(Handle(s, Creation(r, system)).state, n) &&
      RefProc(Handle(s, Creation(r, system)).state, n) == RefProc(s, n)
  {
    hide HandleCreate, CreatedProc;
    var e := Creation(r, system);
    CreateAddsOne(s, e);
    assert Ref(e.pid, e.uid) == r;
  }

  /** Binding a system application: the edge is recorded, the target refuses. */
  lemma RefusalRegisters(s: State, n: Ref, r: Ref, edges: map<Ref, map<int, int>>)
    requires Registers(s, edges) && n in edges
    ensures var e := Bind(n, r, true, true, INVALID_TIME);
      && Handle(s, e).Done?
      && Registers(Handle(s, e).state, edges[n := edges[n][r.pid := r.uid]])
      && forall m: Ref :: RefRegistered(s, m) ==> RefProc(Handle(s, e).state, m).priority == RefProc(s, m).priority
  {
    hide HandleUpdate, BindCaller;
    var e := Bind(n, r, true, true, INVALID_TIME);
    forall m: Ref
      ensures RefRegistered(BindCaller(s, e), m) <==> RefRegistered(s, m)
      ensures RefRegistered(s, m) ==>
        && RefProc(BindCaller(s, e), m).priority == RefProc(s, m).priority
        && !RefProc(BindCaller(s, e), m).extension
        && RefProc(BindCaller(s, e), m).bindFromMe == if m == n then edges[n][r.pid := r.uid] else edges[m]
    {
      CallerEdges(s, e, m);
    }
  }

  /** A bundle whose processes are all at 0 or above is not at a negative one. */
  lemma OrdinaryBundle(s: State, uid: int)
    requires AllExact(s) && uid in s.bundles
    requires forall pid :: pid in s.bundles[uid].procs ==> s.bundles[uid].procs[pid].priority >= 0
    ensures s.bundles[uid].priority >= 0
  {
    assert Exact(s.bundles[uid]);
  }

  /** Whoever binds one of two plain processes that bind each other sets out on
      a walk without end. */
  lemma NoOutcome(s: State, edges: map<Ref, map<int, int>>)
    requires Registers(s, edges) && UniqueProcs(s) && AllExact(s) && Inv(s)
    requires edges == map[FIRST := map[2 := 2], SECOND := map[1 := 1], THIRD := map[1 := 1]]
    requires RefProc(s, THIRD).priority >= 0
    ensures !exists s' :: Step(s, Update(Foreground, 3, 3, INVALID_TIME), s')
  {
    hide Inv, AllExact, HandleUpdate, GraphOf, Step, UniqueProcs;
    var e := Update(Foreground, 3, 3, INVALID_TIME);
    assert RefRegistered(s, THIRD);
    forall pid | pid in s.bundles[3].procs
      ensures s.bundles[3].procs[pid].priority >= 0
    {
      assert RefRegistered(s, Ref(pid, 3));
    }
    OrdinaryBundle(s, 3);
    UpdateSpreads(s, edges);
    var t := HandleUpdate(s, Foreground, 3, 3, INVALID_TIME).state;
    assert Handle(s, e) == Spread(t, THIRD);
    PlainCycleThere(t, edges);
    StepEnabledIff(s, e);
  }

  lemma UpdateSpreads(s: State, edges: map<Ref, map<int, int>>)
    requires Registers(s, edges) && RefRegistered(s, THIRD) && s.bundles[3].priority >= 0
    requires Inv(s)
    ensures HandleUpdate(s, Foreground, 3, 3, INVALID_TIME).Spread?
    ensures HandleUpdate(s, Foreground, 3, 3, INVALID_TIME).start == THIRD
    ensures Registers(HandleUpdate(s, Foreground, 3, 3, INVALID_TIME).state, edges)
  {
    hide Inv, Assign, AdjustedPriority, WithoutTimers;
    ProcAboveBundle(s, 3, 3);
    var t := AfterRecord(s, Foreground, 3, 3, INVALID_TIME);
    var p := ProcAt(t, 3, 3);
    SamePlain(s, t, edges, 3, 3, p);
    AssignSlot(t, 3, 3, p.(priority := AdjustedPriority(p)));
    var t' := Assign(t, 3, 3, p.(priority := AdjustedPriority(p)));
    SamePlain(t, t', edges, 3, 3, p.(priority := AdjustedPriority(p)));
  }

  lemma SamePlain(s: State, t: State, edges: map<Ref, map<int, int>>, uid: int, pid: int, p: Proc)
    requires Registers(s, edges) && OneSlot(s, t, uid, pid, p) && Registered(s, uid, pid)
    requires p.bindFromMe == ProcAt(s, uid, pid).bindFromMe && !p.extension
    ensures Registers(t, edges)
  {
    forall n: Ref
      ensures RefRegistered(t, n) <==> RefRegistered(s, n)
      ensures RefRegistered(t, n) ==> RefProc(t, n).bindFromMe == RefProc(s, n).bindFromMe && !RefProc(t, n).extension
    {
      assert n.uid != uid || n.pid != pid || n == Ref(pid, uid);
      assert RefRegistered(s, Ref(pid, uid));
    }
  }

  lemma PlainCycleThere(t: State, edges: map<Ref, map<int, int>>)
    requires Registers(t, edges)
    requires edges == map[FIRST := map[2 := 2], SECOND := map[1 := 1], THIRD := map[1 := 1]]
    ensures ReachesPlainCycle(GraphOf(t), THIRD)
  {
    hide Targets;
    var g := GraphOf(t);
    assert RefRegistered(t, FIRST) && RefRegistered(t, SECOND) && RefRegistered(t, THIRD);
    ChildIff(t, FIRST, SECOND);
    ChildIff(t, SECOND, FIRST);
    ChildIff(t, THIRD, FIRST);
    var c := [FIRST, SECOND, FIRST];
    assert FIRST in g.nodes && SECOND in g.nodes;
    assert PlainCycle(g, c);
    ReachesItself(g, THIRD);
    ReachesChild(g, THIRD, THIRD, FIRST);
  }

  lemma AfterCreation(s: State, r: Ref, system: bool, edges: map<Ref, map<int, int>>) returns (t: State)
    requires Registers(s, edges) && r !in edges
    ensures Step(s, Creation(r, system), t) && Registers(t, edges[r := map[]])
    ensures !system ==> RefRegistered(t, r) && RefProc(t, r).priority == 0
  {
    hide Handle, Registers;
    CreationRegisters(s, r, system, edges);
    t := Handle(s, Creation(r, system)).state;
    assert RefRegistered(t, r) by { StillThere(t, edges[r := map[]], r); }
  }

  lemma StillThere(s: State, edges: map<Ref, map<int, int>>, r: Ref)
    requires Registers(s, edges) && r in edges
    ensures RefRegistered(s, r)
  {
  }

  lemma AfterRefusal(s: State, n: Ref, r: Ref, edges: map<Ref, map<int, int>>) returns (t: State)
    requires Registers(s, edges) && n in edges
    ensures Step(s, Bind(n, r, true, true, INVALID_TIME), t)
    ensures Registers(t, edges[n := edges[n][r.pid := r.uid]])
    ensures forall m: Ref :: RefRegistered(s, m) ==> RefRegistered(t, m) && RefProc(t, m).priority == RefProc(s, m).priority
  {
    hide Handle;
    RefusalRegisters(s, n, r, edges);
    t := Handle(s, Bind(n, r, true, true, INVALID_TIME)).state;
  }

  lemma ThreeUnique(s: State, edges: map<Ref, map<int, int>>)
    requires Registers(s, edges) && forall n :: n in edges ==> n.pid == n.uid
    ensures UniqueProcs(s)
  {
    forall u, v, pid | Registered(s, u, pid) && Registered(s, v, pid)
      ensures u == v
    {
      assert RefRegistered(s, Ref(pid, u)) && RefRegistered(s, Ref(pid, v));
    }
  }

  lemma SixSteps(states: seq<State>)
    requires |states| == 7 && states[0] == EMPTY
    requires Step(states[0], STUCK_EVENTS[0], states[1]) && Step(states[1], STUCK_EVENTS[1], states[2])
    requires Step(states[2], STUCK_EVENTS[2], states[3]) && Step(states[3], STUCK_EVENTS[3], states[4])
    requires Step(states[4], STUCK_EVENTS[4], states[5]) && Step(states[5], STUCK_EVENTS[5], states[6])
    ensures Run(states, STUCK_EVENTS)
  {
    hide Step;
    forall i | 0 <= i < 6
      ensures Step(states[i], STUCK_EVENTS[i], states[i + 1])
    {
      assert i == 0 || i == 1 || i == 2 || i == 3 || i == 4 || i == 5;
    }
  }

  /** The six events can happen, in that order, and after them the next
      foreground event of the ordinary application has no outcome. */
  lemma SystemCycleGetsStuck() returns (states: seq<State>)
    ensures Run(states, STUCK_EVENTS)
    ensures !exists s' :: Step(states[|STUCK_EVENTS|], Update(Foreground, 3, 3, INVALID_TIME), s')
  {
    hide Step, Registers, UniqueProcs, Inv, AllExact, RefRegistered, RefProc, Creation;
    var s0, none: map<Ref, map<int, int>> := EMPTY, map[];
    assert Registers(s0, none) by { NothingRegistered(); }
    var s1 := AfterCreation(s0, FIRST, true, none);
    var s2 := AfterCreation(s1, SECOND, true, none[FIRST := map[]]);
    var two := none[FIRST := map[]][SECOND := map[]];
    var s3 := AfterCreation(s2, THIRD, false, two);
    var e3 := two[THIRD := map[]];
    var s4 := AfterRefusal(s3, FIRST, SECOND, e3);
    var e4 := e3[FIRST := e3[FIRST][2 := 2]];
    var s5 := AfterRefusal(s4, SECOND, FIRST, e4);
    var e5 := e4[SECOND := e4[SECOND][1 := 1]];
    var s6 := AfterRefusal(s5, THIRD, FIRST, e5);
    var e6 := e5[THIRD := e5[THIRD][1 := 1]];
    states := [s0, s1, s2, s3, s4, s5, s6];
    SixSteps(states);
    RunInvariant(states, STUCK_EVENTS, 6);
    NeverSwept();
    RunExact(states, STUCK_EVENTS, 6);
    ThreeUnique(s6, e6);
    assert e6 == map[FIRST := map[2 := 2], SECOND := map[1 := 1], THIRD := map[1 := 1]];
    NoOutcome(s6, e6);
  }

  lemma NothingRegistered()
    ensures Registers(EMPTY, map[])
  {
  }

  lemma NeverSwept()
    ensures forall k :: 0 <= k < |STUCK_EVENTS| ==> !STUCK_EVENTS[k].Sweep?
  {
  }
}
