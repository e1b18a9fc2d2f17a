/** The "ability starting" window: events stamped before the start are recorded
    without touching the raised priority, and when the timer fires the process
    has the priority its flags call for, as if it had never been raised. */
module AbilityStartWindow {
  import opened RegistryTypes
  import opened Registry
  import opened RegistryInvariant
  import opened StepFrame
  import opened StartTimers
  import opened WalkCompletion
  import opened ExtensionPass

  /** The priority the flags call for in a process that is not an extension. */
  function FlagPriority(st: Status, important: bool, importantPriority: int): int {
    var base :=
      if st.foreground then 0
      else if st.visible then 50
      else if st.suspendDelay then 100
      else if st.backgroundRunning || st.eventStart then 200
      else if st.distConnected then 260
      else 400;
    if important then AtMost(base, importantPriority) else base
  }

  predicate Settled(p: Proc) { p.priority == FlagPriority(p.status, p.important, p.importantPriority) }

  /** From any priority that is not negative, a status update settles a process
      that is not an extension. */
  lemma AdjustSettles(p: Proc)
    requires !p.extension && p.priority >= 0
    ensures AdjustedPriority(p) == FlagPriority(p.status, p.important, p.importantPriority)
  {
  }

  lemma StatusUpdateSettles(s: State, e: Event, t: State, s': State, uid: int, pid: int)
    requires Inv(t) && Registered(t, uid, pid) && t.bundles[uid].priority >= PRIORITY_FOREGROUND
    requires Step(s, e, s') && Handle(s, e) == UpdateByStatus(t, uid, pid)
    requires !ProcAt(t, uid, pid).extension
    ensures Registered(s', uid, pid) && Settled(ProcAt(s', uid, pid))
    ensures var p := ProcAt(t, uid, pid); ProcAt(s', uid, pid) == p.(priority := ProcAt(s', uid, pid).priority)
  {
    hide Handle, IsPassOrder, Pass, Resort;
    var p := ProcAt(t, uid, pid);
    ProcAboveBundle(t, uid, pid);
    AdjustSettles(p);
    AssignSlot(t, uid, pid, p.(priority := AdjustedPriority(p)));
    var t' := Assign(t, uid, pid, p.(priority := AdjustedPriority(p)));
    var order :| IsPassOrder(t', Ref(pid, uid), order) && s' == Pass(t', order);
    PassElsewhere(t', Ref(pid, uid), order, uid, pid);
  }

  // ----- inside the window

  predicate Addressed(e: Event, uid: int, pid: int) { e.Update? && e.uid == uid && e.pid == pid }

  /** A status event of a starting process, stamped before the start. */
  predicate Early(s: State, e: Event, uid: int, pid: int) {
    Registered(s, uid, pid) && !SystemBundle(s.bundles[uid]) && Addressed(e, uid, pid)
    && Skipped(ProcAt(s, uid, pid), e.time)
  }

  /** An early event changes the flags of its process and nothing else. */
  lemma EarlyStep(s: State, e: Event, s': State, uid: int, pid: int)
    requires Step(s, e, s') && Early(s, e, uid, pid)
    ensures s' == Put(s, uid, pid, Recorded(ProcAt(s, uid, pid), e.reason))
  {
    hide UpdateByStatus, Resort;
  }

  /** The flags after the status events of the process among events[i..k]. */
  function Fold(st: Status, events: seq<Event>, i: nat, k: nat, uid: int, pid: int): Status
    requires i <= k <= |events|
    decreases k
  {
    if k == i then st
    else
      var before := Fold(st, events, i, k - 1, uid, pid);
      if Addressed(events[k - 1], uid, pid) then NextStatus(before, events[k - 1].reason) else before
  }

  ghost predicate InWindow(states: seq<State>, events: seq<Event>, i: nat, j: nat, uid: int, pid: int)
    requires Run(states, events) && i <= j < |states|
  {
    && Registered(states[i], uid, pid) && ProcAt(states[i], uid, pid).starting && !ProcAt(states[i], uid, pid).extension
    && forall k {:trigger events[k]} :: i <= k < j ==>
         Elsewhere(states[k], events[k], uid, pid) || Early(states[k], events[k], uid, pid)
  }

  /** Throughout the window the process keeps its raised priority, its start
      stamp and its starting mark, while its flags follow every event. */
  lemma {:induction false} WindowHolds(states: seq<State>, events: seq<Event>, i: nat, j: nat, uid: int, pid: int)
    requires Run(states, events) && i <= j < |states| && InWindow(states, events, i, j, uid, pid)
    ensures Registered(states[j], uid, pid)
    ensures var p, q := ProcAt(states[i], uid, pid), ProcAt(states[j], uid, pid);
      q == p.(status := Fold(p.status, events, i, j, uid, pid),
              bindStatus := q.bindStatus, bindToMe := q.bindToMe, bindFromMe := q.bindFromMe)
    decreases j
  {
    hide Step, Elsewhere;
    if i < j {
      assert InWindow(states, events, i, j - 1, uid, pid);
      WindowHolds(states, events, i, j - 1, uid, pid);
      var e := events[j - 1];
      if Early(states[j - 1], e, uid, pid) {
        EarlyStep(states[j - 1], e, states[j], uid, pid);
      } else {
        ElsewhereNotAddressed(states[j - 1], e, uid, pid);
        StepElsewhere(states[j - 1], e, states[j], uid, pid);
      }
    }
  }

  lemma ElsewhereNotAddressed(s: State, e: Event, uid: int, pid: int)
    requires Elsewhere(s, e, uid, pid)
    ensures !Addressed(e, uid, pid)
  {
  }

  /** When its timer fires, the process gets the priority its flags call for if
      and only if its bundle is at 0 or above, or it has that priority already:
      in a bundle below 0 it stays where the start put it. */
  lemma TimerSettles(s: State, which: nat, s': State, uid: int, pid: int)
    requires Inv(s) && Step(s, StartTimer(which), s')
    requires which < |s.timers| && s.timers[which] == Timer(pid, uid)
    requires Registered(s, uid, pid) && ProcAt(s, uid, pid).starting && !ProcAt(s, uid, pid).extension
    ensures Registered(s', uid, pid)
    ensures Settled(ProcAt(s', uid, pid)) <==> s.bundles[uid].priority >= PRIORITY_FOREGROUND || Settled(ProcAt(s, uid, pid))
    ensures ProcAt(s', uid, pid) ==
            ProcAt(s, uid, pid).(starting := false, priority := ProcAt(s', uid, pid).priority)
    ensures s.bundles[uid].priority < PRIORITY_FOREGROUND ==>
            ProcAt(s', uid, pid).priority == ProcAt(s, uid, pid).priority
  {
    hide Step, UpdateByStatus, BundlePriority, IndexAgrees;
    var t := s.(timers := s.timers[..which] + s.timers[which + 1..]);
    var p := ProcAt(s, uid, pid).(starting := false);
    TimersKeep(s, t.timers);
    ProcAboveBundle(t, uid, pid);
    PutKeeps(t, uid, pid, p);
    if s.bundles[uid].priority >= PRIORITY_FOREGROUND {
      StatusUpdateSettles(s, StartTimer(which), Put(t, uid, pid, p), s', uid, pid);
    } else {
      NegativeRefuses(s, StartTimer(which), Put(t, uid, pid, p), s', uid, pid);
    }
  }

  lemma NegativeRefuses(s: State, e: Event, t: State, s': State, uid: int, pid: int)
    requires Registered(t, uid, pid) && t.bundles[uid].priority < PRIORITY_FOREGROUND
    requires Step(s, e, s') && Handle(s, e) == UpdateByStatus(t, uid, pid)
    ensures s' == t
  {
    hide Handle, Resort;
  }

  /** The whole window: a start, any events elsewhere, status events stamped
      before the start, then the timer. */
  lemma WindowEnds(states: seq<State>, events: seq<Event>, i: nat, j: nat, uid: int, pid: int, which: nat)
    requires Run(states, events) && i <= j < |events| && InWindow(states, events, i, j, uid, pid)
    requires events[j] == StartTimer(which) && which < |states[j].timers| && states[j].timers[which] == Timer(pid, uid)
    ensures Registered(states[j], uid, pid) && Registered(states[j + 1], uid, pid)
    ensures var p := ProcAt(states[i], uid, pid);
      var called := FlagPriority(Fold(p.status, events, i, j, uid, pid), p.important, p.importantPriority);
      ProcAt(states[j + 1], uid, pid).priority == called <==>
      states[j].bundles[uid].priority >= PRIORITY_FOREGROUND || p.priority == called
  {
    hide Step;
    WindowHolds(states, events, i, j, uid, pid);
    RunInvariant(states, events, j);
    TimerSettles(states[j], which, states[j + 1], uid, pid);
  }

  // ----- the same events without a start

  /** A stretch of a run in which the process is not starting, its bundle is not
      a system bundle, and only status events are addressed to it. */
  ghost predicate InPlainStretch(states: seq<State>, events: seq<Event>, i: nat, j: nat, uid: int, pid: int)
    requires Run(states, events) && i <= j < |states|
  {
    && Registered(states[i], uid, pid) && !ProcAt(states[i], uid, pid).starting && !ProcAt(states[i], uid, pid).extension
    && forall k {:trigger events[k]} :: i <= k < j ==>
         && (Elsewhere(states[k], events[k], uid, pid) || Addressed(events[k], uid, pid))
         && uid in states[k].bundles && states[k].bundles[uid].priority >= PRIORITY_FOREGROUND
  }

  lemma PlainUpdateStep(s: State, e: Event, s': State, uid: int, pid: int)
    requires Inv(s) && Step(s, e, s') && Addressed(e, uid, pid)
    requires Registered(s, uid, pid) && s.bundles[uid].priority >= PRIORITY_FOREGROUND
    requires !ProcAt(s, uid, pid).starting && !ProcAt(s, uid, pid).extension
    ensures Registered(s', uid, pid) && Settled(ProcAt(s', uid, pid))
    ensures ProcAt(s', uid, pid) ==
            Recorded(ProcAt(s, uid, pid), e.reason).(priority := ProcAt(s', uid, pid).priority)
  {
    hide Step, UpdateByStatus, Recorded;
    var p := ProcAt(s, uid, pid);
    var q := Recorded(p, e.reason);
    RecordedSame(p, e.reason, e.time);
    ProcAboveBundle(s, uid, pid);
    PutKeeps(s, uid, pid, q);
    RecordedNotStarting(p, e.reason);
    StatusUpdateSettles(s, e, Put(s, uid, pid, q), s', uid, pid);
  }

  lemma RecordedNotStarting(p: Proc, reason: Reason)
    ensures Recorded(p, reason).starting == p.starting
  {
  }

  predicate AnyAddressed(events: seq<Event>, i: nat, j: nat, uid: int, pid: int)
    requires i <= j <= |events|
  {
    exists k :: i <= k < j && Addressed(events[k], uid, pid)
  }

  lemma {:induction false} PlainStretchHolds(states: seq<State>, events: seq<Event>, i: nat, j: nat, uid: int, pid: int)
    requires Run(states, events) && i <= j < |states| && InPlainStretch(states, events, i, j, uid, pid)
    ensures Registered(states[j], uid, pid)
    ensures var p, q := ProcAt(states[i], uid, pid), ProcAt(states[j], uid, pid);
      && q == p.(status := Fold(p.status, events, i, j, uid, pid), priority := q.priority,
                 bindStatus := q.bindStatus, bindToMe := q.bindToMe, bindFromMe := q.bindFromMe)
      && (Settled(p) || AnyAddressed(events, i, j, uid, pid) ==> Settled(q))
      && (!AnyAddressed(events, i, j, uid, pid) ==> q.priority == p.priority && q.status == p.status)
    decreases j
  {
    hide Step, Elsewhere;
    if i < j {
      assert InPlainStretch(states, events, i, j - 1, uid, pid);
      PlainStretchHolds(states, events, i, j - 1, uid, pid);
      var e := events[j - 1];
      RunInvariant(states, events, j - 1);
      if Addressed(e, uid, pid) {
        PlainUpdateStep(states[j - 1], e, states[j], uid, pid);
      } else {
        StepElsewhere(states[j - 1], e, states[j], uid, pid);
      }
    }
  }

  // ----- the run with the start taken out

  /** The same event; timers are numbered anew, as one of them is gone. */
  predicate Matches(e: Event, e': Event) { e' == e || (e.StartTimer? && e'.StartTimer?) }

  /** stream is events without the start at i, up to the timer at j. */
  predicate TakenOut(events: seq<Event>, i: nat, j: nat, stream: seq<Event>) {
    && i < j <= |events| && |stream| >= j - 1
    && (forall k :: 0 <= k < i ==> stream[k] == events[k])
    && (forall k :: i < k < j ==> Matches(events[k], stream[k - 1]))
  }

  /** The process may start an ability and is not doing so. */
  predicate Ready(s: State, uid: int, pid: int) {
    Registered(s, uid, pid) && !ProcAt(s, uid, pid).starting && !ProcAt(s, uid, pid).extension
    && MayStartAbility(ProcAt(s, uid, pid))
  }

  lemma StartRaises(s: State, time: int, s': State, uid: int, pid: int)
    requires Ready(s, uid, pid) && Step(s, AbilityStart(uid, pid, time), s')
    ensures Registered(s', uid, pid)
    ensures ProcAt(s', uid, pid) ==
            ProcAt(s, uid, pid).(priority := PRIORITY_FOREGROUND, startTime := time, starting := true)
  {
    hide Resort;
    var p := ProcAt(s, uid, pid);
    AssignSlot(s, uid, pid, p.(priority := PRIORITY_FOREGROUND, startTime := time, starting := true));
  }

  lemma {:induction false} SamePrefix(states: seq<State>, events: seq<Event>, others: seq<State>, stream: seq<Event>, i: nat)
    requires Run(states, events) && Run(others, stream) && i <= |events| && i <= |stream|
    requires forall k :: 0 <= k < i ==> stream[k] == events[k]
    ensures others[i] == states[i]
  {
    hide Step;
    if i > 0 {
      SamePrefix(states, events, others, stream, i - 1);
      assert stream[i - 1] == events[i - 1];
      StepDeterministic(states[i - 1], events[i - 1], states[i], others[i]);
    }
  }

  lemma {:induction false} SameFold(st: Status, events: seq<Event>, i: nat, j: nat, stream: seq<Event>, uid: int, pid: int)
    requires TakenOut(events, i, j, stream)
    ensures Fold(st, events, i + 1, j, uid, pid) == Fold(st, stream, i, j - 1, uid, pid)
    ensures AnyAddressed(events, i + 1, j, uid, pid) <==> AnyAddressed(stream, i, j - 1, uid, pid)
    decreases j
  {
    hide NextStatus;
    if i + 1 < j {
      SameFold(st, events, i, j - 1, stream, uid, pid);
      assert Matches(events[j - 1], stream[j - 2]);
      AnyNext(events, i + 1, j, uid, pid);
      AnyNext(stream, i, j - 1, uid, pid);
    }
  }

  lemma AnyNext(events: seq<Event>, i: nat, j: nat, uid: int, pid: int)
    requires i < j <= |events|
    ensures AnyAddressed(events, i, j, uid, pid) <==>
            AnyAddressed(events, i, j - 1, uid, pid) || Addressed(events[j - 1], uid, pid)
  {
  }

  /** In the run without the start, the bundle is never below 0 while the window
      of the other run is open, and no stale timer of the process fires. */
  ghost predicate StaysOrdinary(others: seq<State>, stream: seq<Event>, i: nat, j: nat, uid: int, pid: int)
    requires i <= j < |others| == |stream| + 1
  {
    forall k {:trigger stream[k]} :: i <= k < j ==>
      && uid in others[k].bundles && others[k].bundles[uid].priority >= PRIORITY_FOREGROUND
      && (stream[k].StartTimer? ==> Elsewhere(others[k], stream[k], uid, pid))
  }

  lemma ReplayIsPlain(states: seq<State>, events: seq<Event>, i: nat, j: nat,
                      others: seq<State>, stream: seq<Event>, uid: int, pid: int)
    requires Run(states, events) && i < j < |events| && InWindow(states, events, i + 1, j, uid, pid)
    requires Run(others, stream) && TakenOut(events, i, j, stream) && Ready(others[i], uid, pid)
    requires StaysOrdinary(others, stream, i, j - 1, uid, pid)
    ensures InPlainStretch(others, stream, i, j - 1, uid, pid)
  {
    hide Step;
    forall k | i <= k < j - 1
      ensures Elsewhere(others[k], stream[k], uid, pid) || Addressed(stream[k], uid, pid)
    {
      var e := events[k + 1];
      assert Matches(events[k + 1], stream[(k + 1) - 1]);
      assert Elsewhere(states[k + 1], e, uid, pid) || Early(states[k + 1], e, uid, pid);
    }
  }

  /** Take the start and its timer out of a run. If the bundle stays at 0 or
      above meanwhile, the run without them ends with the process at the same
      priority, if and only if its priority was the one its flags called for to
      begin with or some status event reached it in between. */
  lemma StartLeavesNoTrace(states: seq<State>, events: seq<Event>, i: nat, j: nat, which: nat,
                           others: seq<State>, stream: seq<Event>, uid: int, pid: int)
    requires Run(states, events) && i < j < |events| && Ready(states[i], uid, pid)
    requires events[i].AbilityStart? && events[i].uid == uid && events[i].pid == pid
    requires InWindow(states, events, i + 1, j, uid, pid)
    requires events[j] == StartTimer(which) && which < |states[j].timers| && states[j].timers[which] == Timer(pid, uid)
    requires uid in states[j].bundles && states[j].bundles[uid].priority >= PRIORITY_FOREGROUND
    requires Run(others, stream) && TakenOut(events, i, j, stream)
    requires StaysOrdinary(others, stream, i, j - 1, uid, pid)
    ensures others[i] == states[i]
    ensures Registered(states[j + 1], uid, pid) && Registered(others[j - 1], uid, pid)
    ensures ProcAt(others[j - 1], uid, pid).priority == ProcAt(states[j + 1], uid, pid).priority <==>
            Settled(ProcAt(states[i], uid, pid)) || AnyAddressed(events, i + 1, j, uid, pid)
  {
    hide Step, Fold, InWindow, InPlainStretch, StaysOrdinary, AnyAddressed, FlagPriority;
    SamePrefix(states, events, others, stream, i);
    ReplayIsPlain(states, events, i, j, others, stream, uid, pid);
    StartRaises(states[i], events[i].time, states[i + 1], uid, pid);
    WindowEnds(states, events, i + 1, j, uid, pid, which);
    PlainStretchHolds(others, stream, i, j - 1, uid, pid);
    SameFold(ProcAt(states[i], uid, pid).status, events, i, j, stream, uid, pid);
  }

  // ----- a run on which the timer does not settle

  /** An application goes to the background; then an important process joins
      its bundle, and after that the first one starts an ability. */
  const RAISED_EVENTS := [
    Create(1, 2, None, false, 0), Update(Background, 1, 2, INVALID_TIME),
    Create(1, 1, Some(-500), false, 0), AbilityStart(1, 2, 5)]

  lemma AfterFirst() returns (s1: State, s2: State)
    ensures Step(EMPTY, RAISED_EVENTS[0], s1) && Step(s1, RAISED_EVENTS[1], s2) && Healthy(s2) && TargetsMarked(s2)
    ensures forall n: Ref :: RefRegistered(s2, n) <==> n == Ref(2, 1)
    ensures RefProc(s2, Ref(2, 1)).priority == 400 && RefProc(s2, Ref(2, 1)).bindFromMe == map[]
    ensures !RefProc(s2, Ref(2, 1)).extension && Settled(RefProc(s2, Ref(2, 1)))
  {
    hide Inv, AllExact, UniqueProcs, TimersOk, Step;
    assert forall n: Ref :: !RefRegistered(EMPTY, n);
    EmptyHealthy();
    FreshIn(EMPTY, RAISED_EVENTS[0]);
    s1 := Creates(EMPTY, RAISED_EVENTS[0]);
    StepHealthy(EMPTY, RAISED_EVENTS[0], s1);
    var r := Ref(2, 1);
    assert RefRegistered(s1, r);
    forall pid | pid in s1.bundles[1].procs
      ensures s1.bundles[1].procs[pid].priority >= 0
    {
      assert RefRegistered(s1, Ref(pid, 1));
    }
    OrdinaryBundle(s1, 1);
    TameCompletes(s1, RAISED_EVENTS[1]);
    s2 :| Step(s1, RAISED_EVENTS[1], s2);
    StepHealthy(s1, RAISED_EVENTS[1], s2);
    StepMarked(s1, RAISED_EVENTS[1], s2);
    PlainUpdateStep(s1, RAISED_EVENTS[1], s2, 1, 2);
    UpdateStepSameProcs(s1, RAISED_EVENTS[1], s2);
    forall n: Ref
      ensures RefRegistered(s2, n) <==> n == r
    {
      assert Registered(s2, n.uid, n.pid) <==> Registered(s1, n.uid, n.pid);
    }
  }

  lemma UpdateStepSameProcs(s: State, e: Event, s': State)
    requires e.Update? && Registered(s, e.uid, e.pid) && Step(s, e, s')
    ensures SameProcs(s, s')
  {
    hide HandleUpdate, IsPassOrder, Pass;
    UpdateSameProcs(s, e.reason, e.uid, e.pid, e.time);
    match Handle(s, e)
    case Done(_) =>
    case Spread(t, start) =>
      var order :| IsPassOrder(t, start, order) && s' == Pass(t, order);
      PassFrame(t, order);
  }

  /** The important process takes the bundle below 0, and not to -800. */
  lemma AfterImportant(s: State) returns (s': State)
    requires Healthy(s) && TargetsMarked(s)
    requires forall n: Ref :: RefRegistered(s, n) <==> n == Ref(2, 1)
    requires RefProc(s, Ref(2, 1)).priority == 400 && RefProc(s, Ref(2, 1)).bindFromMe == map[]
    ensures Step(s, RAISED_EVENTS[2], s') && Healthy(s') && TargetsMarked(s')
    ensures Registered(s', 1, 2) && ProcAt(s', 1, 2) == ProcAt(s, 1, 2)
    ensures Registered(s', 1, 1) && ProcAt(s', 1, 1) == CreatedProc(RAISED_EVENTS[2])
    ensures !SystemBundle(s'.bundles[1])
  {
    hide Inv, AllExact, UniqueProcs, TimersOk, Step;
    var e := RAISED_EVENTS[2];
    FreshIn(s, e);
    s' := Creates(s, e);
    StepHealthy(s, e, s');
    StepMarked(s, e, s');
    assert RefRegistered(s', Ref(2, 1)) && RefRegistered(s', Ref(1, 1));
    forall pid | pid in s'.bundles[1].procs
      ensures s'.bundles[1].procs[pid].priority >= -500
    {
      assert RefRegistered(s', Ref(pid, 1));
    }
    BundleAtLeast(s', 1, -500);
  }

  lemma BundleAtLeast(s: State, uid: int, floor: int)
    requires AllExact(s) && uid in s.bundles && floor <= PRIORITY_MAX
    requires forall pid :: pid in s.bundles[uid].procs ==> s.bundles[uid].procs[pid].priority >= floor
    ensures s.bundles[uid].priority >= floor
  {
    assert Exact(s.bundles[uid]);
  }

  lemma AfterStart(s: State) returns (s': State, which: nat)
    requires Healthy(s) && TargetsMarked(s)
    requires Registered(s, 1, 2) && ProcAt(s, 1, 2).priority == 400 && !ProcAt(s, 1, 2).extension
    requires Registered(s, 1, 1) && ProcAt(s, 1, 1) == CreatedProc(RAISED_EVENTS[2])
    ensures Step(s, RAISED_EVENTS[3], s') && Healthy(s') && TargetsMarked(s')
    ensures which < |s'.timers| && s'.timers[which] == Timer(2, 1)
    ensures Registered(s', 1, 2) && ProcAt(s', 1, 2) == ProcAt(s, 1, 2).(priority := 0, startTime := 5, starting := true)
    ensures s'.bundles[1].priority < 0
  {
    hide Inv, AllExact, UniqueProcs, TimersOk, Assign, Elsewhere;
    var e := RAISED_EVENTS[3];
    s' := HandleAbilityStart(s, 1, 2, 5);
    which := |s'.timers| - 1;
    StepHealthy(s, e, s');
    StepMarked(s, e, s');
    var p := ProcAt(s, 1, 2);
    AssignSlot(s, 1, 2, p.(priority := 0, startTime := 5, starting := true));
    assert ProcAt(s', 1, 1) == ProcAt(s, 1, 1);
    ProcAboveBundle(s', 1, 1);
  }

  /** The timer of the start fires, and the process, whose flags call for 400,
      stays at 0 although its bundle is no system bundle. */
  lemma TimerLeavesRaised() returns (states: seq<State>, events: seq<Event>)
    ensures Run(states, events) && |events| == 5 && events[..4] == RAISED_EVENTS && events[4].StartTimer?
    ensures Registered(states[5], 1, 2) && ProcAt(states[5], 1, 2).priority == 0 && !ProcAt(states[5], 1, 2).starting
    ensures Registered(states[2], 1, 2) && ProcAt(states[5], 1, 2).status == ProcAt(states[2], 1, 2).status
    ensures Settled(ProcAt(states[2], 1, 2)) && !Settled(ProcAt(states[5], 1, 2))
    ensures 1 in states[3].bundles && !SystemBundle(states[3].bundles[1])
  {
    hide Step, Inv, AllExact, UniqueProcs, TimersOk, TargetsMarked, FlagPriority;
    var s1, s2 := AfterFirst();
    var s3 := AfterImportant(s2);
    assert RefRegistered(s2, Ref(2, 1)) && Registered(s2, 1, 2);
    var s4, which := AfterStart(s3);
    var e := StartTimer(which);
    TameCompletes(s4, e);
    var s5 :| Step(s4, e, s5);
    TimerSettles(s4, which, s5, 1, 2);
    states, events := [EMPTY, s1, s2, s3, s4, s5], RAISED_EVENTS + [e];
    forall i | 0 <= i < 5
      ensures Step(states[i], events[i], states[i + 1])
    {
      assert i == 0 || i == 1 || i == 2 || i == 3 || i == 4;
    }
  }
}
