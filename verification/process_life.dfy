/** What the registry remembers of a process, told by the events alone: whether
    it is registered, its flags, its edges, its start and its configuration are
    each decided by the last event that speaks about them. */
module ProcessLife {
  import opened RegistryTypes
  import opened BundleIndex
  import opened Registry
  import opened RegistryInvariant
  import opened ExtensionPass
  import opened DiedProcessSweep

  // ----- what can be said of a process

  datatype Flag =
    | IsForeground | IsVisible | IsSuspendDelay | IsBackgroundRunning | IsEventStart | IsDistConnected | HasUI

  function FlagOf(f: Flag, st: Status): bool {
    match f
    case IsForeground => st.foreground
    case IsVisible => st.visible
    case IsSuspendDelay => st.suspendDelay
    case IsBackgroundRunning => st.backgroundRunning
    case IsEventStart => st.eventStart
    case IsDistConnected => st.distConnected
    case HasUI => st.hasUI
  }

  /** There: it is registered. Raised(flag). Extends: it is an extension.
      ConnectedBy(c): c is bound to it. Connects(r): it is bound to r.
      Starting(t): it is starting an ability since t. Important(p): it is
      configured to be at p. */
  datatype Fact =
    | There
    | Raised(flag: Flag)
    | Extends
    | ConnectedBy(c: Ref)
    | Connects(r: Ref)
    | Starting(t: int)
    | Important(p: int)

  predicate True(fact: Fact, p: Proc) {
    match fact
    case There => true
    case Raised(f) => FlagOf(f, p.status)
    case Extends => p.extension
    case ConnectedBy(c) => c.pid in p.bindToMe && p.bindToMe[c.pid] == c.uid
    case Connects(r) => r.pid in p.bindFromMe && p.bindFromMe[r.pid] == r.uid
    case Starting(t) => p.starting && p.startTime == t
    case Important(v) => p.important && p.importantPriority == v
  }

  predicate Holds(s: State, r: Ref, fact: Fact) { RefRegistered(s, r) && True(fact, RefProc(s, r)) }

  // ----- which events speak about it

  /** The reason that raises a flag, and the one that lowers it. */
  predicate Raises(reason: Reason, f: Flag) {
    match f
    case IsForeground => reason.Foreground?
    case IsVisible => reason.Visible?
    case IsSuspendDelay => reason.SuspendDelayStart?
    case IsBackgroundRunning => reason.BackgroundRunningStart?
    case IsEventStart => reason.EventStart?
    case IsDistConnected => reason.DistDeviceConnected?
    case HasUI => reason.Foreground? || reason.Background?
  }

  predicate Lowers(reason: Reason, f: Flag) {
    match f
    case IsForeground => reason.Background?
    case IsVisible => reason.Unvisible?
    case IsSuspendDelay => reason.SuspendDelayEnd?
    case IsBackgroundRunning => reason.BackgroundRunningEnd?
    case IsEventStart => reason.EventEnd?
    case IsDistConnected => reason.DistDeviceDisconnected?
    case HasUI => false
  }

  /** A status event that is not refused. */
  predicate Reported(s: State, e: Event, r: Ref) {
    e.Update? && e.uid == r.uid && e.pid == r.pid && RefRegistered(s, r) && s.bundles[r.uid].priority > -800
  }

  /** A bind or unbind that r, as target, does not refuse. */
  predicate Taken(s: State, e: Event, r: Ref) {
    && e.Bind? && e.target == r && RefRegistered(s, r)
    && RefProc(s, r).priority > -800 && s.bundles[r.uid].priority > -800 && !e.killable
  }

  /** A start that is not refused. */
  predicate Started(s: State, e: Event, r: Ref) {
    && e.AbilityStart? && e.uid == r.uid && e.pid == r.pid && RefRegistered(s, r)
    && (RefProc(s, r).priority > 0 || (RefProc(s, r).priority == 0 && RefProc(s, r).starting))
  }

  predicate Removes(s: State, e: Event, r: Ref) {
    || e.Reset?
    || (e.Sweep? && r.pid !in e.alive)
    || (e.Terminate? && e.uid == r.uid && e.pid == r.pid && r.uid in s.bundles && s.bundles[r.uid].priority > -800)
  }

  /** The events from which on a fact is true of r. */
  predicate Begins(s: State, e: Event, r: Ref, fact: Fact) {
    match fact
    case There => e.Create? && e.uid == r.uid && e.pid == r.pid
    case Raised(f) => Reported(s, e, r) && Raises(e.reason, f)
    case Extends => Taken(s, e, r)
    case ConnectedBy(c) => Taken(s, e, r) && e.bind && e.caller == c
    case Connects(x) => e.Bind? && e.bind && e.caller == r && e.target == x && RefRegistered(s, r)
    case Starting(t) => Started(s, e, r) && e.time == t
    case Important(v) => e.Create? && e.uid == r.uid && e.pid == r.pid && !RefRegistered(s, r) && e.important == Some(v)
  }

  /** The events from which on a fact that was true is so no more. */
  predicate Ceases(s: State, e: Event, r: Ref, fact: Fact) {
    || Removes(s, e, r)
    || match fact
       case There => false
       case Raised(f) => (Reported(s, e, r) && Lowers(e.reason, f)) || (f.IsForeground? && Taken(s, e, r))
       case Extends => false
       case ConnectedBy(c) =>
         || (Taken(s, e, r) && e.caller.pid == c.pid && !(e.bind && e.caller == c))
         || (e.Sweep? && c.pid !in e.alive)
       case Connects(x) =>
         || (e.Bind? && e.caller == r && e.target.pid == x.pid && !(e.bind && e.target == x))
         || (e.Sweep? && x.pid !in e.alive)
       case Starting(t) =>
         || (Started(s, e, r) && e.time != t)
         || (Reported(s, e, r) && (e.reason.Foreground? || e.reason.Background?) && (e.time == -1 || e.time >= t))
         || (e.StartTimer? && e.which < |s.timers| && s.timers[e.which] == Timer(r.pid, r.uid))
       case Important(_) => false
  }

  // ----- the handlers, one process at a time

  predicate Alike(p: Proc, q: Proc) { q == p.(priority := q.priority) }

  /** r is p but for its priority, and every other process is what it was. */
  ghost predicate OnlyRecord(s: State, t: State, r: Ref, p: Proc) {
    && RefRegistered(s, r)
    && forall x: Ref :: (RefRegistered(t, x) <==> RefRegistered(s, x)) &&
         (RefRegistered(s, x) ==> Alike(if x == r then p else RefProc(s, x), RefProc(t, x)))
  }

  /** No process changes but in its priority. */
  ghost predicate NoRecord(s: State, t: State) {
    forall x: Ref :: (RefRegistered(t, x) <==> RefRegistered(s, x)) &&
      (RefRegistered(s, x) ==> Alike(RefProc(s, x), RefProc(t, x)))
  }

  lemma SlotRecord(s: State, t: State, r: Ref, p: Proc)
    requires RefRegistered(s, r) && OneSlot(s, t, r.uid, r.pid, p)
    ensures OnlyRecord(s, t, r, p)
  {
    forall x: Ref
      ensures RefRegistered(t, x) <==> RefRegistered(s, x)
      ensures RefRegistered(s, x) ==> RefProc(t, x) == if x == r then p else RefProc(s, x)
    {
      assert x != r ==> x.uid != r.uid || x.pid != r.pid;
      assert Registered(t, x.uid, x.pid) <==> RefRegistered(t, x);
    }
  }

  lemma PutRecord(s: State, r: Ref, p: Proc, timers: seq<Timer>)
    requires RefRegistered(s, r)
    ensures OnlyRecord(s, Put(s, r.uid, r.pid, p).(timers := timers), r, p)
  {
  }

  lemma StatusRecord(s: State, r: Ref)
    requires RefRegistered(s, r)
    ensures NoRecord(s, UpdateByStatus(s, r.uid, r.pid).state)
  {
    hide AdjustedPriority, Assign;
    var p := RefProc(s, r);
    AssignSlot(s, r.uid, r.pid, p.(priority := AdjustedPriority(p)));
    SlotRecord(s, Assign(s, r.uid, r.pid, p.(priority := AdjustedPriority(p))), r, p.(priority := AdjustedPriority(p)));
  }

  lemma RecordThenNone(s: State, t: State, t': State, r: Ref, p: Proc)
    requires OnlyRecord(s, t, r, p) && NoRecord(t, t')
    ensures OnlyRecord(s, t', r, p)
  {
    hide RefRegistered, RefProc;
  }

  lemma NoneThenNone(s: State, t: State, t': State)
    requires NoRecord(s, t) && NoRecord(t, t')
    ensures NoRecord(s, t')
  {
    hide RefRegistered, RefProc;
  }

  lemma UpdateRecord(s: State, reason: Reason, r: Ref, time: int)
    requires RefRegistered(s, r)
    ensures OnlyRecord(s, HandleUpdate(s, reason, r.uid, r.pid, time).state, r, AfterReason(RefProc(s, r), reason, time))
  {
    hide UpdateByStatus, AfterReason, OnlyRecord, NoRecord;
    var q := AfterReason(RefProc(s, r), reason, time);
    var t := AfterRecord(s, reason, r.uid, r.pid, time);
    PutRecord(s, r, q, t.timers);
    assert RefRegistered(t, r);
    StatusRecord(t, r);
    if !Skipped(RefProc(t, r), time) {
      RecordThenNone(s, t, UpdateByStatus(t, r.uid, r.pid).state, r, q);
    }
  }

  lemma StartRecord(s: State, r: Ref, time: int)
    requires RefRegistered(s, r)
    ensures var p := RefProc(s, r);
      OnlyRecord(s, HandleAbilityStart(s, r.uid, r.pid, time), r,
                 if MayStartAbility(p) then p.(startTime := time, starting := true) else p)
  {
    hide Assign;
    var p := RefProc(s, r);
    var q := p.(priority := PRIORITY_FOREGROUND, startTime := time, starting := true);
    AssignSlot(s, r.uid, r.pid, q);
    SlotRecord(s, Assign(s, r.uid, r.pid, q), r, q);
  }

  lemma FireRecord(s: State, which: nat)
    requires which < |s.timers|
    ensures var r := Ref(s.timers[which].pid, s.timers[which].uid);
      if RefRegistered(s, r) then OnlyRecord(s, HandleStartTimer(s, which).state, r, RefProc(s, r).(starting := false))
      else NoRecord(s, HandleStartTimer(s, which).state)
  {
    hide UpdateByStatus;
    var r := Ref(s.timers[which].pid, s.timers[which].uid);
    var t := s.(timers := s.timers[..which] + s.timers[which + 1..]);
    if RefRegistered(s, r) && RefProc(s, r).starting {
      var p := RefProc(s, r).(starting := false);
      var t' := Put(t, r.uid, r.pid, p);
      PutRecord(s, r, p, t.timers);
      StatusRecord(t', r);
      RecordThenNone(s, t', UpdateByStatus(t', r.uid, r.pid).state, r, p);
    } else if RefRegistered(s, r) {
      assert RefProc(s, r).(starting := false) == RefProc(s, r);
    }
  }

  lemma SuspendRecord(s: State, uid: int)
    requires uid in s.bundles
    ensures NoRecord(s, HandleSuspend(s, uid))
  {
    hide Resort;
    var b := s.bundles[uid];
    ResortReplaces(s.(bundles := s.bundles[uid := b.(procs := SuspendedProcs(b.procs))]), uid);
  }

  /** Exactly the terminated process goes; nothing is said or done to the rest. */
  lemma TerminateRecord(s: State, r: Ref)
    requires RefRegistered(s, r)
    ensures var t := HandleTerminate(s, r.uid, r.pid);
      forall x: Ref :: (RefRegistered(t, x) <==> RefRegistered(s, x) && x != r) &&
        (RefRegistered(t, x) ==> RefProc(t, x) == RefProc(s, x))
  {
    hide Resort, Erase;
    var t := s.(bundles := s.bundles[r.uid := WithoutProc(s.bundles[r.uid], r.pid)]);
    ResortReplaces(t, r.uid);
    assert forall x: Ref :: x != r <==> x.uid != r.uid || x.pid != r.pid;
    forall x: Ref | x.uid == r.uid && x.pid != r.pid && RefRegistered(s, x)
      ensures x.pid in WithoutProc(s.bundles[r.uid], r.pid).procs
    {
    }
  }

  lemma CreateRecord(s: State, e: Event)
    requires e.Create?
    ensures var r, t := Ref(e.pid, e.uid), HandleCreate(s, e);
      && RefRegistered(t, r)
      && (!RefRegistered(s, r) ==> RefProc(t, r) == CreatedProc(e))
      && forall x: Ref :: (RefRegistered(t, x) <==> RefRegistered(s, x) || x == r) &&
           (RefRegistered(s, x) ==> RefProc(t, x) == RefProc(s, x))
  {
    hide Assign, Resort, Insert, CreatedProc;
    var r, t := Ref(e.pid, e.uid), WithBundle(s, e);
    forall x: Ref
      ensures RefRegistered(t, x) <==> RefRegistered(s, x)
      ensures RefRegistered(s, x) ==> RefProc(t, x) == RefProc(s, x)
    {
    }
    if e.pid in t.bundles[e.uid].procs {
      ResortReplaces(t, e.uid);
    } else {
      AssignSlot(t, e.uid, e.pid, CreatedProc(e));
      forall x: Ref
        ensures x == r || x.uid != e.uid || x.pid != e.pid
      {
      }
    }
  }

  /** The pass writes priorities only. */
  lemma PassRecord(s: State, e: Event, s': State)
    requires Step(s, e, s')
    ensures NoRecord(Handle(s, e).state, s')
  {
    hide Handle, IsPassOrder, Pass;
    match Handle(s, e)
    case Done(_) =>
    case Spread(t, start) =>
      var order :| IsPassOrder(t, start, order) && s' == Pass(t, order);
      PassFrame(t, order);
  }

  // ----- one step

  lemma AlikeSame(p: Proc, q: Proc, fact: Fact)
    requires Alike(p, q)
    ensures True(fact, p) <==> True(fact, q)
  {
  }

  /** What the fact becomes, whoever of s's processes was written. */
  lemma RecordFact(s: State, t: State, x: Ref, p: Proc, r: Ref, fact: Fact)
    requires OnlyRecord(s, t, x, p)
    ensures Holds(t, r, fact) <==> if r == x then True(fact, p) else Holds(s, r, fact)
  {
    hide RefProc, RefRegistered, True, Alike;
    if RefRegistered(s, r) {
      AlikeSame(if r == x then p else RefProc(s, r), RefProc(t, r), fact);
    }
  }

  lemma NoRecordFact(s: State, t: State, r: Ref, fact: Fact)
    requires NoRecord(s, t)
    ensures Holds(t, r, fact) <==> Holds(s, r, fact)
  {
    hide RefProc, RefRegistered, True, Alike;
    if RefRegistered(s, r) { AlikeSame(RefProc(s, r), RefProc(t, r), fact); }
  }

  /** The handler gives the fact its next truth value. */
  ghost predicate Tells(s: State, e: Event, r: Ref, fact: Fact) {
    Holds(Handle(s, e).state, r, fact) <==> Begins(s, e, r, fact) || (Holds(s, r, fact) && !Ceases(s, e, r, fact))
  }

  lemma CreateTells(s: State, e: Event, r: Ref, fact: Fact)
    requires e.Create?
    ensures Tells(s, e, r, fact)
  {
    hide HandleCreate;
    CreateRecord(s, e);
  }

  lemma TerminateTells(s: State, e: Event, r: Ref, fact: Fact)
    requires e.Terminate?
    ensures Tells(s, e, r, fact)
  {
    hide HandleTerminate, True;
    var x := Ref(e.pid, e.uid);
    if RefRegistered(s, x) { TerminateRecord(s, x); }
  }

  lemma SuspendTells(s: State, e: Event, r: Ref, fact: Fact)
    requires e.Suspend?
    ensures Tells(s, e, r, fact)
  {
    hide HandleSuspend, True;
    if e.uid in s.bundles {
      SuspendRecord(s, e.uid);
      NoRecordFact(s, HandleSuspend(s, e.uid), r, fact);
    }
  }

  /** Each reason changes its own flag, and no other. */
  lemma ReasonFlags(st: Status, reason: Reason, f: Flag)
    ensures FlagOf(f, NextStatus(st, reason)) <==> Raises(reason, f) || (FlagOf(f, st) && !Lowers(reason, f))
  {
  }

  lemma ReasonKeeps(p: Proc, reason: Reason, time: int)
    ensures var q := AfterReason(p, reason, time);
      && q.status == NextStatus(p.status, reason)
      && q.startTime == p.startTime
      && (q.starting <==>
            p.starting && !((reason.Foreground? || reason.Background?) && (time == -1 || time >= p.startTime)))
      && q == p.(status := q.status, bindStatus := q.bindStatus, starting := q.starting)
  {
    hide NextStatus, NextBindStatus;
  }

  lemma ReasonFact(p: Proc, reason: Reason, time: int, fact: Fact)
    ensures True(fact, AfterReason(p, reason, time)) <==>
            match fact
            case Raised(f) => Raises(reason, f) || (FlagOf(f, p.status) && !Lowers(reason, f))
            case Starting(t) =>
              True(fact, p) && !((reason.Foreground? || reason.Background?) && (time == -1 || time >= t))
            case _ => True(fact, p)
  {
    hide AfterReason, NextStatus, FlagOf, Raises, Lowers;
    ReasonKeeps(p, reason, time);
    if fact.Raised? { ReasonFlags(p.status, reason, fact.flag); }
  }

  lemma UpdateTells(s: State, e: Event, r: Ref, fact: Fact)
    requires e.Update?
    ensures Tells(s, e, r, fact)
  {
    hide HandleUpdate, AfterReason, FlagOf, Raises, Lowers, OnlyRecord;
    var x := Ref(e.pid, e.uid);
    if RefRegistered(s, x) {
      UpdateRecord(s, e.reason, x, e.time);
      RecordFact(s, HandleUpdate(s, e.reason, e.uid, e.pid, e.time).state, x, AfterReason(RefProc(s, x), e.reason, e.time), r, fact);
      ReasonFact(RefProc(s, x), e.reason, e.time, fact);
    }
  }

  lemma StartTells(s: State, e: Event, r: Ref, fact: Fact)
    requires e.AbilityStart?
    ensures Tells(s, e, r, fact)
  {
    hide HandleAbilityStart, OnlyRecord, FlagOf;
    var x := Ref(e.pid, e.uid);
    if RefRegistered(s, x) {
      StartRecord(s, x, e.time);
      var p := RefProc(s, x);
      RecordFact(s, HandleAbilityStart(s, e.uid, e.pid, e.time), x,
                 if MayStartAbility(p) then p.(startTime := e.time, starting := true) else p, r, fact);
    }
  }

  lemma FireTells(s: State, e: Event, r: Ref, fact: Fact)
    requires e.StartTimer?
    ensures Tells(s, e, r, fact)
  {
    hide HandleStartTimer, OnlyRecord, NoRecord, FlagOf;
    if e.which < |s.timers| {
      var x := Ref(s.timers[e.which].pid, s.timers[e.which].uid);
      FireRecord(s, e.which);
      if RefRegistered(s, x) {
        RecordFact(s, HandleStartTimer(s, e.which).state, x, RefProc(s, x).(starting := false), r, fact);
      } else {
        NoRecordFact(s, HandleStartTimer(s, e.which).state, r, fact);
      }
    }
  }

  lemma CreateTimerTells(s: State, e: Event, r: Ref, fact: Fact)
    requires e.CreateTimer?
    ensures Tells(s, e, r, fact)
  {
    hide UpdateByStatus, NoRecord, True;
    var x := Ref(e.pid, e.uid);
    if RefRegistered(s, x) {
      StatusRecord(s, x);
      NoRecordFact(s, UpdateByStatus(s, e.uid, e.pid).state, r, fact);
    }
  }

  lemma MarkTells(s: State, e: Event, r: Ref, fact: Fact)
    requires e.MarkWaiting? || e.RenderCreate? || e.Reset?
    ensures Tells(s, e, r, fact)
  {
    hide True;
  }

  lemma SweepTells(s: State, e: Event, r: Ref, fact: Fact)
    requires Inv(s) && e.Sweep?
    ensures Tells(s, e, r, fact)
  {
    hide Inv, HandleSweep;
    SweepLeavesTheLiving(s, e.alive);
    var t := HandleSweep(s, e.alive);
    assert Registered(t, r.uid, r.pid) <==> Registered(s, r.uid, r.pid) && r.pid in e.alive;
  }

  /** The edge of the caller, recorded whether or not the target refuses. */
  lemma CallerRecord(s: State, e: Event)
    requires e.Bind?
    ensures if RefRegistered(s, e.caller) then
              var p := RefProc(s, e.caller);
              OnlyRecord(s, BindCaller(s, e), e.caller,
                         p.(bindFromMe := if e.bind then p.bindFromMe[e.target.pid := e.target.uid]
                                          else p.bindFromMe - {e.target.pid}))
            else BindCaller(s, e) == s
  {
  }

  /** The fact once the caller has recorded its edge. */
  lemma CallerTells(s: State, e: Event, r: Ref, fact: Fact)
    requires e.Bind?
    ensures Holds(BindCaller(s, e), r, fact) <==>
            if fact.Connects? then Begins(s, e, r, fact) || (Holds(s, r, fact) && !Ceases(s, e, r, fact))
            else Holds(s, r, fact)
  {
    hide BindCaller, OnlyRecord, FlagOf, Taken;
    CallerRecord(s, e);
    if RefRegistered(s, e.caller) {
      var p := RefProc(s, e.caller);
      RecordFact(s, BindCaller(s, e), e.caller,
                 p.(bindFromMe := if e.bind then p.bindFromMe[e.target.pid := e.target.uid]
                                  else p.bindFromMe - {e.target.pid}), r, fact);
    }
  }

  /** A target that takes the binding. */
  lemma TakenRecord(t: State, e: Event)
    requires e.Bind? && RefRegistered(t, e.target)
    ensures var x := e.target;
      var p := BoundTarget(RefProc(t, x), e);
      var reason := if e.bind then BindExtension else UnbindExtension;
      OnlyRecord(t, HandleUpdate(Put(t, x.uid, x.pid, p), reason, x.uid, x.pid, e.time).state, x,
                 AfterReason(p, reason, e.time))
  {
    hide HandleUpdate, AfterReason, BoundTarget;
    var x := e.target;
    var p := BoundTarget(RefProc(t, x), e);
    var u := Put(t, x.uid, x.pid, p);
    assert u.(timers := t.timers) == u;
    PutRecord(t, x, p, t.timers);
    UpdateRecord(u, if e.bind then BindExtension else UnbindExtension, x, e.time);
    RecordTwice(t, u, HandleUpdate(u, if e.bind then BindExtension else UnbindExtension, x.uid, x.pid, e.time).state,
                x, p, AfterReason(RefProc(u, x), if e.bind then BindExtension else UnbindExtension, e.time));
  }

  lemma RecordTwice(s: State, t: State, t': State, r: Ref, p: Proc, q: Proc)
    requires OnlyRecord(s, t, r, p) && OnlyRecord(t, t', r, q)
    ensures OnlyRecord(s, t', r, q)
  {
    hide RefRegistered, RefProc;
  }

  lemma BoundFact(p: Proc, e: Event, fact: Fact)
    requires e.Bind?
    ensures var q := AfterReason(BoundTarget(p, e), if e.bind then BindExtension else UnbindExtension, e.time);
      True(fact, q) <==>
      match fact
      case Raised(f) => FlagOf(f, p.status) && !f.IsForeground?
      case Extends => true
      case ConnectedBy(c) => (e.bind && e.caller == c) || (True(fact, p) && e.caller.pid != c.pid)
      case _ => True(fact, p)
  {
    hide AfterReason, FlagOf, BoundTarget;
    ReasonFact(BoundTarget(p, e), if e.bind then BindExtension else UnbindExtension, e.time, fact);
    TargetFact(p, e, fact);
  }

  lemma TargetFact(p: Proc, e: Event, fact: Fact)
    requires e.Bind?
    ensures True(fact, BoundTarget(p, e)) <==>
      match fact
      case Raised(f) => FlagOf(f, p.status) && !f.IsForeground?
      case Extends => true
      case ConnectedBy(c) => (e.bind && e.caller == c) || (True(fact, p) && e.caller.pid != c.pid)
      case _ => True(fact, p)
  {
  }

  lemma BindTells(s: State, e: Event, r: Ref, fact: Fact)
    requires e.Bind?
    ensures Tells(s, e, r, fact)
  {
    hide HandleUpdate, BindCaller, AfterReason, BoundTarget, OnlyRecord, FlagOf, Alike;
    var t, x := BindCaller(s, e), e.target;
    CallerTells(s, e, r, fact);
    TargetStays(s, e);
    if Taken(s, e, x) {
      TakenRecord(t, e);
      var reason := if e.bind then BindExtension else UnbindExtension;
      var p := BoundTarget(RefProc(t, x), e);
      RecordFact(t, HandleUpdate(Put(t, x.uid, x.pid, p), reason, x.uid, x.pid, e.time).state, x,
                 AfterReason(p, reason, e.time), r, fact);
      BoundFact(RefProc(t, x), e, fact);
    }
  }

  /** The caller's edge does not change what the target is asked about. */
  lemma TargetStays(s: State, e: Event)
    requires e.Bind?
    ensures var t := BindCaller(s, e);
      && (RefRegistered(t, e.target) <==> RefRegistered(s, e.target))
      && (RefRegistered(s, e.target) ==>
            RefProc(t, e.target).priority == RefProc(s, e.target).priority &&
            t.bundles[e.target.uid].priority == s.bundles[e.target.uid].priority)
  {
  }

  lemma HandleTells(s: State, e: Event, r: Ref, fact: Fact)
    requires Inv(s)
    ensures Tells(s, e, r, fact)
  {
    hide Tells, Inv;
    match e
    case Create(_, _, _, _, _) => CreateTells(s, e, r, fact);
    case Terminate(_, _) => TerminateTells(s, e, r, fact);
    case Suspend(_, _) => SuspendTells(s, e, r, fact);
    case Update(_, _, _, _) => UpdateTells(s, e, r, fact);
    case Bind(_, _, _, _, _) => BindTells(s, e, r, fact);
    case AbilityStart(_, _, _) => StartTells(s, e, r, fact);
    case StartTimer(_) => FireTells(s, e, r, fact);
    case CreateTimer(_, _) => CreateTimerTells(s, e, r, fact);
    case Sweep(_) => SweepTells(s, e, r, fact);
    case _ => MarkTells(s, e, r, fact);
  }

  /** A step makes a fact true of a process if the event is one that does, and
      leaves it true unless the event is one that ends it; nothing else changes
      it. In particular a status event changes its own flag and no other. */
  lemma StepTells(s: State, e: Event, s': State, r: Ref, fact: Fact)
    requires Inv(s) && Step(s, e, s')
    ensures Holds(s', r, fact) <==> Begins(s, e, r, fact) || (Holds(s, r, fact) && !Ceases(s, e, r, fact))
  {
    hide Inv, Step, Handle, Begins, Ceases, Holds, NoRecord;
    HandleTells(s, e, r, fact);
    PassRecord(s, e, s');
    NoRecordFact(Handle(s, e).state, s', r, fact);
  }

  // ----- whole runs

  /** Some event since made it true, and none after that ended it. */
  ghost predicate LastWord(states: seq<State>, events: seq<Event>, i: nat, r: Ref, fact: Fact)
    requires Run(states, events) && i < |states|
  {
    exists k {:trigger events[k]} :: 0 <= k < i && Begins(states[k], events[k], r, fact) && Unbroken(states, events, k + 1, i, r, fact)
  }

  ghost predicate Unbroken(states: seq<State>, events: seq<Event>, k: nat, i: nat, r: Ref, fact: Fact)
    requires |states| == |events| + 1 && i < |states|
  {
    forall m {:trigger events[m]} :: k <= m < i ==> !Ceases(states[m], events[m], r, fact)
  }

  lemma LastWordNext(states: seq<State>, events: seq<Event>, i: nat, r: Ref, fact: Fact)
    requires Run(states, events) && i < |events|
    ensures LastWord(states, events, i + 1, r, fact) <==>
            Begins(states[i], events[i], r, fact) ||
            (LastWord(states, events, i, r, fact) && !Ceases(states[i], events[i], r, fact))
  {
    hide Step, Begins, Ceases;
    if Begins(states[i], events[i], r, fact) {
      assert Unbroken(states, events, i + 1, i + 1, r, fact);
    } else if LastWord(states, events, i, r, fact) && !Ceases(states[i], events[i], r, fact) {
      var k: int :| 0 <= k < i && Begins(states[k], events[k], r, fact) && Unbroken(states, events, k + 1, i, r, fact);
      assert Unbroken(states, events, k + 1, i + 1, r, fact);
    }
    if LastWord(states, events, i + 1, r, fact) && !Begins(states[i], events[i], r, fact) {
      LastWordBefore(states, events, i, r, fact);
    }
  }

  lemma LastWordBefore(states: seq<State>, events: seq<Event>, i: nat, r: Ref, fact: Fact)
    requires Run(states, events) && i < |events|
    requires LastWord(states, events, i + 1, r, fact) && !Begins(states[i], events[i], r, fact)
    ensures LastWord(states, events, i, r, fact) && !Ceases(states[i], events[i], r, fact)
  {
    hide Step, Begins, Ceases;
    var k: int :| 0 <= k < i + 1 && Begins(states[k], events[k], r, fact) && Unbroken(states, events, k + 1, i + 1, r, fact);
    assert k != i;
    assert Unbroken(states, events, k + 1, i, r, fact);
  }

  /** In every state of every run: a process is registered, has a flag, is an
      extension, is connected by or connects another one, is starting an
      ability since some time, or is configured to be at some priority, exactly
      when the last event to speak about it said so. */
  lemma {:induction false} EventsDecide(states: seq<State>, events: seq<Event>, i: nat, r: Ref, fact: Fact)
    requires Run(states, events) && i < |states|
    ensures Holds(states[i], r, fact) <==> LastWord(states, events, i, r, fact)
  {
    hide Step, Begins, Ceases, LastWord;
    if i == 0 {
      NothingSaid(states, events, r, fact);
    } else {
      EventsDecide(states, events, i - 1, r, fact);
      LastWordNext(states, events, i - 1, r, fact);
      RunInvariant(states, events, i - 1);
      StepTells(states[i - 1], events[i - 1], states[i], r, fact);
    }
  }

  lemma NothingSaid(states: seq<State>, events: seq<Event>, r: Ref, fact: Fact)
    requires Run(states, events)
    ensures !Holds(states[0], r, fact) && !LastWord(states, events, 0, r, fact)
  {
  }
}
