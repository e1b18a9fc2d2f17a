/** Which bundle the low-memory killer picks, and that it never kills the same
    bundle twice, however its steps interleave with those of the registry. */
module KillOnce {
  import opened RegistryTypes
  import opened BundleIndex
  import opened Registry
  import opened RegistryInvariant
  import opened ExtensionPass
  import opened SystemProtection

  const NOT_TO_KILL_DURING := 3

  // ----- GetOneKillableBundle

  /** The scan over index[..n] from its end, stopping at the first bundle below
      minPrio and passing over those already waiting. */
  function Scan(s: State, n: nat, minPrio: int): (r: Option<int>)
    requires n <= |s.index|
    requires forall i :: 0 <= i < |s.index| ==> s.index[i] in s.bundles
    ensures r.Some? ==> r.value in s.bundles
  {
    if n == 0 then None
    else
      var b := s.bundles[s.index[n - 1]];
      if b.priority < minPrio then None
      else if b.waiting then Scan(s, n - 1, minPrio)
      else Some(s.index[n - 1])
  }

  predicate Killable(s: State, u: int, minPrio: int) {
    u in s.bundles && !s.bundles[u].waiting && s.bundles[u].priority >= minPrio
  }

  lemma IndexKnown(s: State)
    requires IndexAgrees(s)
    ensures forall i :: 0 <= i < |s.index| ==> s.index[i] in s.bundles
  {
    assert forall i :: 0 <= i < |s.index| ==> s.index[i] in s.index;
  }

  /** The (priority, uid)-greatest of the killable bundles among index[..n]. */
  ghost predicate Greatest(s: State, n: nat, minPrio: int, u: int)
    requires n <= |s.index|
  {
    && u in s.index[..n] && Killable(s, u, minPrio)
    && forall v :: v in s.index[..n] && Killable(s, v, minPrio) ==> v == u || Less(s.bundles, v, u)
  }

  lemma {:induction false} ScanFindsGreatest(s: State, n: nat, minPrio: int)
    requires n <= |s.index| && IndexAgrees(s)
    requires forall i :: 0 <= i < |s.index| ==> s.index[i] in s.bundles
    ensures match Scan(s, n, minPrio)
      case Some(u) => Greatest(s, n, minPrio, u)
      case None => forall v :: v in s.index[..n] ==> !Killable(s, v, minPrio)
    decreases n
  {
    if n > 0 {
      var u := s.index[n - 1];
      assert s.index[..n] == s.index[..n - 1] + [u];
      forall v | v in s.index[..n]
        ensures v == u || Less(s.bundles, v, u)
      {
        var k :| 0 <= k < n && s.index[k] == v;
      }
      ScanFindsGreatest(s, n - 1, minPrio);
    }
  }

  function Victim(s: State, minPrio: int): Option<int>
    requires forall i :: 0 <= i < |s.index| ==> s.index[i] in s.bundles
  {
    Scan(s, |s.index|, minPrio)
  }

  /** The scan with its early break returns precisely the greatest bundle that
      is not waiting and has at least minPrio, and nothing exactly when there is
      none. */
  lemma VictimIsGreatest(s: State, minPrio: int, u: int)
    requires Inv(s)
    requires forall i :: 0 <= i < |s.index| ==> s.index[i] in s.bundles
    ensures Victim(s, minPrio) == Some(u) <==>
            Killable(s, u, minPrio) && forall v :: Killable(s, v, minPrio) ==> v == u || Less(s.bundles, v, u)
    ensures Victim(s, minPrio) == None <==> forall v :: !Killable(s, v, minPrio)
  {
    ScanFindsGreatest(s, |s.index|, minPrio);
    assert s.index[..|s.index|] == s.index;
  }

  // ----- the killer beside the registry

  /** Between taking its copy and marking the bundle the killer holds no lock. */
  datatype Killer = Idle | Holding(uid: int, id: nat)

  /** killed lists the identities of the bundles whose processes were killed. */
  datatype System = System(registry: State, killer: Killer, killed: seq<nat>)

  datatype Action = Handler(e: Event) | Pick(minPrio: int, now: int) | Mark

  predicate IndexInMap(s: State) { forall i :: 0 <= i < |s.index| ==> s.index[i] in s.bundles }

  /** KillOneBundleByPrio up to the kills: a bundle younger than three seconds
      is left alone. */
  function Picked(y: System, minPrio: int, now: int): System
    requires IndexInMap(y.registry)
  {
    match Victim(y.registry, minPrio)
    case None => y
    case Some(u) =>
      var b := y.registry.bundles[u];
      if now - b.createTime < NOT_TO_KILL_DURING then y
      else y.(killer := Holding(u, b.id), killed := y.killed + [b.id])
  }

  /** A pick kills the greatest of the killable bundles, but only if that one
      was made at least three seconds ago. */
  lemma PickedIff(y: System, minPrio: int, now: int, u: int)
    requires Inv(y.registry) && IndexInMap(y.registry) && u in y.registry.bundles
    ensures var b := y.registry.bundles[u];
      Picked(y, minPrio, now).killed == y.killed + [b.id] && Picked(y, minPrio, now).killer == Holding(u, b.id) <==>
      Killable(y.registry, u, minPrio) && now - b.createTime >= 3 &&
      forall v :: Killable(y.registry, v, minPrio) ==> v == u || Less(y.registry.bundles, v, u)
  {
    hide Inv, Victim;
    VictimIsGreatest(y.registry, minPrio, u);
  }

  /** Pressure events run one after the other on the killer's own thread;
      registry handlers may come between a pick and its mark. */
  ghost predicate SystemStep(y: System, a: Action, y': System) {
    match a
    case Handler(e) =>
      !e.MarkWaiting? && Step(y.registry, e, y'.registry) && y'.killer == y.killer && y'.killed == y.killed
    case Pick(minPrio, now) =>
      y.killer.Idle? && IndexInMap(y.registry) && y' == Picked(y, minPrio, now)
    case Mark =>
      y.killer.Holding? && y' == y.(registry := HandleMark(y.registry, y.killer.uid), killer := Idle)
  }

  ghost predicate SystemRun(ys: seq<System>, actions: seq<Action>) {
    && |ys| == |actions| + 1
    && ys[0] == System(EMPTY, Idle, [])
    && forall i {:trigger actions[i]} :: 0 <= i < |actions| ==> SystemStep(ys[i], actions[i], ys[i + 1])
  }

  // ----- identities over a step

  /** Every bundle of t is new, or it was in s under the same uid, as old as it
      is now, and is waiting if it was. */
  ghost predicate Identities(s: State, t: State) {
    && s.nextId <= t.nextId
    && forall u :: u in t.bundles ==>
         || t.bundles[u].id >= s.nextId
         || (u in s.bundles && t.bundles[u].id == s.bundles[u].id && (s.bundles[u].waiting ==> t.bundles[u].waiting)
             && t.bundles[u].createTime == s.bundles[u].createTime)
  }

  /** The bundles stay where they are, with their identity and their mark. */
  ghost predicate SameMarks(s: State, t: State) {
    && t.nextId == s.nextId
    && forall u :: u in t.bundles ==>
         u in s.bundles && t.bundles[u].id == s.bundles[u].id && t.bundles[u].waiting == s.bundles[u].waiting
         && t.bundles[u].createTime == s.bundles[u].createTime
  }

  lemma ResortMarks(s: State, uid: int)
    requires uid in s.bundles
    ensures SameMarks(s, Resort(s, uid))
  {
    ResortReplaces(s, uid);
  }

  lemma AssignMarks(s: State, uid: int, pid: int, p: Proc)
    requires uid in s.bundles
    ensures SameMarks(s, Assign(s, uid, pid, p))
  {
    AssignReplaces(s, uid, pid, p);
  }

  lemma StatusMarks(s: State, uid: int, pid: int)
    requires Registered(s, uid, pid)
    ensures SameMarks(s, UpdateByStatus(s, uid, pid).state)
  {
    var p := ProcAt(s, uid, pid);
    AssignMarks(s, uid, pid, p.(priority := AdjustedPriority(p)));
  }

  lemma UpdateMarks(s: State, reason: Reason, uid: int, pid: int, time: int)
    requires Registered(s, uid, pid)
    ensures SameMarks(s, HandleUpdate(s, reason, uid, pid, time).state)
  {
    hide UpdateByStatus, Recorded;
    var p := ProcAt(s, uid, pid);
    var timers := if FinishesStart(p, reason, time) then WithoutTimers(s.timers, pid) else s.timers;
    StatusMarks(Put(s, uid, pid, AfterReason(p, reason, time)).(timers := timers), uid, pid);
  }

  lemma BindMarks(s: State, e: Event)
    requires e.Bind?
    ensures SameMarks(s, HandleBind(s, e).state)
  {
    hide HandleUpdate;
    var t := BindCaller(s, e);
    if RefRegistered(t, e.target) {
      var uid, pid := e.target.uid, e.target.pid;
      UpdateMarks(Put(t, uid, pid, BoundTarget(RefProc(t, e.target), e)),
                  if e.bind then BindExtension else UnbindExtension, uid, pid, e.time);
    }
  }

  lemma TimerMarks(s: State, which: nat)
    requires which < |s.timers|
    ensures SameMarks(s, HandleStartTimer(s, which).state)
  {
    hide UpdateByStatus;
    var timer := s.timers[which];
    var t := s.(timers := s.timers[..which] + s.timers[which + 1..]);
    if Registered(t, timer.uid, timer.pid) {
      StatusMarks(Put(t, timer.uid, timer.pid, ProcAt(t, timer.uid, timer.pid).(starting := false)), timer.uid, timer.pid);
    }
  }

  lemma StartMarks(s: State, uid: int, pid: int, time: int)
    requires Registered(s, uid, pid)
    ensures SameMarks(s, HandleAbilityStart(s, uid, pid, time))
  {
    var p := ProcAt(s, uid, pid);
    AssignMarks(s, uid, pid, p.(priority := PRIORITY_FOREGROUND, startTime := time, starting := true));
  }

  lemma SuspendTerminateMarks(s: State, uid: int, pid: int)
    requires uid in s.bundles
    ensures SameMarks(s, HandleSuspend(s, uid))
    ensures Registered(s, uid, pid) ==> SameMarks(s, HandleTerminate(s, uid, pid))
  {
    hide Resort;
    var b := s.bundles[uid];
    ResortMarks(s.(bundles := s.bundles[uid := b.(procs := SuspendedProcs(b.procs))]), uid);
    ResortMarks(s.(bundles := s.bundles[uid := WithoutProc(b, pid)]), uid);
  }

  lemma CreateIdentities(s: State, e: Event)
    requires e.Create?
    ensures Identities(s, HandleCreate(s, e))
  {
    hide Assign, Resort;
    var t := WithBundle(s, e);
    assert Identities(s, t);
    if e.pid in t.bundles[e.uid].procs {
      ResortMarks(t, e.uid);
    } else {
      AssignMarks(t, e.uid, e.pid, CreatedProc(e));
    }
  }

  lemma HandleIdentities(s: State, e: Event)
    ensures Identities(s, Handle(s, e).state)
  {
    hide HandleCreate, HandleTerminate, HandleSuspend, HandleUpdate, HandleBind, HandleAbilityStart, HandleStartTimer, UpdateByStatus;
    match e
    case Create(_, _, _, _, _) => CreateIdentities(s, e);
    case RenderCreate(_, _) =>
    case Terminate(uid, pid) => if Registered(s, uid, pid) { SuspendTerminateMarks(s, uid, pid); }
    case Suspend(uid, pid) => if uid in s.bundles { SuspendTerminateMarks(s, uid, pid); }
    case Update(reason, uid, pid, time) => if Registered(s, uid, pid) { UpdateMarks(s, reason, uid, pid, time); }
    case Bind(_, _, _, _, _) => BindMarks(s, e);
    case AbilityStart(uid, pid, time) => if Registered(s, uid, pid) { StartMarks(s, uid, pid, time); }
    case StartTimer(which) => if which < |s.timers| { TimerMarks(s, which); }
    case CreateTimer(uid, pid) => if Registered(s, uid, pid) { StatusMarks(s, uid, pid); }
    case Sweep(_) =>
    case Reset =>
    case MarkWaiting(_) =>
  }

  /** No handler clears a mark or reuses an identity. */
  lemma StepIdentities(s: State, e: Event, s': State)
    requires Step(s, e, s')
    ensures Identities(s, s')
  {
    hide Handle, IsPassOrder, Pass;
    HandleIdentities(s, e);
    match Handle(s, e)
    case Done(_) =>
    case Spread(t, start) =>
      var order :| IsPassOrder(t, start, order) && s' == Pass(t, order);
      PassFrame(t, order);
  }

  // ----- killed at most once

  /** A killed bundle that is still registered is waiting, or is the one the
      killer has in hand. */
  ghost predicate KillInv(y: System) {
    && Inv(y.registry)
    && (forall i, j :: 0 <= i < j < |y.killed| ==> y.killed[i] != y.killed[j])
    && (forall x :: x in y.killed ==> x < y.registry.nextId)
    && (forall u :: u in y.registry.bundles && y.registry.bundles[u].id in y.killed ==>
          y.registry.bundles[u].waiting || y.killer == Holding(u, y.registry.bundles[u].id))
  }

  lemma HandlerKeepsKills(y: System, e: Event, y': System)
    requires KillInv(y) && SystemStep(y, Handler(e), y')
    ensures KillInv(y')
  {
    hide Step, Inv;
    StepKeeps(y.registry, e, y'.registry);
    StepIdentities(y.registry, e, y'.registry);
  }

  lemma PickKeepsKills(y: System, minPrio: int, now: int)
    requires KillInv(y) && y.killer.Idle? && IndexInMap(y.registry)
    ensures KillInv(Picked(y, minPrio, now))
  {
    hide IndexAgrees, BundleOk;
    match Victim(y.registry, minPrio)
    case None =>
    case Some(u) =>
      VictimIsGreatest(y.registry, minPrio, u);
      var b := y.registry.bundles[u];
      assert b.id !in y.killed;
      assert forall x :: x in y.killed + [b.id] <==> x in y.killed || x == b.id;
  }

  lemma MarkKeepsKills(y: System)
    requires KillInv(y) && y.killer.Holding?
    ensures KillInv(y.(registry := HandleMark(y.registry, y.killer.uid), killer := Idle))
  {
    hide Inv;
    HandleMarkKeeps(y.registry, y.killer.uid);
  }

  lemma {:induction false} RunKillInv(ys: seq<System>, actions: seq<Action>, i: nat)
    requires SystemRun(ys, actions) && i < |ys|
    ensures KillInv(ys[i])
  {
    hide KillInv, SystemStep;
    if i == 0 {
      NothingKilled();
    } else {
      RunKillInv(ys, actions, i - 1);
      SystemStepKeeps(ys[i - 1], actions[i - 1], ys[i]);
    }
  }

  lemma NothingKilled()
    ensures KillInv(System(EMPTY, Idle, []))
  {
    hide Inv;
    EmptyInv();
  }

  lemma SystemStepKeeps(y: System, a: Action, y': System)
    requires KillInv(y) && SystemStep(y, a, y')
    ensures KillInv(y')
  {
    hide KillInv, Step;
    match a
    case Handler(e) => HandlerKeepsKills(y, e, y');
    case Pick(minPrio, now) => PickKeepsKills(y, minPrio, now);
    case Mark => MarkKeepsKills(y);
  }

  /** Over every interleaving of pressure events and registry steps, no bundle
      object is killed twice. */
  lemma KilledAtMostOnce(ys: seq<System>, actions: seq<Action>, i: nat)
    requires SystemRun(ys, actions) && i < |ys|
    ensures forall j, k :: 0 <= j < k < |ys[i].killed| ==> ys[i].killed[j] != ys[i].killed[k]
  {
    hide SystemStep;
    RunKillInv(ys, actions, i);
  }

  // ----- whose mark it is

  /** A waiting bundle of t was waiting in s, and is the same object. */
  ghost predicate NoNewMarks(s: State, t: State) {
    forall u :: u in t.bundles && t.bundles[u].waiting ==>
      u in s.bundles && s.bundles[u].waiting && t.bundles[u].id == s.bundles[u].id
  }

  lemma CreateNoNewMarks(s: State, e: Event)
    requires e.Create?
    ensures NoNewMarks(s, HandleCreate(s, e))
  {
    hide Assign, Resort;
    var t := WithBundle(s, e);
    if e.pid in t.bundles[e.uid].procs {
      ResortMarks(t, e.uid);
    } else {
      AssignMarks(t, e.uid, e.pid, CreatedProc(e));
    }
  }

  /** No handler marks a bundle; only the killer does. */
  lemma HandleNoNewMarks(s: State, e: Event)
    requires !e.MarkWaiting?
    ensures NoNewMarks(s, Handle(s, e).state)
  {
    hide HandleCreate, HandleTerminate, HandleSuspend, HandleUpdate, HandleBind, HandleAbilityStart, HandleStartTimer, UpdateByStatus;
    match e
    case Create(_, _, _, _, _) => CreateNoNewMarks(s, e);
    case RenderCreate(_, _) =>
    case Terminate(uid, pid) => if Registered(s, uid, pid) { SuspendTerminateMarks(s, uid, pid); }
    case Suspend(uid, pid) => if uid in s.bundles { SuspendTerminateMarks(s, uid, pid); }
    case Update(reason, uid, pid, time) => if Registered(s, uid, pid) { UpdateMarks(s, reason, uid, pid, time); }
    case Bind(_, _, _, _, _) => BindMarks(s, e);
    case AbilityStart(uid, pid, time) => if Registered(s, uid, pid) { StartMarks(s, uid, pid, time); }
    case StartTimer(which) => if which < |s.timers| { TimerMarks(s, which); }
    case CreateTimer(uid, pid) => if Registered(s, uid, pid) { StatusMarks(s, uid, pid); }
    case Sweep(_) =>
    case Reset =>
  }

  lemma StepNoNewMarks(s: State, e: Event, s': State)
    requires Step(s, e, s') && !e.MarkWaiting?
    ensures NoNewMarks(s, s')
  {
    hide Handle, IsPassOrder, Pass;
    HandleNoNewMarks(s, e);
    match Handle(s, e)
    case Done(_) =>
    case Spread(t, start) =>
      var order :| IsPassOrder(t, start, order) && s' == Pass(t, order);
      PassFrame(t, order);
  }

  /** Every waiting bundle was killed. */
  ghost predicate WaitingWereKilled(y: System) {
    forall u :: u in y.registry.bundles && y.registry.bundles[u].waiting ==> y.registry.bundles[u].id in y.killed
  }

  /** The uid the killer is about to mark belongs to another bundle by now, and
      that one is not waiting. */
  predicate MarksAnother(y: System) {
    && y.killer.Holding? && y.killer.uid in y.registry.bundles
    && y.registry.bundles[y.killer.uid].id != y.killer.id && !y.registry.bundles[y.killer.uid].waiting
  }

  /** What the killer has in hand it has killed. */
  ghost predicate HandIsKilled(y: System) { y.killer.Holding? ==> y.killer.id in y.killed }

  /** A step keeps "every waiting bundle was killed" if and only if it is not a
      mark, made by uid, on a bundle that took the place of the killed one. */
  lemma WaitingKilledIff(y: System, a: Action, y': System)
    requires KillInv(y) && HandIsKilled(y) && WaitingWereKilled(y) && SystemStep(y, a, y')
    ensures HandIsKilled(y')
    ensures WaitingWereKilled(y') <==> !(a.Mark? && MarksAnother(y))
  {
    hide Inv, Victim, Step;
    match a
    case Handler(e) => StepNoNewMarks(y.registry, e, y'.registry);
    case Pick(minPrio, now) => assert forall x :: x in y.killed ==> x in y'.killed;
    case Mark =>
      var u := y.killer.uid;
      if u in y.registry.bundles && y.registry.bundles[u].id != y.killer.id && !y.registry.bundles[u].waiting {
        assert y.registry.bundles[u].id !in y.killed;
        assert y'.registry.bundles[u].waiting && y'.registry.bundles[u].id == y.registry.bundles[u].id;
      }
  }

  /** As long as no bundle is replaced between a pick and its mark, exactly the
      killed bundles are waiting, but for the one in hand. */
  lemma {:induction false} WaitingIffKilled(ys: seq<System>, actions: seq<Action>, i: nat)
    requires SystemRun(ys, actions) && i < |ys|
    requires forall k :: 0 <= k < i && actions[k].Mark? ==> !MarksAnother(ys[k])
    ensures KillInv(ys[i]) && HandIsKilled(ys[i]) && WaitingWereKilled(ys[i])
    ensures forall u :: u in ys[i].registry.bundles ==>
      var b := ys[i].registry.bundles[u];
      (b.id in ys[i].killed <==> b.waiting || ys[i].killer == Holding(u, b.id))
  {
    hide SystemStep, Inv, MarksAnother;
    RunKillInv(ys, actions, i);
    if i > 0 {
      WaitingIffKilled(ys, actions, i - 1);
      WaitingKilledIff(ys[i - 1], actions[i - 1], ys[i]);
    }
  }

  // ----- a run on which the mark hits another bundle

  const BORN := Create(1, 1, None, false, 0)
  const REPLACED_ACTIONS := [
    Handler(BORN), Pick(0, NOT_TO_KILL_DURING), Handler(Terminate(1, 1)), Handler(BORN), Mark]

  /** The one bundle, as creation leaves it. */
  ghost predicate OneBorn(s: State, id: nat) {
    && (forall u :: u in s.bundles <==> u == 1) && s.bundles[1].id == id && !s.bundles[1].waiting
    && s.bundles[1].createTime == 0 && s.bundles[1].priority == 0
    && s.bundles[1].procs == map[1 := CreatedProc(BORN)] && s.nextId == id + 1
  }

  lemma Birth(s: State)
    requires Inv(s) && s.bundles == map[]
    ensures OneBorn(HandleCreate(s, BORN), s.nextId) && Inv(HandleCreate(s, BORN))
    ensures HandleCreate(s, BORN).nextId == s.nextId + 1
  {
    hide Inv, Resort;
    HandleCreateKeeps(s, BORN);
    var t := WithBundle(s, BORN);
    AssignReplaces(t, 1, 1, CreatedProc(BORN));
    var procs := map[1 := CreatedProc(BORN)];
    assert t.bundles[1].procs[1 := CreatedProc(BORN)] == procs;
    assert procs[1].priority == 0 && !procs[1].render;
    MinPriorityIs(procs, 0);
  }

  lemma OnlyVictim(s: State, id: nat)
    requires Inv(s) && OneBorn(s, id)
    ensures IndexInMap(s) && Victim(s, 0) == Some(1)
  {
    hide Victim;
    IndexKnown(s);
    VictimIsGreatest(s, 0, 1);
  }

  lemma Death(s: State, id: nat)
    requires OneBorn(s, id)
    ensures Handle(s, Terminate(1, 1)).Done?
    ensures var t := Handle(s, Terminate(1, 1)).state; t.bundles == map[] && t.nextId == s.nextId
  {
    hide Erase, Resort;
    var b := WithoutProc(s.bundles[1], 1);
    assert b.procs == map[];
    var rest := s.bundles - {1};
    assert forall u :: u !in rest;
    assert rest == map[];
  }

  /** A bundle is picked and killed, terminates, and is created again before the
      mark: the new bundle waits, though it was never killed. */
  lemma MarkHitsAnother() returns (ys: seq<System>)
    ensures SystemRun(ys, REPLACED_ACTIONS) && MarksAnother(ys[4])
    ensures 1 in ys[5].registry.bundles && ys[5].registry.bundles[1].waiting
    ensures ys[5].registry.bundles[1].id !in ys[5].killed
  {
    hide HandleCreate, Handle, Victim, Inv, OneBorn;
    EmptyInv();
    Birth(EMPTY);
    var s1 := HandleCreate(EMPTY, BORN);
    BirthIsStep(EMPTY);
    OnlyVictim(s1, 0);
    Death(s1, 0);
    var s3 := Handle(s1, Terminate(1, 1)).state;
    StepKeeps(s1, Terminate(1, 1), s3);
    Birth(s3);
    BirthIsStep(s3);
    var s4 := HandleCreate(s3, BORN);
    ys := ReplacedStates(s1, s3, s4);
  }

  lemma BirthIsStep(s: State)
    ensures Step(s, BORN, HandleCreate(s, BORN))
  {
    hide HandleCreate;
  }

  lemma ReplacedStates(s1: State, s3: State, s4: State) returns (ys: seq<System>)
    requires Step(EMPTY, BORN, s1) && OneBorn(s1, 0) && IndexInMap(s1) && Victim(s1, 0) == Some(1)
    requires Step(s1, Terminate(1, 1), s3) && Step(s3, BORN, s4) && OneBorn(s4, 1)
    ensures SystemRun(ys, REPLACED_ACTIONS) && MarksAnother(ys[4])
    ensures 1 in ys[5].registry.bundles && ys[5].registry.bundles[1].waiting
    ensures ys[5].registry.bundles[1].id !in ys[5].killed
  {
    hide Step, Victim;
    var hand := Holding(1, 0);
    ys := [System(EMPTY, Idle, []), System(s1, Idle, []), System(s1, hand, [0]), System(s3, hand, [0]),
           System(s4, hand, [0]), System(HandleMark(s4, 1), Idle, [0])];
    assert Picked(ys[1], 0, NOT_TO_KILL_DURING) == ys[2];
    forall i | 0 <= i < 5
      ensures SystemStep(ys[i], REPLACED_ACTIONS[i], ys[i + 1])
    {
      assert i == 0 || i == 1 || i == 2 || i == 3 || i == 4;
    }
  }

  // ----- system bundles are out of reach

  /** The mark is a step of the registry like any other. */
  lemma SystemStepGuards(y: System, a: Action, y': System, uid: int, pid: int)
    requires Inv(y.registry) && SystemStep(y, a, y') && Guarded(y.registry, uid, pid)
    requires a.Handler? ==> !Ends(a.e, pid)
    ensures Guarded(y'.registry, uid, pid)
  {
    hide Inv, Handle;
    match a
    case Handler(e) => StepGuards(y.registry, e, y'.registry, uid, pid);
    case Pick(_, _) =>
    case Mark =>
      MarkIsStep(y.registry, y.killer.uid);
      StepGuards(y.registry, MarkWaiting(y.killer.uid), y'.registry, uid, pid);
  }

  lemma MarkIsStep(s: State, uid: int)
    ensures Step(s, MarkWaiting(uid), HandleMark(s, uid))
  {
  }

  lemma {:induction false} SystemGuardStays(ys: seq<System>, actions: seq<Action>, i: nat, j: nat, uid: int, pid: int)
    requires SystemRun(ys, actions) && i <= j < |ys| && Guarded(ys[i].registry, uid, pid)
    requires forall k :: i <= k < j && actions[k].Handler? ==> !Ends(actions[k].e, pid)
    ensures Guarded(ys[j].registry, uid, pid)
    decreases j
  {
    hide SystemStep;
    if i < j {
      SystemGuardStays(ys, actions, i, j - 1, uid, pid);
      RunKillInv(ys, actions, j - 1);
      SystemStepGuards(ys[j - 1], actions[j - 1], ys[j], uid, pid);
    }
  }

  /** A pressure event with any threshold above -800 does not kill the bundle of
      a process at or below -800, at any later point of any run. */
  lemma SystemBundleNeverKilled(ys: seq<System>, actions: seq<Action>, i: nat, j: nat, uid: int, pid: int)
    requires SystemRun(ys, actions) && i <= j < |actions| && Guarded(ys[i].registry, uid, pid)
    requires forall k :: i <= k < j && actions[k].Handler? ==> !Ends(actions[k].e, pid)
    requires actions[j].Pick? && actions[j].minPrio > PRIORITY_KILLABLE_SYSTEM
    ensures Guarded(ys[j].registry, uid, pid)
    ensures ys[j + 1].killed == ys[j].killed ||
            exists x :: x != ys[j].registry.bundles[uid].id && ys[j + 1].killed == ys[j].killed + [x]
  {
    hide Step, Picked, Inv;
    SystemGuardStays(ys, actions, i, j, uid, pid);
    RunKillInv(ys, actions, j);
    var y := ys[j];
    PickedIsNot(y, actions[j].minPrio, actions[j].now, uid, pid);
  }

  lemma PickedIsNot(y: System, minPrio: int, now: int, uid: int, pid: int)
    requires Inv(y.registry) && IndexInMap(y.registry) && Guarded(y.registry, uid, pid)
    requires minPrio > PRIORITY_KILLABLE_SYSTEM
    ensures var y' := Picked(y, minPrio, now);
      y'.killed == y.killed || exists x :: x != y.registry.bundles[uid].id && y'.killed == y.killed + [x]
  {
    GuardedBundle(y.registry, uid, pid);
    match Victim(y.registry, minPrio)
    case None =>
    case Some(u) =>
      VictimIsGreatest(y.registry, minPrio, u);
      assert y.registry.bundles[u].id != y.registry.bundles[uid].id;
  }
}
