/** What every step of the registry keeps, and what therefore holds in every
    state of every run. */
module RegistryInvariant {
  import opened Collections
  import opened RegistryTypes
  import opened BundleIndex
  import opened BindGraph
  import opened Registry

  /** A process that is configured at or below -800 is there, and a process at
      or below -800 is not an extension. No renderer is ever registered. */
  predicate SystemProcOk(p: Proc) {
    && (p.important && p.importantPriority <= PRIORITY_KILLABLE_SYSTEM ==> p.priority <= PRIORITY_KILLABLE_SYSTEM)
    && (p.priority <= PRIORITY_KILLABLE_SYSTEM ==> !p.extension)
    && !p.render
  }

  predicate ProcsOk(uid: int, procs: map<int, Proc>) {
    forall pid :: pid in procs ==> procs[pid].pid == pid && procs[pid].uid == uid && SystemProcOk(procs[pid])
  }

  /** Slots and records agree, the bundle is not empty, and its priority is at
      most that of its least process. */
  ghost predicate BundleOk(uid: int, b: Bundle) {
    && b.uid == uid && b.procs != map[] && ProcsOk(uid, b.procs)
    && b.priority <= BundlePriority(b.procs)
  }

  ghost predicate DistinctIds(s: State) {
    && (forall u :: u in s.bundles ==> s.bundles[u].id < s.nextId)
    && (forall u, v :: u in s.bundles && v in s.bundles && s.bundles[u].id == s.bundles[v].id ==> u == v)
  }

  /** The index holds exactly the registered bundles, strictly ordered by
      (priority, uid). */
  ghost predicate IndexAgrees(s: State) {
    && Sorted(s.bundles, s.index)
    && forall u :: u in s.index <==> u in s.bundles
  }

  ghost predicate Inv(s: State) {
    && IndexAgrees(s)
    && DistinctIds(s)
    && forall u :: u in s.bundles ==> BundleOk(u, s.bundles[u])
  }

  ghost predicate Exact(b: Bundle) { b.priority == BundlePriority(b.procs) }

  /** Every bundle is exactly as killable as its least process. */
  ghost predicate AllExact(s: State) {
    forall u :: u in s.bundles ==> Exact(s.bundles[u])
  }

  // ----- UpdateBundlePriority

  /** Only the bundle of uid may be out of date; re-sorting repairs it. */
  lemma ResortIndex(s: State, uid: int)
    requires IndexAgrees(s) && uid in s.bundles
    ensures IndexAgrees(Resort(s, uid))
  {
    EraseTarget(s.bundles, s.index, uid);
    var erased := Erase(s.bundles, s.index, uid);
    var bundles := s.bundles[uid := Refreshed(s.bundles[uid])];
    SortedElsewhere(s.bundles, bundles, erased);
    InsertAbsent(bundles, erased, uid);
  }

  /** Writing a process does not move any key. */
  lemma PutIndex(s: State, uid: int, pid: int, p: Proc)
    requires IndexAgrees(s) && uid in s.bundles
    ensures IndexAgrees(Put(s, uid, pid, p))
  {
    SortedElsewhere(s.bundles, Put(s, uid, pid, p).bundles, s.index);
  }

  lemma AssignIndex(s: State, uid: int, pid: int, p: Proc)
    requires IndexAgrees(s) && uid in s.bundles
    ensures IndexAgrees(Assign(s, uid, pid, p))
  {
    PutIndex(s, uid, pid, p);
    ResortIndex(Put(s, uid, pid, p), uid);
  }

  // ----- one bundle replaced

  /** s' has b for uid, and otherwise what s has. */
  ghost predicate Replaced(s: State, s': State, uid: int, b: Bundle) {
    && uid in s.bundles
    && s'.bundles == s.bundles[uid := b]
    && s'.nextId == s.nextId
    && b.id == s.bundles[uid].id
  }

  /** The invariant, with nothing said about the bundle of uid. */
  ghost predicate InvBut(s: State, uid: int) {
    && IndexAgrees(s)
    && DistinctIds(s)
    && forall u :: u in s.bundles && u != uid ==> BundleOk(u, s.bundles[u])
  }

  ghost predicate AllExactBut(s: State, uid: int) {
    forall u :: u in s.bundles && u != uid ==> Exact(s.bundles[u])
  }

  lemma ReplacedKeeps(s: State, s': State, uid: int, b: Bundle)
    requires InvBut(s, uid) && Replaced(s, s', uid, b) && BundleOk(uid, b) && IndexAgrees(s')
    ensures Inv(s')
    ensures AllExactBut(s, uid) && Exact(b) ==> AllExact(s')
  {
  }

  /** The minimum does not see anything but priority and render. */
  lemma MinPrioritySame(procs: map<int, Proc>, pid: int, p: Proc)
    requires pid in procs && p.priority == procs[pid].priority && p.render == procs[pid].render
    ensures BundlePriority(procs[pid := p]) == BundlePriority(procs)
  {
    var m := MinPriority(procs);
    if m != PRIORITY_UNKNOWN {
      var w :| w in procs && !procs[w].render && procs[w].priority == m;
      assert procs[pid := p][w].priority == m;
    }
    MinPriorityIs(procs[pid := p], m);
  }

  predicate SameSlot(p: Proc, q: Proc) { p.uid == q.uid && p.pid == q.pid }

  /** Recording flags or edges keeps everything. */
  lemma PutKeeps(s: State, uid: int, pid: int, p: Proc)
    requires Inv(s) && Registered(s, uid, pid) && SystemProcOk(p)
    requires SameSlot(p, ProcAt(s, uid, pid))
    requires p.priority == ProcAt(s, uid, pid).priority
    ensures Inv(Put(s, uid, pid, p))
    ensures AllExact(s) ==> AllExact(Put(s, uid, pid, p))
  {
    PutIndex(s, uid, pid, p);
    MinPrioritySame(s.bundles[uid].procs, pid, p);
    ReplacedKeeps(s, Put(s, uid, pid, p), uid, WithProc(s.bundles[uid], pid, p));
  }

  lemma AssignReplaces(s: State, uid: int, pid: int, p: Proc)
    requires uid in s.bundles
    ensures Replaced(s, Assign(s, uid, pid, p), uid, Refreshed(WithProc(s.bundles[uid], pid, p)))
    ensures Assign(s, uid, pid, p).timers == s.timers
  {
  }

  /** t has p in the slot (uid, pid), and otherwise the processes s has. */
  ghost predicate OneSlot(s: State, t: State, uid: int, pid: int, p: Proc) {
    && Registered(t, uid, pid) && ProcAt(t, uid, pid) == p
    && forall u, x :: u != uid || x != pid ==>
         && (Registered(t, u, x) <==> Registered(s, u, x))
         && (Registered(s, u, x) ==> ProcAt(t, u, x) == ProcAt(s, u, x))
  }

  lemma AssignSlot(s: State, uid: int, pid: int, p: Proc)
    requires uid in s.bundles
    ensures OneSlot(s, Assign(s, uid, pid, p), uid, pid, p)
    ensures Assign(s, uid, pid, p).timers == s.timers
  {
    AssignReplaces(s, uid, pid, p);
  }

  lemma RefreshedOk(uid: int, b: Bundle, pid: int, p: Proc)
    requires b.uid == uid && ProcsOk(uid, b.procs) && SystemProcOk(p) && p.uid == uid && p.pid == pid
    ensures BundleOk(uid, Refreshed(WithProc(b, pid, p)))
    ensures Exact(Refreshed(WithProc(b, pid, p)))
  {
    assert pid in WithProc(b, pid, p).procs;
  }

  /** Changing a priority and re-sorting keeps everything. */
  lemma AssignKeeps(s: State, uid: int, pid: int, p: Proc)
    requires Inv(s) && Registered(s, uid, pid) && SystemProcOk(p)
    requires SameSlot(p, ProcAt(s, uid, pid))
    ensures Inv(Assign(s, uid, pid, p))
    ensures AllExact(s) ==> AllExact(Assign(s, uid, pid, p))
  {
    assert BundleOk(uid, s.bundles[uid]);
    AddKeeps(s, uid, pid, p);
  }

  /** So does adding a process to a bundle that may still be empty. */
  lemma AddKeeps(s: State, uid: int, pid: int, p: Proc)
    requires InvBut(s, uid) && uid in s.bundles && s.bundles[uid].uid == uid && ProcsOk(uid, s.bundles[uid].procs)
    requires SystemProcOk(p) && p.uid == uid && p.pid == pid
    ensures Inv(Assign(s, uid, pid, p))
    ensures AllExactBut(s, uid) ==> AllExact(Assign(s, uid, pid, p))
  {
    var b := s.bundles[uid];
    AssignIndex(s, uid, pid, p);
    AssignReplaces(s, uid, pid, p);
    RefreshedOk(uid, b, pid, p);
    ReplacedKeeps(s, Assign(s, uid, pid, p), uid, Refreshed(WithProc(b, pid, p)));
  }

  // ----- the handlers, one by one

  ghost predicate Keeps(s: State, s': State) {
    Inv(s') && (AllExact(s) ==> AllExact(s'))
  }

  /** No process is below its bundle. */
  lemma ProcAboveBundle(s: State, uid: int, pid: int)
    requires Inv(s) && Registered(s, uid, pid)
    ensures SystemProcOk(ProcAt(s, uid, pid))
    ensures ProcAt(s, uid, pid).uid == uid && ProcAt(s, uid, pid).pid == pid
    ensures s.bundles[uid].priority <= ProcAt(s, uid, pid).priority || s.bundles[uid].priority <= PRIORITY_MIN
  {
    assert BundleOk(uid, s.bundles[uid]);
  }

  lemma UpdateByStatusKeeps(s: State, uid: int, pid: int)
    requires Inv(s) && Registered(s, uid, pid)
    ensures Keeps(s, UpdateByStatus(s, uid, pid).state)
  {
    ProcAboveBundle(s, uid, pid);
    var p := ProcAt(s, uid, pid);
    if s.bundles[uid].priority >= PRIORITY_FOREGROUND && !p.render {
      AssignKeeps(s, uid, pid, p.(priority := AdjustedPriority(p)));
    }
  }

  lemma RecordedSame(p: Proc, reason: Reason, time: int)
    ensures var q := AfterReason(p, reason, time);
      SameSlot(q, p) && q.priority == p.priority && q.render == p.render && q.extension == p.extension
      && q.important == p.important && q.importantPriority == p.importantPriority
  {
    hide NextStatus, NextBindStatus;
  }

  lemma TimersKeep(s: State, timers: seq<Timer>)
    requires Inv(s)
    ensures Keeps(s, s.(timers := timers))
  {
  }

  lemma HandleUpdateKeeps(s: State, reason: Reason, uid: int, pid: int, time: int)
    requires Inv(s) && Registered(s, uid, pid)
    ensures Keeps(s, HandleUpdate(s, reason, uid, pid, time).state)
  {
    hide UpdateByStatus, Inv, AllExact, AfterReason;
    ProcAboveBundle(s, uid, pid);
    var p := ProcAt(s, uid, pid);
    var q := AfterReason(p, reason, time);
    RecordedSame(p, reason, time);
    PutKeeps(s, uid, pid, q);
    var timers := if FinishesStart(p, reason, time) then WithoutTimers(s.timers, pid) else s.timers;
    TimersKeep(Put(s, uid, pid, q), timers);
    UpdateByStatusKeeps(Put(s, uid, pid, q).(timers := timers), uid, pid);
  }

  lemma BindCallerKeeps(s: State, e: Event)
    requires Inv(s) && e.Bind?
    ensures Keeps(s, BindCaller(s, e))
  {
    if RefRegistered(s, e.caller) {
      ProcAboveBundle(s, e.caller.uid, e.caller.pid);
      var p := RefProc(s, e.caller);
      PutKeeps(s, e.caller.uid, e.caller.pid,
               p.(bindFromMe := if e.bind then p.bindFromMe[e.target.pid := e.target.uid]
                                else p.bindFromMe - {e.target.pid}));
    }
  }

  lemma HandleBindKeeps(s: State, e: Event)
    requires Inv(s) && e.Bind?
    ensures Keeps(s, HandleBind(s, e).state)
  {
    BindCallerKeeps(s, e);
    var t := BindCaller(s, e);
    if RefRegistered(t, e.target) {
      var uid, pid := e.target.uid, e.target.pid;
      ProcAboveBundle(t, uid, pid);
      var p := RefProc(t, e.target);
      if !(p.priority <= PRIORITY_KILLABLE_SYSTEM || t.bundles[uid].priority <= PRIORITY_KILLABLE_SYSTEM || e.killable) {
        PutKeeps(t, uid, pid, BoundTarget(p, e));
        HandleUpdateKeeps(Put(t, uid, pid, BoundTarget(p, e)), if e.bind then BindExtension else UnbindExtension, uid, pid, e.time);
      }
    }
  }

  lemma HandleAbilityStartKeeps(s: State, uid: int, pid: int, time: int)
    requires Inv(s) && Registered(s, uid, pid)
    ensures Keeps(s, HandleAbilityStart(s, uid, pid, time))
  {
    ProcAboveBundle(s, uid, pid);
    var p := ProcAt(s, uid, pid);
    if MayStartAbility(p) {
      var q := p.(priority := PRIORITY_FOREGROUND, startTime := time, starting := true);
      AssignKeeps(s, uid, pid, q);
      var t := Assign(s, uid, pid, q);
      TimersKeep(t, WithoutTimers(t.timers, pid) + [Timer(pid, uid)]);
    }
  }

  lemma HandleStartTimerKeeps(s: State, which: nat)
    requires Inv(s) && which < |s.timers|
    ensures Keeps(s, HandleStartTimer(s, which).state)
  {
    var timer := s.timers[which];
    var t := s.(timers := s.timers[..which] + s.timers[which + 1..]);
    TimersKeep(s, t.timers);
    if Registered(t, timer.uid, timer.pid) && ProcAt(t, timer.uid, timer.pid).starting {
      ProcAboveBundle(t, timer.uid, timer.pid);
      var p := ProcAt(t, timer.uid, timer.pid);
      PutKeeps(t, timer.uid, timer.pid, p.(starting := false));
      UpdateByStatusKeeps(Put(t, timer.uid, timer.pid, p.(starting := false)), timer.uid, timer.pid);
    }
  }

  lemma ResortReplaces(s: State, uid: int)
    requires uid in s.bundles
    ensures Replaced(s, Resort(s, uid), uid, Refreshed(s.bundles[uid]))
  {
  }

  /** Recomputing a bundle whose processes are in order keeps everything. */
  lemma ResortKeeps(s: State, uid: int)
    requires InvBut(s, uid) && uid in s.bundles && s.bundles[uid].uid == uid
    requires ProcsOk(uid, s.bundles[uid].procs) && s.bundles[uid].procs != map[]
    ensures Inv(Resort(s, uid))
    ensures AllExactBut(s, uid) ==> AllExact(Resort(s, uid))
  {
    ResortIndex(s, uid);
    ResortReplaces(s, uid);
    ReplacedKeeps(s, Resort(s, uid), uid, Refreshed(s.bundles[uid]));
  }

  /** Entering a new bundle in the index. */
  lemma EnteredIndex(s: State, uid: int, b: Bundle)
    requires IndexAgrees(s) && uid !in s.bundles
    ensures var bundles := s.bundles[uid := b];
      IndexAgrees(s.(bundles := bundles, index := Insert(bundles, s.index, uid)))
  {
    var bundles := s.bundles[uid := b];
    SortedElsewhere(s.bundles, bundles, s.index);
    InsertAbsent(bundles, s.index, uid);
  }

  lemma EnteredKeeps(s: State, uid: int, b: Bundle)
    requires Inv(s) && uid !in s.bundles && b.id == s.nextId
    ensures InvBut(Entered(s, uid, b), uid)
    ensures AllExact(s) ==> AllExactBut(Entered(s, uid, b), uid)
  {
    EnteredIndex(s, uid, b);
    EnteredIds(s, uid, b);
  }

  lemma EnteredIds(s: State, uid: int, b: Bundle)
    requires DistinctIds(s) && uid !in s.bundles && b.id == s.nextId
    ensures DistinctIds(Entered(s, uid, b))
  {
  }

  lemma HandleCreateKeeps(s: State, e: Event)
    requires Inv(s) && e.Create?
    ensures Keeps(s, HandleCreate(s, e))
  {
    var t := WithBundle(s, e);
    if e.uid in s.bundles {
      assert BundleOk(e.uid, s.bundles[e.uid]);
    } else {
      EnteredKeeps(s, e.uid, NewBundle(s, e));
    }
    if e.pid in t.bundles[e.uid].procs {
      ResortKeeps(t, e.uid);
    } else {
      AddKeeps(t, e.uid, e.pid, CreatedProc(e));
    }
  }

  /** Leaving out the recomputation when the removed process had the greater
      value is the same as recomputing. */
  lemma RemovalSkipsRecompute(procs: map<int, Proc>, pid: int)
    requires pid in procs
    ensures BundlePriority(procs) <= BundlePriority(procs - {pid})
    ensures procs[pid].priority > BundlePriority(procs) ==> BundlePriority(procs - {pid}) == BundlePriority(procs)
  {
    var rest := procs - {pid};
    var m := MinPriority(procs);
    assert m <= MinPriority(rest);
    if procs[pid].priority > BundlePriority(procs) && m != PRIORITY_UNKNOWN {
      var w :| w in procs && !procs[w].render && procs[w].priority == m;
      assert w in rest;
      MinPriorityIs(rest, m);
    }
  }

  lemma RemovedIndex(s: State, uid: int, b: Bundle)
    requires IndexAgrees(s) && uid in s.bundles && b.priority == s.bundles[uid].priority
    ensures IndexAgrees(s.(bundles := s.bundles - {uid}, index := Erase(s.bundles[uid := b], s.index, uid)))
  {
    var bundles := s.bundles[uid := b];
    SortedElsewhere(s.bundles, bundles, s.index);
    EraseTarget(bundles, s.index, uid);
    SortedElsewhere(bundles, s.bundles - {uid}, Erase(bundles, s.index, uid));
  }

  lemma SameKeyIndex(s: State, uid: int, b: Bundle)
    requires IndexAgrees(s) && uid in s.bundles && b.priority == s.bundles[uid].priority
    ensures IndexAgrees(s.(bundles := s.bundles[uid := b]))
  {
    SortedElsewhere(s.bundles, s.bundles[uid := b], s.index);
  }

  lemma HandleTerminateKeeps(s: State, uid: int, pid: int)
    requires Inv(s) && Registered(s, uid, pid)
    ensures Keeps(s, HandleTerminate(s, uid, pid))
  {
    var old' := s.bundles[uid];
    var b := WithoutProc(old', pid);
    assert BundleOk(uid, old');
    if b.procs == map[] {
      RemovedIndex(s, uid, b);
    } else {
      SameKeyIndex(s, uid, b);
      var t := s.(bundles := s.bundles[uid := b]);
      if old'.procs[pid].priority <= b.priority {
        ResortKeeps(t, uid);
      } else {
        RemovalSkipsRecompute(old'.procs, pid);
        ReplacedKeeps(s, t, uid, b);
      }
    }
  }

  lemma HandleSuspendKeeps(s: State, uid: int)
    requires Inv(s) && uid in s.bundles && !SystemBundle(s.bundles[uid])
    ensures Keeps(s, HandleSuspend(s, uid))
  {
    var b := s.bundles[uid];
    var c := b.(procs := SuspendedProcs(b.procs));
    assert BundleOk(uid, b);
    SameKeyIndex(s, uid, c);
    SuspendedOk(uid, b);
    ResortKeeps(s.(bundles := s.bundles[uid := c]), uid);
  }

  lemma SuspendedOk(uid: int, b: Bundle)
    requires BundleOk(uid, b) && !SystemBundle(b)
    ensures ProcsOk(uid, SuspendedProcs(b.procs)) && SuspendedProcs(b.procs) != map[]
  {
    var pid := AnyOf(b.procs.Keys);
    assert pid in SuspendedProcs(b.procs);
  }

  lemma HandleMarkKeeps(s: State, uid: int)
    requires Inv(s)
    ensures Keeps(s, HandleMark(s, uid))
  {
    if uid in s.bundles {
      var b := s.bundles[uid].(waiting := true);
      assert BundleOk(uid, s.bundles[uid]);
      SameKeyIndex(s, uid, b);
      ReplacedKeeps(s, HandleMark(s, uid), uid, b);
    }
  }

  // ----- the sweep

  lemma {:induction false} SweptSorted(bs: Bundles, index: seq<int>, alive: set<int>)
    requires Sorted(bs, index)
    ensures Sorted(bs, SweptIndex(bs, index, alive))
    decreases |index|
  {
    if index != [] {
      assert forall i, j :: 0 <= i < j < |index| - 1 ==> index[1..][i] == index[i + 1] && index[1..][j] == index[j + 1];
      SweptSorted(bs, index[1..], alive);
      var rest := SweptIndex(bs, index[1..], alive);
      forall i | 0 <= i < |rest|
        ensures Less(bs, index[0], rest[i])
      {
        assert rest[i] in rest;
        var j :| 0 <= j < |index| - 1 && index[1..][j] == rest[i];
      }
    }
  }

  /** Dropping processes and edges only raises the minimum. */
  lemma SweptProcsOk(uid: int, procs: map<int, Proc>, alive: set<int>)
    requires ProcsOk(uid, procs)
    ensures ProcsOk(uid, SweptProcs(procs, alive))
    ensures BundlePriority(procs) <= BundlePriority(SweptProcs(procs, alive))
  {
    var rest := SweptProcs(procs, alive);
    assert MinPriority(procs) <= MinPriority(rest);
  }

  lemma SweepKeepsIndex(s: State, alive: set<int>)
    requires IndexAgrees(s)
    ensures IndexAgrees(HandleSweep(s, alive))
  {
    SweptSorted(s.bundles, s.index, alive);
    SortedElsewhere(s.bundles, HandleSweep(s, alive).bundles, HandleSweep(s, alive).index);
  }

  lemma SweepKeeps(s: State, alive: set<int>)
    requires Inv(s)
    ensures Inv(HandleSweep(s, alive))
  {
    SweepKeepsIndex(s, alive);
    var t := HandleSweep(s, alive);
    forall u | u in t.bundles
      ensures BundleOk(u, t.bundles[u])
    {
      assert BundleOk(u, s.bundles[u]);
      SweptProcsOk(u, s.bundles[u].procs, alive);
      var pid :| pid in s.bundles[u].procs && pid in alive;
      assert pid in t.bundles[u].procs;
    }
  }

  // ----- the extension pass

  ghost predicate Extensions(s: State, order: seq<Ref>) {
    forall i :: 0 <= i < |order| ==> RefRegistered(s, order[i]) && RefProc(s, order[i]).extension
  }

  lemma LeastConnectorRange(s: State, edges: map<int, int>)
    ensures 0 <= LeastConnector(s, edges) <= PRIORITY_BACKGROUND
  {
  }

  lemma PassOneKeeps(s: State, r: Ref)
    requires Inv(s) && RefRegistered(s, r) && RefProc(s, r).extension
    ensures Keeps(s, PassOne(s, r))
  {
    ProcAboveBundle(s, r.uid, r.pid);
    var p := RefProc(s, r);
    LeastConnectorRange(s, p.bindToMe);
    AssignKeeps(s, r.uid, r.pid, p.(priority := ExtensionPriority(p, LeastConnector(s, p.bindToMe))));
  }

  /** The two states differ in priorities only: same bundles, same processes,
      same flags and edges. */
  ghost predicate SameButPriorities(s: State, s': State) {
    && s'.timers == s.timers && s'.nextId == s.nextId && s'.bundles.Keys == s.bundles.Keys
    && forall u :: u in s.bundles ==>
         && s'.bundles[u].procs.Keys == s.bundles[u].procs.Keys
         && s'.bundles[u].id == s.bundles[u].id && s'.bundles[u].waiting == s.bundles[u].waiting
         && s'.bundles[u].createTime == s.bundles[u].createTime && s'.bundles[u].uid == s.bundles[u].uid
         && forall pid :: pid in s.bundles[u].procs ==>
              s'.bundles[u].procs[pid] == s.bundles[u].procs[pid].(priority := s'.bundles[u].procs[pid].priority)
  }

  lemma PassOneFrame(s: State, r: Ref)
    requires RefRegistered(s, r)
    ensures SameButPriorities(s, PassOne(s, r))
    ensures forall uid, pid :: Registered(s, uid, pid) && Ref(pid, uid) != r ==>
              PassOne(s, r).bundles[uid].procs[pid] == s.bundles[uid].procs[pid]
    ensures forall uid :: uid in s.bundles && uid != r.uid ==> PassOne(s, r).bundles[uid] == s.bundles[uid]
  {
    hide Resort, LeastConnector, ExtensionPriority;
    var p := RefProc(s, r);
    AssignReplaces(s, r.uid, r.pid, p.(priority := ExtensionPriority(p, LeastConnector(s, p.bindToMe))));
  }

  lemma {:induction false} PassKeeps(s: State, order: seq<Ref>)
    requires Inv(s) && Extensions(s, order)
    ensures Keeps(s, Pass(s, order))
    decreases |order|
  {
    if order != [] {
      assert RefRegistered(s, order[0]);
      PassOneKeeps(s, order[0]);
      PassOneFrame(s, order[0]);
      var t := PassOne(s, order[0]);
      forall i | 0 <= i < |order| - 1
        ensures RefRegistered(t, order[1..][i]) && RefProc(t, order[1..][i]).extension
      {
        assert order[1..][i] == order[i + 1];
      }
      PassKeeps(t, order[1..]);
    }
  }

  /** The pass visits registered extensions only. */
  lemma PassOrderExtensions(s: State, start: Ref, order: seq<Ref>)
    requires IsPassOrder(s, start, order)
    ensures Extensions(s, order)
  {
    var g := GraphOf(s);
    var rounds: nat :| Traverse(g, start, rounds).queue == [] &&
      (forall r :: r in order <==> r in Traverse(g, start, rounds).found);
    SoundAlways(g, start, rounds);
    forall i | 0 <= i < |order|
      ensures RefRegistered(s, order[i]) && RefProc(s, order[i]).extension
    {
      assert order[i] in order;
      assert order[i] in g.extensions;
    }
  }

  // ----- steps and runs

  lemma HandleKeeps(s: State, e: Event)
    requires Inv(s)
    ensures Inv(Handle(s, e).state)
    ensures AllExact(s) && !e.Sweep? ==> AllExact(Handle(s, e).state)
    ensures e.Sweep? ==> Handle(s, e).Done?
  {
    hide HandleCreate, HandleTerminate, HandleSuspend, HandleUpdate, HandleBind, HandleAbilityStart, HandleStartTimer, UpdateByStatus, HandleMark, HandleSweep;
    match e
    case Create(_, _, _, _, _) => HandleCreateKeeps(s, e);
    case RenderCreate(_, _) =>
    case Terminate(uid, pid) => if Registered(s, uid, pid) { HandleTerminateKeeps(s, uid, pid); }
    case Suspend(uid, pid) => if uid in s.bundles && !SystemBundle(s.bundles[uid]) { HandleSuspendKeeps(s, uid); }
    case Update(reason, uid, pid, time) =>
      if Registered(s, uid, pid) { HandleUpdateKeeps(s, reason, uid, pid, time); }
    case Bind(_, _, _, _, _) => HandleBindKeeps(s, e);
    case AbilityStart(uid, pid, time) => if Registered(s, uid, pid) { HandleAbilityStartKeeps(s, uid, pid, time); }
    case StartTimer(which) => if which < |s.timers| { HandleStartTimerKeeps(s, which); }
    case CreateTimer(uid, pid) => if Registered(s, uid, pid) { UpdateByStatusKeeps(s, uid, pid); }
    case Sweep(alive) => SweepKeeps(s, alive);
    case Reset =>
    case MarkWaiting(uid) => HandleMarkKeeps(s, uid);
  }

  lemma StepKeeps(s: State, e: Event, s': State)
    requires Inv(s) && Step(s, e, s')
    ensures Inv(s')
    ensures AllExact(s) && !e.Sweep? ==> AllExact(s')
  {
    hide Handle, Pass, IsPassOrder;
    HandleKeeps(s, e);
    match Handle(s, e)
    case Done(t) =>
    case Spread(t, start) =>
      var order :| IsPassOrder(t, start, order) && s' == Pass(t, order);
      PassOrderExtensions(t, start, order);
      PassKeeps(t, order);
  }

  lemma EmptyInv()
    ensures Inv(EMPTY) && AllExact(EMPTY)
  {
  }

  /** In every state of every run the index holds exactly the registered
      bundles in (priority, uid) order, and no bundle is above its least
      process. */
  lemma {:induction false} RunInvariant(states: seq<State>, events: seq<Event>, i: nat)
    requires Run(states, events) && i < |states|
    ensures Inv(states[i])
  {
    hide Step;
    if i == 0 {
      EmptyInv();
    } else {
      RunInvariant(states, events, i - 1);
      StepKeeps(states[i - 1], events[i - 1], states[i]);
    }
  }

  /** Without a sweep, every bundle is exactly at its least process. */
  lemma {:induction false} RunExact(states: seq<State>, events: seq<Event>, i: nat)
    requires Run(states, events) && i < |states|
    requires forall k :: 0 <= k < |events| ==> !events[k].Sweep?
    ensures AllExact(states[i])
  {
    hide Step;
    if i > 0 {
      RunExact(states, events, i - 1);
      RunInvariant(states, events, i - 1);
      StepKeeps(states[i - 1], events[i - 1], states[i]);
    }
  }
}
