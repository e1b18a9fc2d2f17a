/** Priorities in numbers: what each event does to the process it names, to the
    bundle of that process, and to nobody else. */
module ProcessPriority {
  import opened Collections
  import opened RegistryTypes
  import opened BundleIndex
  import opened BindGraph
  import opened Registry
  import opened RegistryInvariant
  import opened ExtensionPass
  import opened AbilityStartWindow
  import opened SystemProtection
  import opened KillOnce
  import opened StartTimers
  import opened ProcessLife

  // ----- flags and connectors

  /** The priority a flag stands for. */
  function Number(f: Flag): int {
    match f
    case IsForeground => 0
    case IsVisible => 50
    case IsSuspendDelay => 100
    case IsBackgroundRunning => 200
    case IsEventStart => 200
    case IsDistConnected => 260
    case HasUI => 400
  }

  /** v is the least of cap and the numbers of the raised flags. */
  ghost predicate LeastFlag(st: Status, cap: int, v: int) {
    && v <= cap
    && (forall f :: FlagOf(f, st) ==> v <= Number(f))
    && (v == cap || exists f :: FlagOf(f, st) && v == Number(f))
  }

  lemma LeastFlagIs(st: Status, cap: int, v: int, f: Flag)
    requires FlagOf(f, st) && v == Number(f) && v <= cap && forall g :: FlagOf(g, st) ==> v <= Number(g)
    ensures LeastFlag(st, cap, v)
  {
  }

  lemma NoneRaised(st: Status, cap: int)
    requires forall g :: FlagOf(g, st) ==> cap <= Number(g)
    ensures LeastFlag(st, cap, cap)
  {
  }

  /** The first flag that is raised, in the order of the numbers. */
  lemma FirstFlag(st: Status, cap: int, v: int)
    requires v == if st.foreground then 0 else if st.visible then 50 else if st.suspendDelay then 100
                  else if st.backgroundRunning || st.eventStart then 200 else if st.distConnected then 260
                  else if st.hasUI then 400 else cap
    requires cap == 400 || cap == 1000
    ensures LeastFlag(st, cap, v)
  {
    hide LeastFlag;
    if st.foreground { LeastFlagIs(st, cap, 0, IsForeground); }
    else if st.visible { LeastFlagIs(st, cap, 50, IsVisible); }
    else if st.suspendDelay { LeastFlagIs(st, cap, 100, IsSuspendDelay); }
    else if st.backgroundRunning { LeastFlagIs(st, cap, 200, IsBackgroundRunning); }
    else if st.eventStart { LeastFlagIs(st, cap, 200, IsEventStart); }
    else if st.distConnected { LeastFlagIs(st, cap, 260, IsDistConnected); }
    else if st.hasUI { LeastFlagIs(st, cap, 400, HasUI); }
    else { NoneRaised(st, cap); }
  }

  /** The status priority is the least of the raised flags, 1000 without any;
      an important process at or above its configured priority has that one. */
  lemma StatusPriorityIs(p: Proc)
    ensures if p.important && p.priority >= p.importantPriority then StatusPriority(p) == p.importantPriority
            else LeastFlag(p.status, 1000, StatusPriority(p))
  {
    hide LeastFlag;
    if !(p.important && p.priority >= p.importantPriority) { FirstFlag(p.status, 1000, StatusPriority(p)); }
  }

  /** What a status update gives a process that is no extension: the least of
      400, its raised flags, and its configured priority if it has one. */
  lemma FlagPriorityIs(st: Status, important: bool, v: int) returns (base: int)
    ensures LeastFlag(st, 400, base)
    ensures FlagPriority(st, important, v) == if important && v < base then v else base
  {
    hide LeastFlag;
    base := FlagPriority(st, false, v);
    FirstFlag(st, 400, base);
  }

  /** The least connector: 400 at most; a registered connector counts with its
      priority, a negative one and an unregistered one with 0. */
  lemma LeastConnectorIff(s: State, edges: map<int, int>, m: int)
    ensures LeastConnector(s, edges) == m <==>
      && m <= 400
      && (forall c :: c in edges ==> m <= Counts(s, c, edges[c]))
      && (m == 400 || exists c :: c in edges && m == Counts(s, c, edges[c]))
  {
    var values := set pid | pid in edges :: Contribution(s, Ref(pid, edges[pid]));
    assert forall c :: c in edges ==> Contribution(s, Ref(c, edges[c])) == Counts(s, c, edges[c]);
    assert forall c :: c in edges ==> Counts(s, c, edges[c]) in values;
    assert forall v :: v in values ==> exists c :: c in edges && v == Counts(s, c, edges[c]);
    if m <= 400 && (forall c :: c in edges ==> m <= Counts(s, c, edges[c]))
       && (m == 400 || exists c :: c in edges && m == Counts(s, c, edges[c])) {
      LeastIs(PRIORITY_BACKGROUND, values, m);
    }
  }

  function Counts(s: State, pid: int, uid: int): int {
    if Registered(s, uid, pid) && ProcAt(s, uid, pid).priority > 0 then ProcAt(s, uid, pid).priority else 0
  }

  /** What the pass gives an extension whose least connector is m: m + 100, or
      less on account of its flags or its configured priority. */
  lemma ExtensionPriorityInNumbers(p: Proc, m: int) returns (own: int)
    requires 0 <= m <= 400
    ensures if p.important && p.priority >= p.importantPriority then own == p.importantPriority
            else LeastFlag(p.status, 1000, own)
    ensures ExtensionPriority(p, m) <= m + 100 && ExtensionPriority(p, m) <= own
    ensures p.important ==> ExtensionPriority(p, m) <= p.importantPriority
    ensures ExtensionPriority(p, m) == m + 100 || ExtensionPriority(p, m) == own ||
            (p.important && ExtensionPriority(p, m) == p.importantPriority)
  {
    hide LeastFlag;
    own := StatusPriority(p);
    StatusPriorityIs(p);
  }

  // ----- the key the extensions are sorted by

  /** A connector that is not registered any more. */
  predicate Gone(s: State, edges: map<int, int>, c: int) { c in edges && !Registered(s, edges[c], c) }

  ghost function PrioritiesOf(s: State, edges: map<int, int>, pids: set<int>): set<int> {
    set c | c in pids && c in edges && Registered(s, edges[c], c) :: ProcAt(s, edges[c], c).priority
  }

  lemma {:induction false} KeyOfPresent(s: State, edges: map<int, int>, pids: seq<int>, least: int, all: set<int>)
    requires forall i :: 0 <= i < |pids| ==> pids[i] in edges && !Gone(s, edges, pids[i])
    requires forall c :: c in all <==> c in pids
    ensures ConnectorKey(s, edges, pids, least) == Least(least, PrioritiesOf(s, edges, all))
    decreases |pids|
  {
    hide Least;
    var values := PrioritiesOf(s, edges, all);
    if pids == [] {
      assert forall c :: c !in values;
    } else {
      var head, tail := pids[0], set c | c in pids[1..];
      assert pids == [head] + pids[1..];
      var p := ProcAt(s, edges[head], head).priority;
      KeyOfPresent(s, edges, pids[1..], AtMost(p, least), tail);
      var rest := PrioritiesOf(s, edges, tail);
      forall x
        ensures x in values <==> x == p || x in rest
      {
        if x in values {
          var c :| c in all && c in edges && Registered(s, edges[c], c) && ProcAt(s, edges[c], c).priority == x;
          assert c == head || c in tail;
        }
      }
      LeastIs(least, values, Least(AtMost(p, least), rest));
    }
    if pids == [] { LeastIs(least, values, least); }
  }

  /** A connector that is gone resets the key to 0, whatever came before it. */
  lemma {:induction false} KeyAfterGone(s: State, edges: map<int, int>, pids: seq<int>, least: int, k: nat)
    requires forall i :: 0 <= i < |pids| ==> pids[i] in edges
    requires k < |pids| && Gone(s, edges, pids[k])
    ensures ConnectorKey(s, edges, pids, least) == ConnectorKey(s, edges, pids[k + 1..], 0)
    decreases |pids|
  {
    var r := Ref(pids[0], edges[pids[0]]);
    if k > 0 {
      assert pids[1..][k - 1] == pids[k] && pids[1..][(k - 1) + 1..] == pids[k + 1..];
      KeyAfterGone(s, edges, pids[1..], if RefRegistered(s, r) then AtMost(RefProc(s, r).priority, least) else 0, k - 1);
    }
  }

  /** The key of an extension: 400 or its least connector; but if connectors
      are gone, 0 or the least of those with a greater pid than the last that
      is gone. */
  lemma PassKeyIs(s: State, r: Ref, last: int)
    requires RefRegistered(s, r)
    ensures var edges := RefProc(s, r).bindToMe;
      && ((forall c :: c in edges ==> !Gone(s, edges, c)) ==>
            PassKey(s, r) == Least(400, PrioritiesOf(s, edges, edges.Keys)))
      && (Gone(s, edges, last) && (forall c :: c in edges && c > last ==> !Gone(s, edges, c)) ==>
            PassKey(s, r) == Least(0, PrioritiesOf(s, edges, set c | c in edges && c > last)))
  {
    hide Least, PrioritiesOf, ConnectorKey, Ascending;
    var edges := RefProc(s, r).bindToMe;
    var pids := Ascending(edges.Keys);
    assert forall i :: 0 <= i < |pids| ==> pids[i] in pids;
    if forall c :: c in edges ==> !Gone(s, edges, c) {
      KeyOfPresent(s, edges, pids, PRIORITY_BACKGROUND, edges.Keys);
    }
    if Gone(s, edges, last) && forall c :: c in edges && c > last ==> !Gone(s, edges, c) {
      var tail := KeyTail(s, edges, pids, last);
      KeyOfPresent(s, edges, tail, 0, set c | c in edges && c > last);
    }
  }

  /** The connectors after the last that is gone. */
  lemma KeyTail(s: State, edges: map<int, int>, pids: seq<int>, last: int) returns (tail: seq<int>)
    requires Increasing(pids) && (forall c :: c in pids <==> c in edges) && Gone(s, edges, last)
    requires forall i :: 0 <= i < |pids| ==> pids[i] in edges
    ensures forall c :: c in tail <==> c in edges && c > last
    ensures forall i :: 0 <= i < |tail| ==> tail[i] in edges && tail[i] > last
    ensures ConnectorKey(s, edges, pids, PRIORITY_BACKGROUND) == ConnectorKey(s, edges, tail, 0)
  {
    hide ConnectorKey;
    assert last in pids;
    var k :| 0 <= k < |pids| && pids[k] == last;
    KeyAfterGone(s, edges, pids, PRIORITY_BACKGROUND, k);
    tail := pids[k + 1..];
    forall c | c in edges && c > last
      ensures c in tail
    {
      assert c in pids;
      var i :| 0 <= i < |pids| && pids[i] == c;
      assert i > k && tail[i - (k + 1)] == c;
    }
  }

  // ----- creation

  /** The bundle of a creation: the one that was there, or a new one that is
      not waiting and as old as the event. */
  predicate BornBundle(s: State, e: Event, b: Bundle)
    requires e.Create?
  {
    if e.uid in s.bundles then
      var a := s.bundles[e.uid]; b.id == a.id && b.waiting == a.waiting && b.createTime == a.createTime
    else b.id == s.nextId && !b.waiting && b.createTime == e.now
  }

  /** A new process starts without flags, edges or a start, at its configured
      priority or at 0, but at -800 or below if it is a killable system
      application. Every other process is what it was. */
  lemma CreationStep(s: State, e: Event, s': State)
    requires Step(s, e, s') && e.Create? && !Registered(s, e.uid, e.pid)
    ensures Registered(s', e.uid, e.pid)
    ensures var p := ProcAt(s', e.uid, e.pid);
      var base := if e.important.Some? then e.important.value else 0;
      && p.priority == (if e.killable && base > -800 then -800 else base)
      && p.uid == e.uid && p.pid == e.pid && !p.render && !p.extension && !p.starting
      && p.bindToMe == map[] && p.bindFromMe == map[]
      && (forall f :: !FlagOf(f, p.status))
      && (p.important <==> e.important.Some?)
      && (p.important ==> p.importantPriority == e.important.value)
    ensures BornBundle(s, e, s'.bundles[e.uid])
    ensures forall x: Ref :: x != Ref(e.pid, e.uid) ==>
      (RefRegistered(s', x) <==> RefRegistered(s, x)) && (RefRegistered(s, x) ==> RefProc(s', x) == RefProc(s, x))
  {
    hide HandleCreate;
    CreateRecord(s, e);
    CreateBundle(s, e);
    assert RefRegistered(s', Ref(e.pid, e.uid));
  }

  lemma CreateBundle(s: State, e: Event)
    requires e.Create?
    ensures e.uid in HandleCreate(s, e).bundles && BornBundle(s, e, HandleCreate(s, e).bundles[e.uid])
  {
    hide Insert, Erase, BundlePriority, CreatedProc;
  }

  lemma KillableIsGuarded(s: State, e: Event, s': State)
    requires Step(s, e, s') && e.Create? && e.killable && !Registered(s, e.uid, e.pid)
    ensures Guarded(s', e.uid, e.pid)
  {
    hide Step;
    CreationStep(s, e, s');
  }

  /** From its creation on, a killable system application keeps its bundle at
      -800 or below, and no pressure event with a greater threshold kills it,
      until a reset comes or a sweep finds the process dead. */
  lemma KillableNeverKilled(ys: seq<System>, actions: seq<Action>, i: nat, j: nat)
    requires SystemRun(ys, actions) && i < j < |actions| && actions[i].Handler?
    requires var e := actions[i].e; e.Create? && e.killable && !Registered(ys[i].registry, e.uid, e.pid)
    requires forall k :: i < k < j && actions[k].Handler? ==> !Ends(actions[k].e, actions[i].e.pid)
    requires actions[j].Pick? && actions[j].minPrio > -800
    ensures var e := actions[i].e;
      && Guarded(ys[j].registry, e.uid, e.pid)
      && (ys[j + 1].killed == ys[j].killed ||
          exists x :: x != ys[j].registry.bundles[e.uid].id && ys[j + 1].killed == ys[j].killed + [x])
  {
    hide Step, Picked, Guarded, Ends;
    var e := actions[i].e;
    assert SystemStep(ys[i], actions[i], ys[i + 1]);
    KillableIsGuarded(ys[i].registry, e, ys[i + 1].registry);
    SystemBundleNeverKilled(ys, actions, i + 1, j, e.uid, e.pid);
  }

  /** A bundle is the one that was there, as old as it was, or the event is the
      creation that made it. */
  ghost predicate BornBy(s: State, e: Event, t: State, u: int)
    requires u in t.bundles
  {
    var b := t.bundles[u];
    || (u in s.bundles && b.id == s.bundles[u].id && b.createTime == s.bundles[u].createTime)
    || (u !in s.bundles && e.Create? && e.uid == u && b.createTime == e.now)
  }

  lemma StepBorn(s: State, e: Event, s': State, u: int)
    requires Inv(s) && Step(s, e, s') && u in s'.bundles
    ensures BornBy(s, e, s', u)
  {
    hide Handle, IsPassOrder, Pass, Inv;
    var t := Handle(s, e).state;
    match Handle(s, e) {
      case Done(_) =>
      case Spread(_, start) =>
        var order :| IsPassOrder(t, start, order) && s' == Pass(t, order);
        PassFrame(t, order);
    }
    HandleBorn(s, e, u);
  }

  lemma HandleBorn(s: State, e: Event, u: int)
    requires Inv(s) && u in Handle(s, e).state.bundles
    ensures BornBy(s, e, Handle(s, e).state, u)
  {
    hide Inv, HandleCreate, HandleTerminate, HandleSuspend, HandleUpdate, HandleBind, HandleAbilityStart, HandleStartTimer, UpdateByStatus, HandleSweep;
    if e.Create? {
      CreateBorn(s, e, u);
    } else {
      NoNewIdentity(s, e, u);
    }
  }

  lemma CreateBorn(s: State, e: Event, u: int)
    requires e.Create? && u in HandleCreate(s, e).bundles
    ensures BornBy(s, e, HandleCreate(s, e), u)
  {
    hide HandleCreate;
    CreateBundle(s, e);
    if u != e.uid { CreateElsewhereBundle(s, e, u); }
  }

  lemma CreateElsewhereBundle(s: State, e: Event, u: int)
    requires e.Create? && u != e.uid && u in HandleCreate(s, e).bundles
    ensures u in s.bundles && HandleCreate(s, e).bundles[u] == s.bundles[u]
  {
    hide Insert, Erase, BundlePriority, CreatedProc;
  }

  /** Only a creation uses a new identity. */
  lemma NoNewIdentity(s: State, e: Event, u: int)
    requires Inv(s) && !e.Create? && u in Handle(s, e).state.bundles
    ensures u in s.bundles && Handle(s, e).state.bundles[u].id == s.bundles[u].id
    ensures Handle(s, e).state.bundles[u].createTime == s.bundles[u].createTime
  {
    hide HandleCreate, HandleTerminate, HandleSuspend, HandleUpdate, HandleBind, HandleAbilityStart, HandleStartTimer, UpdateByStatus, IndexAgrees, BundleOk;
    match e
    case RenderCreate(_, _) =>
    case Terminate(uid, pid) => if Registered(s, uid, pid) { SuspendTerminateMarks(s, uid, pid); }
    case Suspend(uid, pid) => if uid in s.bundles { SuspendTerminateMarks(s, uid, pid); }
    case Update(reason, uid, pid, time) => if Registered(s, uid, pid) { UpdateMarks(s, reason, uid, pid, time); }
    case Bind(_, _, _, _, _) => BindMarks(s, e);
    case AbilityStart(uid, pid, time) => if Registered(s, uid, pid) { StartMarks(s, uid, pid, time); }
    case StartTimer(which) => if which < |s.timers| { TimerMarks(s, which); }
    case CreateTimer(uid, pid) => if Registered(s, uid, pid) { StatusMarks(s, uid, pid); }
    case Sweep(_) =>
    case Reset =>
    case MarkWaiting(_) =>
  }

  /** In every state of every run, the age of a bundle is that of the creation
      event that found none under its uid. */
  lemma {:induction false} BundleAge(states: seq<State>, events: seq<Event>, i: nat, u: int) returns (k: nat)
    requires Run(states, events) && i < |states| && u in states[i].bundles
    ensures k < i && events[k].Create? && events[k].uid == u && u !in states[k].bundles
    ensures states[i].bundles[u].createTime == events[k].now
  {
    hide Step;
    assert i > 0;
    RunInvariant(states, events, i - 1);
    StepBorn(states[i - 1], events[i - 1], states[i], u);
    if u in states[i - 1].bundles {
      k := BundleAge(states, events, i - 1, u);
    } else {
      k := i - 1;
    }
  }

  // ----- termination

  /** After an accepted termination exactly that process is gone and every other
      one is what it was; the bundle is gone exactly when it was the only one,
      and otherwise has the least priority of the rest, if the process was at
      or below it. */
  lemma TerminationStep(s: State, e: Event, s': State)
    requires Inv(s) && Step(s, e, s') && e.Terminate? && Registered(s, e.uid, e.pid) && s.bundles[e.uid].priority > -800
    ensures forall x: Ref :: RefRegistered(s', x) <==> RefRegistered(s, x) && x != Ref(e.pid, e.uid)
    ensures forall x: Ref :: RefRegistered(s', x) ==> RefProc(s', x) == RefProc(s, x)
    ensures e.uid in s'.bundles <==> exists pid :: pid != e.pid && Registered(s, e.uid, pid)
    ensures forall u :: u != e.uid ==> (u in s'.bundles <==> u in s.bundles) && (u in s.bundles ==> s'.bundles[u] == s.bundles[u])
    ensures e.uid in s'.bundles ==>
      s'.bundles[e.uid].priority == if ProcAt(s, e.uid, e.pid).priority <= s.bundles[e.uid].priority
                                    then BundlePriority(s'.bundles[e.uid].procs) else s.bundles[e.uid].priority
  {
    hide HandleTerminate, Inv;
    TerminateRecord(s, Ref(e.pid, e.uid));
    TerminateBundles(s, e.uid, e.pid);
  }

  lemma TerminateBundles(s: State, uid: int, pid: int)
    requires Registered(s, uid, pid)
    ensures var t := HandleTerminate(s, uid, pid);
      && (uid in t.bundles <==> exists x :: x != pid && Registered(s, uid, x))
      && (forall u :: u != uid ==> (u in t.bundles <==> u in s.bundles) && (u in s.bundles ==> t.bundles[u] == s.bundles[u]))
      && (uid in t.bundles ==>
            t.bundles[uid].priority == if ProcAt(s, uid, pid).priority <= s.bundles[uid].priority
                                       then BundlePriority(t.bundles[uid].procs) else s.bundles[uid].priority)
  {
    hide Insert, Erase, BundlePriority;
    var rest := s.bundles[uid].procs - {pid};
    if rest == map[] {
      forall x | x != pid
        ensures !Registered(s, uid, x)
      {
        assert x !in rest;
      }
    } else {
      assert rest.Keys != {};
      var x := AnyOf(rest.Keys);
      assert x != pid && Registered(s, uid, x);
    }
  }

  // ----- suspension

  /** A suspended application has every process at 800, and so is its bundle;
      no other process changes. */
  lemma SuspensionStep(s: State, e: Event, s': State)
    requires Inv(s) && Step(s, e, s') && e.Suspend? && e.uid in s.bundles && s.bundles[e.uid].priority > -800
    requires e.pid == -1 || Registered(s, e.uid, e.pid)
    ensures forall x: Ref :: RefRegistered(s', x) <==> RefRegistered(s, x)
    ensures forall x: Ref :: RefRegistered(s, x) ==>
      RefProc(s', x) == if x.uid == e.uid then RefProc(s, x).(priority := 800) else RefProc(s, x)
    ensures e.uid in s'.bundles && s'.bundles[e.uid].priority == 800
  {
    hide Inv, Resort;
    var b := s.bundles[e.uid];
    var t := s.(bundles := s.bundles[e.uid := b.(procs := SuspendedProcs(b.procs))]);
    ResortReplaces(t, e.uid);
    AllAt800(s, e.uid);
  }

  lemma AllAt800(s: State, uid: int)
    requires Inv(s) && uid in s.bundles
    ensures BundlePriority(SuspendedProcs(s.bundles[uid].procs)) == 800
  {
    var b := s.bundles[uid];
    var procs := SuspendedProcs(b.procs);
    assert BundleOk(uid, b) && b.procs.Keys != {};
    var x := AnyOf(b.procs.Keys);
    assert x in procs && !procs[x].render && procs[x].priority == 800;
    MinPriorityIs(procs, 800);
  }

  // ----- ability start

  /** A start that is accepted puts the process at 0 and stamps it; one that is
      refused changes nothing. */
  lemma AbilityStartStep(s: State, e: Event, s': State)
    requires Step(s, e, s') && e.AbilityStart? && Registered(s, e.uid, e.pid)
    ensures var p := ProcAt(s, e.uid, e.pid);
      if p.priority > 0 || (p.priority == 0 && p.starting) then
        OneSlot(s, s', e.uid, e.pid, p.(priority := 0, startTime := e.time, starting := true))
      else s' == s
  {
    hide Assign;
    var p := ProcAt(s, e.uid, e.pid);
    AssignSlot(s, e.uid, e.pid, p.(priority := 0, startTime := e.time, starting := true));
  }

  // ----- status events, bindings and the check after creation

  /** A status event stamped before the start the process is making. */
  predicate Predates(p: Proc, time: int) { p.starting && time != -1 && time < p.startTime }

  /** The record a status event leaves, before the priority is looked at. */
  lemma RecordIsInv(s: State, reason: Reason, uid: int, pid: int, time: int)
    requires Inv(s) && Registered(s, uid, pid)
    ensures var t := AfterRecord(s, reason, uid, pid, time);
      && Inv(t) && Registered(t, uid, pid) && t.bundles[uid].priority == s.bundles[uid].priority
      && (Predates(ProcAt(t, uid, pid), time) <==> Predates(ProcAt(s, uid, pid), time))
      && ProcAt(t, uid, pid).priority == ProcAt(s, uid, pid).priority
      && ProcAt(t, uid, pid).extension == ProcAt(s, uid, pid).extension
  {
    hide Inv, AfterReason, WithoutTimers;
    var p := ProcAt(s, uid, pid);
    ProcAboveBundle(s, uid, pid);
    RecordedSame(p, reason, time);
    ReasonKeeps(p, reason, time);
    PutKeeps(s, uid, pid, AfterReason(p, reason, time));
    TimersKeep(Put(s, uid, pid, AfterReason(p, reason, time)), AfterRecord(s, reason, uid, pid, time).timers);
  }

  /** A status event of a process that is no extension: unless it predates the
      start in progress or the bundle is below 0, the process gets the priority
      its flags call for; in those two cases its priority stays. */
  lemma StatusStep(s: State, e: Event, s': State)
    requires Inv(s) && Step(s, e, s') && e.Update? && Reported(s, e, Ref(e.pid, e.uid)) && !ProcAt(s, e.uid, e.pid).extension
    ensures Registered(s', e.uid, e.pid)
    ensures var p, q := ProcAt(s, e.uid, e.pid), ProcAt(s', e.uid, e.pid);
      q.priority == if Predates(p, e.time) || s.bundles[e.uid].priority < 0 then p.priority
                    else FlagPriority(q.status, q.important, q.importantPriority)
  {
    hide Inv, Step, AfterRecord, UpdateByStatus, FlagPriority;
    var t := AfterRecord(s, e.reason, e.uid, e.pid, e.time);
    RecordIsInv(s, e.reason, e.uid, e.pid, e.time);
    if Predates(ProcAt(s, e.uid, e.pid), e.time) {
      EarlyStays(s, e, s', t);
    } else if s.bundles[e.uid].priority < 0 {
      NegativeRefuses(s, e, t, s', e.uid, e.pid);
    } else {
      StatusUpdateSettles(s, e, t, s', e.uid, e.pid);
    }
  }

  lemma EarlyStays(s: State, e: Event, s': State, t: State)
    requires Step(s, e, s') && e.Update? && Reported(s, e, Ref(e.pid, e.uid))
    requires t == AfterRecord(s, e.reason, e.uid, e.pid, e.time) && Predates(ProcAt(t, e.uid, e.pid), e.time)
    ensures s' == t
  {
    hide AfterRecord, UpdateByStatus;
  }

  /** The check some time after creation is such an update without an event. */
  lemma CheckStep(s: State, e: Event, s': State)
    requires Inv(s) && Step(s, e, s') && e.CreateTimer? && Registered(s, e.uid, e.pid)
    requires !ProcAt(s, e.uid, e.pid).extension
    ensures Registered(s', e.uid, e.pid)
    ensures var p, q := ProcAt(s, e.uid, e.pid), ProcAt(s', e.uid, e.pid);
      q.priority == if s.bundles[e.uid].priority < 0 then p.priority
                    else FlagPriority(p.status, p.important, p.importantPriority)
  {
    hide Inv, Step, UpdateByStatus, FlagPriority;
    if s.bundles[e.uid].priority < 0 {
      NegativeRefuses(s, e, s, s', e.uid, e.pid);
    } else {
      StatusUpdateSettles(s, e, s, s', e.uid, e.pid);
    }
  }

  /** An event that makes the process of r look at its priority again. */
  predicate Refreshes(s: State, e: Event, r: Ref) {
    && (Reported(s, e, r) || Taken(s, e, r))
    && !Predates(RefProc(s, r), e.time) && s.bundles[r.uid].priority >= 0
  }

  lemma TakenStays(s: State, e: Event)
    requires Inv(s) && e.Bind? && Taken(s, e, e.target)
    ensures var t, r := BindCaller(s, e), e.target;
      && RefRegistered(t, r) && !RefProc(t, r).render
      && t.bundles[r.uid].priority == s.bundles[r.uid].priority
      && RefProc(t, r).priority == RefProc(s, r).priority
      && RefProc(t, r).starting == RefProc(s, r).starting && RefProc(t, r).startTime == RefProc(s, r).startTime
  {
    ProcAboveBundle(s, e.target.uid, e.target.pid);
  }

  lemma UpdateSpreads(s: State, reason: Reason, r: Ref, time: int)
    requires RefRegistered(s, r) && !RefProc(s, r).render
    requires !Predates(RefProc(s, r), time) && s.bundles[r.uid].priority >= 0
    ensures HandleUpdate(s, reason, r.uid, r.pid, time).Spread?
    ensures HandleUpdate(s, reason, r.uid, r.pid, time).start == r
  {
    hide Assign, AfterReason, WithoutTimers;
    ReasonKeeps(RefProc(s, r), reason, time);
  }

  lemma RefreshSpreads(s: State, e: Event, r: Ref)
    requires Inv(s) && Refreshes(s, e, r)
    ensures Handle(s, e).Spread? && Handle(s, e).start == r
  {
    hide Inv, HandleUpdate, BindCaller;
    ProcAboveBundle(s, r.uid, r.pid);
    if e.Update? {
      UpdateSpreads(s, e.reason, r, e.time);
    } else {
      TakenStays(s, e);
      var t := BindCaller(s, e);
      UpdateSpreads(Put(t, r.uid, r.pid, BoundTarget(RefProc(t, r), e)),
                    if e.bind then BindExtension else UnbindExtension, r, e.time);
    }
  }

  /** No connector of r is an extension. */
  predicate PlainConnectors(s: State, r: Ref)
    requires RefRegistered(s, r)
  {
    var edges := RefProc(s, r).bindToMe;
    forall c :: c in edges && Registered(s, edges[c], c) ==> !ProcAt(s, edges[c], c).extension
  }

  /** Plain connectors count the same during the pass and after it. */
  lemma PlainCountSame(t: State, order: seq<Ref>, i: nat, r: Ref)
    requires i <= |order| && Extensions(t, order) && RefRegistered(t, r) && PlainConnectors(t, r)
    ensures LeastConnector(Before(t, order, i), RefProc(t, r).bindToMe) == LeastConnector(Pass(t, order), RefProc(t, r).bindToMe)
  {
    hide Pass, LeastConnector;
    var edges := RefProc(t, r).bindToMe;
    PassFrame(t, order[..i]);
    PassFrame(t, order);
    forall c | c in edges
      ensures Contribution(Before(t, order, i), Ref(c, edges[c])) == Contribution(Pass(t, order), Ref(c, edges[c]))
    {
      assert Ref(c, edges[c]) !in order;
      assert Ref(c, edges[c]) !in order[..i];
    }
    SameContributions(Before(t, order, i), Pass(t, order), edges);
  }

  /** After any status event or binding that refreshes it, an extension without
      configured priority whose connectors are no extensions is at the least of
      its flags and 100 more than its least connector, all read in the state
      the step ends in. */
  lemma ExtensionStep(s: State, e: Event, s': State, r: Ref)
    requires Inv(s) && Step(s, e, s') && Refreshes(s, e, r)
    requires RefRegistered(s', r) && RefProc(s', r).extension && !RefProc(s', r).important && PlainConnectors(s', r)
    ensures LeastFlag(RefProc(s', r).status, LeastConnector(s', RefProc(s', r).bindToMe) + 100, RefProc(s', r).priority)
  {
    hide Inv, Handle, IsPassOrder, Pass, LeastFlag, LeastConnector, ExtensionPriority;
    RefreshSpreads(s, e, r);
    var t := Handle(s, e).state;
    var order :| IsPassOrder(t, r, order) && s' == Pass(t, order);
    PassOrderExtensions(t, r, order);
    PassFrame(t, order);
    PlainBack(t, s', r);
    StartInOrder(t, r, order);
    PassOrderDistinct(t, r, order);
    var i :| 0 <= i < |order| && order[i] == r;
    FinalPriority(t, order, i);
    PlainCountSame(t, order, i, r);
    CappedFlags(RefProc(t, r), LeastConnector(s', RefProc(t, r).bindToMe));
    LeastConnectorRange(s', RefProc(t, r).bindToMe);
  }

  lemma PlainBack(t: State, s': State, r: Ref)
    requires SameButPriorities(t, s') && RefRegistered(s', r) && PlainConnectors(s', r)
    ensures RefRegistered(t, r) && PlainConnectors(t, r)
    ensures RefProc(t, r) == RefProc(s', r).(priority := RefProc(t, r).priority)
  {
    var edges := RefProc(t, r).bindToMe;
    forall c | c in edges && Registered(t, edges[c], c)
      ensures !ProcAt(t, edges[c], c).extension
    {
      assert Registered(s', edges[c], c);
    }
  }

  lemma StartInOrder(t: State, r: Ref, order: seq<Ref>)
    requires IsPassOrder(t, r, order) && RefRegistered(t, r) && RefProc(t, r).extension
    ensures r in order
  {
    var g := GraphOf(t);
    var rounds: nat :| Traverse(g, r, rounds).queue == [] && forall x :: x in order <==> x in Traverse(g, r, rounds).found;
    assert r in LiveRefs(t);
    assert rounds != 0;
    StartFound(g, r, rounds);
  }

  lemma CappedFlags(p: Proc, m: int)
    requires !p.important
    ensures m <= 400 ==> LeastFlag(p.status, m + 100, ExtensionPriority(p, m))
  {
    hide FlagOf;
    StatusPriorityIs(p);
    var own := StatusPriority(p);
    if own < m + 100 {
      if f :| FlagOf(f, p.status) && own == Number(f) { assert ExtensionPriority(p, m) == Number(f); }
    }
  }

  /** Unbinding the only connector of an extension without flags and without
      configured priority leaves it at 500. */
  lemma UnboundAt500(s: State, e: Event, s': State, r: Ref)
    requires Inv(s) && Step(s, e, s') && e.Bind? && !e.bind && Taken(s, e, r) && Refreshes(s, e, r)
    requires forall c :: c in RefProc(s, r).bindToMe ==> c == e.caller.pid
    requires !RefProc(s, r).important && forall f :: FlagOf(f, RefProc(s, r).status) ==> f.IsForeground?
    ensures RefRegistered(s', r) && RefProc(s', r).priority == 500 && RefProc(s', r).bindToMe == map[]
  {
    hide Inv, Step, Handle, LeastConnector, FlagOf;
    StepTells(s, e, s', r, There);
    StepTells(s, e, s', r, Extends);
    var q := RefProc(s', r);
    forall c
      ensures c !in q.bindToMe
    {
      if c in q.bindToMe { StepTells(s, e, s', r, ConnectedBy(Ref(c, q.bindToMe[c]))); }
    }
    MapEqual(q.bindToMe, map[]);
    forall f
      ensures !FlagOf(f, q.status)
    {
      StepTells(s, e, s', r, Raised(f));
    }
    NotConfigured(s, e, s', r);
    ExtensionStep(s, e, s', r);
    NobodyCounts(s');
  }

  lemma NotConfigured(s: State, e: Event, s': State, r: Ref)
    requires Inv(s) && Step(s, e, s') && e.Bind? && RefRegistered(s, r) && !RefProc(s, r).important
    ensures RefRegistered(s', r) ==> !RefProc(s', r).important
  {
    hide Inv, Step;
    if RefRegistered(s', r) { StepTells(s, e, s', r, Important(RefProc(s', r).importantPriority)); }
  }

  lemma NobodyCounts(s: State)
    ensures LeastConnector(s, map[]) == 400
  {
    hide LeastConnector;
    LeastConnectorIff(s, map[], 400);
  }

  // ----- what else an event leaves

  /** A foreground or background event that ends a start early drops the timer
      of that start and of no other process. */
  lemma EarlyEndDropsTimer(s: State, e: Event, s': State, pid: int)
    requires Step(s, e, s') && e.Update? && (e.reason.Foreground? || e.reason.Background?)
    requires Reported(s, e, Ref(e.pid, e.uid)) && ProcAt(s, e.uid, e.pid).starting
    ensures TimersOf(s'.timers, pid) ==
            if pid == e.pid && !Predates(ProcAt(s, e.uid, e.pid), e.time) then [] else TimersOf(s.timers, pid)
  {
    hide IsPassOrder, Pass, UpdateByStatus, Recorded, TimersOf;
    var t := AfterRecord(s, e.reason, e.uid, e.pid, e.time);
    StatusTimers(t, e.uid, e.pid);
    TimersOfWithout(s.timers, e.pid, pid);
    match Handle(s, e)
    case Done(_) =>
    case Spread(u, start) =>
      var order :| IsPassOrder(u, start, order) && s' == Pass(u, order);
      PassFrame(u, order);
  }

  /** The bind status says foreground once a binding was taken, and none once
      an unbinding left no connector. */
  lemma BindStatusStep(s: State, e: Event, s': State, r: Ref)
    requires Step(s, e, s') && e.Bind? && Taken(s, e, r)
    ensures RefRegistered(s', r)
    ensures RefProc(s', r).bindStatus ==
            if e.bind then 1 else if RefProc(s', r).bindToMe == map[] then 3 else RefProc(s, r).bindStatus
  {
    hide HandleUpdate, IsPassOrder, Pass, OnlyRecord, BindCaller;
    CallerRecord(s, e);
    TargetStays(s, e);
    var t := BindCaller(s, e);
    TakenRecord(t, e);
    PassRecord(s, e, s');
    BindStatusRecord(RefProc(t, r), e);
    BindStatusKept(s, e, r);
    var q := AfterReason(BoundTarget(RefProc(t, r), e), if e.bind then BindExtension else UnbindExtension, e.time);
    BindStatusAlike(t, Handle(s, e).state, s', r, q);
  }

  lemma BindStatusAlike(t: State, u: State, s': State, r: Ref, q: Proc)
    requires OnlyRecord(t, u, r, q) && NoRecord(u, s')
    ensures RefRegistered(s', r) && RefProc(s', r).bindStatus == q.bindStatus && RefProc(s', r).bindToMe == q.bindToMe
  {
  }

  lemma BindStatusKept(s: State, e: Event, r: Ref)
    requires e.Bind? && RefRegistered(s, r)
    ensures RefRegistered(BindCaller(s, e), r) && RefProc(BindCaller(s, e), r).bindStatus == RefProc(s, r).bindStatus
  {
  }

  lemma BindStatusRecord(p: Proc, e: Event)
    requires e.Bind?
    ensures var q := AfterReason(BoundTarget(p, e), if e.bind then BindExtension else UnbindExtension, e.time);
      q.bindStatus == if e.bind then 1 else if q.bindToMe == map[] then 3 else p.bindStatus
  {
    hide AfterReason, BoundTarget;
    ReasonBindStatus(BoundTarget(p, e), if e.bind then BindExtension else UnbindExtension, e.time);
    BoundEdges(p, e);
  }

  lemma ReasonBindStatus(p: Proc, reason: Reason, time: int)
    ensures AfterReason(p, reason, time).bindStatus == NextBindStatus(p, reason)
    ensures AfterReason(p, reason, time).bindToMe == p.bindToMe
  {
    hide NextStatus, NextBindStatus;
  }

  lemma BoundEdges(p: Proc, e: Event)
    requires e.Bind?
    ensures var q := BoundTarget(p, e);
      && q.bindStatus == p.bindStatus
      && (|q.bindToMe| == 0 <==> q.bindToMe == map[])
      && (e.bind ==> e.caller.pid in q.bindToMe)
  {
  }
}
