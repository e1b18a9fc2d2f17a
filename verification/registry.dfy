/** ReclaimPriorityManager as a state machine: the registered bundles, the
    sorted index over them, the pending ability-start timers, and one step per
    handler that runs under totalBundlePrioSetLock_. */
module Registry {
  import opened Collections
  import opened RegistryTypes
  import opened BundleIndex
  import opened BindGraph

  /** A pending "ability start completed" check; tasks are named by pid. */
  datatype Timer = Timer(pid: int, uid: int)

  datatype State = State(bundles: Bundles, index: seq<int>, timers: seq<Timer>, nextId: nat)

  const EMPTY := State(map[], [], [], 0)

  /** The reasons HandleUpdateProcess is called with. ProcessReady stands for
      every reason that changeProcMapping_ does not list. */
  datatype Reason =
    | Foreground | Background
    | SuspendDelayStart | SuspendDelayEnd
    | BackgroundRunningStart | BackgroundRunningEnd
    | EventStart | EventEnd
    | DistDeviceConnected | DistDeviceDisconnected
    | BindExtension | UnbindExtension
    | Visible | Unvisible
    | ProcessReady

  /** One step each. important is the configured priority of an important
      process; killable is the answer of IsKillableSystemApp; alive is the
      kernel's list of pids; time is the stamp the event was posted with. */
  datatype Event =
    | Create(uid: int, pid: int, important: Option<int>, killable: bool, now: int)
    | RenderCreate(uid: int, pid: int)
    | Terminate(uid: int, pid: int)
    | Suspend(uid: int, pid: int)
    | Update(reason: Reason, uid: int, pid: int, time: int)
    | Bind(caller: Ref, target: Ref, bind: bool, killable: bool, time: int)
    | AbilityStart(uid: int, pid: int, time: int)
    | StartTimer(which: nat)
    | CreateTimer(uid: int, pid: int)
    | Sweep(alive: set<int>)
    | Reset
    | MarkWaiting(uid: int)

  /** A handler either is done, or goes on with UpdatePriorityByProcForExtension. */
  datatype Next = Done(state: State) | Spread(state: State, start: Ref)

  // ----- lookups and single updates

  predicate Registered(s: State, uid: int, pid: int) {
    uid in s.bundles && pid in s.bundles[uid].procs
  }

  predicate RefRegistered(s: State, r: Ref) { Registered(s, r.uid, r.pid) }

  function ProcAt(s: State, uid: int, pid: int): Proc
    requires Registered(s, uid, pid)
  {
    s.bundles[uid].procs[pid]
  }

  function RefProc(s: State, r: Ref): Proc
    requires RefRegistered(s, r)
  {
    ProcAt(s, r.uid, r.pid)
  }

  function WithProc(b: Bundle, pid: int, p: Proc): Bundle {
    b.(procs := b.procs[pid := p])
  }

  /** Writes a process into its slot. */
  function Put(s: State, uid: int, pid: int, p: Proc): State
    requires uid in s.bundles
  {
    s.(bundles := s.bundles[uid := WithProc(s.bundles[uid], pid, p)])
  }

  ghost function Refreshed(b: Bundle): Bundle {
    b.(priority := BundlePriority(b.procs))
  }

  /** UpdateBundlePriority: erase from the index, recompute, insert again. */
  ghost function Resort(s: State, uid: int): State
    requires uid in s.bundles
  {
    var erased := Erase(s.bundles, s.index, uid);
    var bundles := s.bundles[uid := Refreshed(s.bundles[uid])];
    s.(bundles := bundles, index := Insert(bundles, erased, uid))
  }

  /** Writes a process and brings its bundle and the index up to date. */
  ghost function Assign(s: State, uid: int, pid: int, p: Proc): State
    requires uid in s.bundles
  {
    Resort(Put(s, uid, pid, p), uid)
  }

  function WithoutTimers(timers: seq<Timer>, pid: int): (r: seq<Timer>)
    ensures forall t :: t in r <==> t in timers && t.pid != pid
  {
    if timers == [] then []
    else
      assert timers == [timers[0]] + timers[1..];
      (if timers[0].pid == pid then [] else [timers[0]]) + WithoutTimers(timers[1..], pid)
  }

  // ----- handlers

  /** UpdatePriorityByProcStatus up to the extension pass. */
  ghost function UpdateByStatus(s: State, uid: int, pid: int): Next
    requires Registered(s, uid, pid)
  {
    var p := ProcAt(s, uid, pid);
    if s.bundles[uid].priority < PRIORITY_FOREGROUND || p.render then Done(s)
    else Spread(Assign(s, uid, pid, p.(priority := AdjustedPriority(p))), Ref(pid, uid))
  }

  /** The flags after the handler of a reason. */
  function NextStatus(st: Status, reason: Reason): Status {
    match reason
    case Foreground => st.(foreground := true, hasUI := true)
    case Background => st.(foreground := false, hasUI := true)
    case SuspendDelayStart => st.(suspendDelay := true)
    case SuspendDelayEnd => st.(suspendDelay := false)
    case BackgroundRunningStart => st.(backgroundRunning := true)
    case BackgroundRunningEnd => st.(backgroundRunning := false)
    case EventStart => st.(eventStart := true)
    case EventEnd => st.(eventStart := false)
    case DistDeviceConnected => st.(distConnected := true)
    case DistDeviceDisconnected => st.(distConnected := false)
    case Visible => st.(visible := true)
    case Unvisible => st.(visible := false)
    case _ => st
  }

  /** HandleBindExtension and HandleUnbindExtension. */
  function NextBindStatus(p: Proc, reason: Reason): int {
    if reason.BindExtension? && |p.bindToMe| > 0 then BIND_FOREGROUND
    else if reason.UnbindExtension? && |p.bindToMe| == 0 then BIND_NONE
    else p.bindStatus
  }

  /** What the handler of a reason records in the process. */
  function Recorded(p: Proc, reason: Reason): Proc {
    p.(status := NextStatus(p.status, reason), bindStatus := NextBindStatus(p, reason))
  }

  /** CheckAbilityStartNeedFinishInAdvance, asked by foreground and background only. */
  predicate FinishesStart(p: Proc, reason: Reason, time: int) {
    (reason.Foreground? || reason.Background?) && p.starting && !BeforeStart(p, time)
  }

  /** NeedSkipEventBeforeAbilityStart. */
  predicate Skipped(p: Proc, time: int) { p.starting && BeforeStart(p, time) }

  function AfterReason(p: Proc, reason: Reason, time: int): Proc {
    var q := Recorded(p, reason);
    if FinishesStart(p, reason, time) then q.(starting := false) else q
  }

  /** The state once the handler of a reason has recorded it. */
  function AfterRecord(s: State, reason: Reason, uid: int, pid: int, time: int): State
    requires Registered(s, uid, pid)
  {
    var p := ProcAt(s, uid, pid);
    var timers := if FinishesStart(p, reason, time) then WithoutTimers(s.timers, pid) else s.timers;
    Put(s, uid, pid, AfterReason(p, reason, time)).(timers := timers)
  }

  /** HandleUpdateProcess. */
  ghost function HandleUpdate(s: State, reason: Reason, uid: int, pid: int, time: int): Next
    requires Registered(s, uid, pid)
  {
    var t := AfterRecord(s, reason, uid, pid, time);
    if Skipped(ProcAt(t, uid, pid), time) then Done(t) else UpdateByStatus(t, uid, pid)
  }

  /** A bundle object newly made for a creation, before it has a process. */
  function NewBundle(s: State, e: Event): Bundle
    requires e.Create?
  {
    Bundle(e.uid, s.nextId, PRIORITY_BACKGROUND, false, e.now, map[])
  }

  /** A bundle entered in the index and in the account map. */
  function Entered(s: State, uid: int, b: Bundle): State {
    var bundles := s.bundles[uid := b];
    s.(bundles := bundles, index := Insert(bundles, s.index, uid), nextId := s.nextId + 1)
  }

  function WithBundle(s: State, e: Event): (t: State)
    requires e.Create?
    ensures e.uid in t.bundles
  {
    if e.uid in s.bundles then s else Entered(s, e.uid, NewBundle(s, e))
  }

  /** The record of a newly created process. */
  function CreatedProc(e: Event): Proc
    requires e.Create?
  {
    var priority := if e.important.Some? then e.important.value else PRIORITY_FOREGROUND;
    var p := NewProc(e.uid, e.pid, priority, e.important.Some?);
    if e.killable && p.priority > PRIORITY_KILLABLE_SYSTEM then p.(priority := PRIORITY_KILLABLE_SYSTEM) else p
  }

  /** HandleCreateProcess for an application process; a pid that is already
      there is left alone. */
  ghost function HandleCreate(s: State, e: Event): State
    requires e.Create?
  {
    var t := WithBundle(s, e);
    if e.pid in t.bundles[e.uid].procs then Resort(t, e.uid)
    else Assign(t, e.uid, e.pid, CreatedProc(e))
  }

  function WithoutProc(b: Bundle, pid: int): Bundle { b.(procs := b.procs - {pid}) }

  /** HandleTerminateProcess. */
  ghost function HandleTerminate(s: State, uid: int, pid: int): State
    requires Registered(s, uid, pid)
  {
    var b := WithoutProc(s.bundles[uid], pid);
    var bundles := s.bundles[uid := b];
    if b.procs == map[] then
      s.(bundles := s.bundles - {uid}, index := Erase(bundles, s.index, uid))
    else if ProcAt(s, uid, pid).priority <= b.priority then
      Resort(s.(bundles := bundles), uid)
    else s.(bundles := bundles)
  }

  function SuspendedProcs(procs: map<int, Proc>): map<int, Proc> {
    map pid | pid in procs :: procs[pid].(priority := PRIORITY_SUSPEND)
  }

  /** HandleApplicationSuspend. */
  ghost function HandleSuspend(s: State, uid: int): State
    requires uid in s.bundles
  {
    var b := s.bundles[uid];
    Resort(s.(bundles := s.bundles[uid := b.(procs := SuspendedProcs(b.procs))]), uid)
  }

  /** UpdateExtensionStatusForCaller. */
  function BindCaller(s: State, e: Event): State
    requires e.Bind?
  {
    if RefRegistered(s, e.caller) then
      var p := RefProc(s, e.caller);
      Put(s, e.caller.uid, e.caller.pid,
          p.(bindFromMe := if e.bind then p.bindFromMe[e.target.pid := e.target.uid]
                           else p.bindFromMe - {e.target.pid}))
    else s
  }

  function BoundTarget(p: Proc, e: Event): Proc
    requires e.Bind?
  {
    p.(status := p.status.(foreground := false), extension := true,
       bindToMe := if e.bind then p.bindToMe[e.caller.pid := e.caller.uid] else p.bindToMe - {e.caller.pid})
  }

  /** HandleExtensionProcess. */
  ghost function HandleBind(s: State, e: Event): Next
    requires e.Bind?
  {
    var t := BindCaller(s, e);
    if !RefRegistered(t, e.target) then Done(t)
    else
      var p := RefProc(t, e.target);
      if p.priority <= PRIORITY_KILLABLE_SYSTEM
         || t.bundles[e.target.uid].priority <= PRIORITY_KILLABLE_SYSTEM || e.killable then Done(t)
      else
        HandleUpdate(Put(t, e.target.uid, e.target.pid, BoundTarget(p, e)), if e.bind then BindExtension else UnbindExtension,
                     e.target.uid, e.target.pid, e.time)
  }

  /** HandleAbilityStart. */
  ghost function HandleAbilityStart(s: State, uid: int, pid: int, time: int): State
    requires Registered(s, uid, pid)
  {
    var p := ProcAt(s, uid, pid);
    if MayStartAbility(p) then
      var t := Assign(s, uid, pid, p.(priority := PRIORITY_FOREGROUND, startTime := time, starting := true));
      t.(timers := WithoutTimers(t.timers, pid) + [Timer(pid, uid)])
    else s
  }

  /** CheckAbilityStartCompleted, run when a pending timer fires. */
  ghost function HandleStartTimer(s: State, which: nat): Next
    requires which < |s.timers|
  {
    var timer := s.timers[which];
    var t := s.(timers := s.timers[..which] + s.timers[which + 1..]);
    if !Registered(t, timer.uid, timer.pid) || !ProcAt(t, timer.uid, timer.pid).starting then Done(t)
    else
      var p := ProcAt(t, timer.uid, timer.pid);
      UpdateByStatus(Put(t, timer.uid, timer.pid, p.(starting := false)), timer.uid, timer.pid)
  }

  function LiveEdges(edges: map<int, int>, alive: set<int>): map<int, int> {
    map pid | pid in edges && pid in alive :: edges[pid]
  }

  function SweptProcs(procs: map<int, Proc>, alive: set<int>): map<int, Proc> {
    map pid | pid in procs && pid in alive ::
      procs[pid].(bindToMe := LiveEdges(procs[pid].bindToMe, alive),
                  bindFromMe := LiveEdges(procs[pid].bindFromMe, alive))
  }

  predicate Survives(b: Bundle, alive: set<int>) {
    exists pid :: pid in b.procs && pid in alive
  }

  function SweptIndex(bs: Bundles, index: seq<int>, alive: set<int>): (r: seq<int>)
    ensures forall u :: u in r <==> u in index && (u in bs ==> Survives(bs[u], alive))
  {
    if index == [] then []
    else
      assert index == [index[0]] + index[1..];
      var u := index[0];
      (if u in bs && !Survives(bs[u], alive) then [] else [u]) + SweptIndex(bs, index[1..], alive)
  }

  /** FilterDiedProcess: bundle priorities are not recomputed. */
  function HandleSweep(s: State, alive: set<int>): State {
    s.(bundles := map u | u in s.bundles && (u in s.index ==> Survives(s.bundles[u], alive)) ::
                    if u in s.index then s.bundles[u].(procs := SweptProcs(s.bundles[u].procs, alive))
                    else s.bundles[u],
       index := SweptIndex(s.bundles, s.index, alive))
  }

  function HandleMark(s: State, uid: int): State {
    if uid in s.bundles then s.(bundles := s.bundles[uid := s.bundles[uid].(waiting := true)]) else s
  }

  predicate SystemBundle(b: Bundle) { b.priority <= PRIORITY_KILLABLE_SYSTEM }

  ghost function Handle(s: State, e: Event): Next {
    match e
    case Create(_, _, _, _, _) => Done(HandleCreate(s, e))
    case RenderCreate(_, _) => Done(s)
    case Terminate(uid, pid) =>
      if !Registered(s, uid, pid) || SystemBundle(s.bundles[uid]) then Done(s)
      else Done(HandleTerminate(s, uid, pid))
    case Suspend(uid, pid) =>
      if uid !in s.bundles || (pid != IGNORE_PID && pid !in s.bundles[uid].procs) || SystemBundle(s.bundles[uid])
      then Done(s)
      else Done(HandleSuspend(s, uid))
    case Update(reason, uid, pid, time) =>
      if !Registered(s, uid, pid) || SystemBundle(s.bundles[uid]) then Done(s)
      else HandleUpdate(s, reason, uid, pid, time)
    case Bind(_, _, _, _, _) => HandleBind(s, e)
    case AbilityStart(uid, pid, time) =>
      if !Registered(s, uid, pid) then Done(s) else Done(HandleAbilityStart(s, uid, pid, time))
    case StartTimer(which) => if which < |s.timers| then HandleStartTimer(s, which) else Done(s)
    case CreateTimer(uid, pid) => if !Registered(s, uid, pid) then Done(s) else UpdateByStatus(s, uid, pid)
    case Sweep(alive) => Done(HandleSweep(s, alive))
    case Reset => Done(s.(bundles := map[], index := []))
    case MarkWaiting(uid) => Done(HandleMark(s, uid))
  }

  // ----- the extension pass

  function LiveTargets(s: State, edges: map<int, int>, pids: seq<int>): (r: seq<Ref>)
    requires forall i :: 0 <= i < |pids| ==> pids[i] in edges
    ensures forall i :: 0 <= i < |r| ==> RefRegistered(s, r[i])
  {
    if pids == [] then []
    else
      var r := Ref(pids[0], edges[pids[0]]);
      (if RefRegistered(s, r) then [r] else []) + LiveTargets(s, edges, pids[1..])
  }

  function Targets(s: State, p: Proc): seq<Ref> {
    LiveTargets(s, p.bindFromMe, Ascending(p.bindFromMe.Keys))
  }

  function LiveRefs(s: State): set<Ref> {
    set uid, pid | uid in s.bundles && pid in s.bundles[uid].procs :: Ref(pid, uid)
  }

  /** The bind graph GetConnectedExtensionProc walks. */
  function GraphOf(s: State): Graph {
    var nodes := LiveRefs(s);
    Graph(nodes,
          set r | r in nodes && RefProc(s, r).extension,
          map r | r in nodes :: Targets(s, RefProc(s, r)))
  }

  /** CalculateExtensionProcPrio for one process: connectors in pid order, where
      an unregistered connector resets the minimum to 0. */
  function ConnectorKey(s: State, edges: map<int, int>, pids: seq<int>, least: int): int
    requires forall i :: 0 <= i < |pids| ==> pids[i] in edges
  {
    if pids == [] then least
    else
      var r := Ref(pids[0], edges[pids[0]]);
      ConnectorKey(s, edges, pids[1..],
                   if RefRegistered(s, r) then AtMost(RefProc(s, r).priority, least) else 0)
  }

  function PassKey(s: State, r: Ref): int
    requires RefRegistered(s, r)
  {
    var edges := RefProc(s, r).bindToMe;
    ConnectorKey(s, edges, Ascending(edges.Keys), PRIORITY_BACKGROUND)
  }

  /** ProcInfoCmpByPriority on the computed keys. */
  predicate PassLess(s: State, a: Ref, b: Ref)
    requires RefRegistered(s, a) && RefRegistered(s, b)
  {
    if a.pid == b.pid then false
    else if PassKey(s, a) != PassKey(s, b) then PassKey(s, a) < PassKey(s, b)
    else a.pid < b.pid
  }

  /** What one connector contributes to the minimum in SetConnectExtensionProcPrio. */
  function Contribution(s: State, r: Ref): int {
    if RefRegistered(s, r) then AtLeast(RefProc(s, r).priority, 0) else 0
  }

  ghost function LeastConnector(s: State, edges: map<int, int>): int {
    Least(PRIORITY_BACKGROUND, set pid | pid in edges :: Contribution(s, Ref(pid, edges[pid])))
  }

  /** The priority SetConnectExtensionProcPrio gives p when its least connector is m. */
  function ExtensionPriority(p: Proc, m: int): int {
    var q := AtMost(StatusPriority(p), m + EXTENSION_DELTA);
    if p.important then AtMost(q, p.importantPriority) else q
  }

  ghost function PassOne(s: State, r: Ref): State
    requires RefRegistered(s, r)
  {
    var p := RefProc(s, r);
    Assign(s, r.uid, r.pid, p.(priority := ExtensionPriority(p, LeastConnector(s, p.bindToMe))))
  }

  ghost function Pass(s: State, order: seq<Ref>): State
    decreases |order|
  {
    if order == [] then s
    else Pass(if RefRegistered(s, order[0]) then PassOne(s, order[0]) else s, order[1..])
  }

  /** order is the set of collected extensions as ProcInfoSet iterates over it. */
  ghost predicate IsPassOrder(s: State, start: Ref, order: seq<Ref>) {
    exists rounds: nat ::
      && Traverse(GraphOf(s), start, rounds).queue == []
      && var found := Traverse(GraphOf(s), start, rounds).found;
         && (forall r :: r in order <==> r in found)
         && (forall i :: 0 <= i < |order| ==> RefRegistered(s, order[i]))
         && (forall i, j :: 0 <= i < j < |order| ==> PassLess(s, order[i], order[j]))
  }

  /** The walk the handler goes on to, if any, comes to an end. */
  ghost predicate WalkEnds(n: Next) {
    n.Spread? ==> Terminates(GraphOf(n.state), n.start)
  }

  /** There is no successor when the walk over the bind graph does not end. */
  ghost predicate Completes(n: Next, s': State) {
    match n
    case Done(t) => s' == t
    case Spread(t, start) => exists order :: IsPassOrder(t, start, order) && s' == Pass(t, order)
  }

  /** One handler run to completion. */
  ghost predicate Step(s: State, e: Event, s': State) {
    Completes(Handle(s, e), s')
  }

  ghost predicate Run(states: seq<State>, events: seq<Event>) {
    && |states| == |events| + 1
    && states[0] == EMPTY
    && forall i {:trigger events[i]} :: 0 <= i < |events| ==> Step(states[i], events[i], states[i + 1])
  }
}
