/** The values the reclaim-priority registry is made of, and the priority
    rules that look at one process only. */
module RegistryTypes {
  import opened Collections

  const PRIORITY_MIN := -1000
  const PRIORITY_KILLABLE_SYSTEM := -800
  const PRIORITY_FOREGROUND := 0
  const PRIORITY_VISIBLE := 50
  const PRIORITY_BG_SUSPEND_DELAY := 100
  const PRIORITY_BG_PERCEIVED := 200
  const PRIORITY_BG_DIST_DEVICE := 260
  const PRIORITY_BACKGROUND := 400
  const PRIORITY_SUSPEND := 800
  const PRIORITY_UNKNOWN := 1000
  const PRIORITY_MAX := 1000
  const EXTENSION_DELTA := 100

  const USER_ID_SHIFT := 200000
  const IGNORE_PID := -1
  const INVALID_TIME := -1

  const BIND_UNKNOWN := 0
  const BIND_FOREGROUND := 1
  const BIND_NONE := 3

  datatype Option<+T> = None | Some(value: T)

  /** GetOsAccountIdByUid: division truncating toward zero. */
  function AccountOf(uid: int): int {
    if uid >= 0 then uid / USER_ID_SHIFT else -((-uid) / USER_ID_SHIFT)
  }

  /** The status flags that application events switch on and off. */
  datatype Status = Status(
    foreground: bool,
    visible: bool,
    suspendDelay: bool,
    backgroundRunning: bool,
    eventStart: bool,
    distConnected: bool,
    hasUI: bool)

  /** ProcessPriorityInfo. bindToMe and bindFromMe map a pid to its uid. */
  datatype Proc = Proc(
    uid: int,
    pid: int,
    priority: int,
    important: bool,
    importantPriority: int,
    render: bool,
    status: Status,
    extension: bool,
    bindStatus: int,
    bindToMe: map<int, int>,
    bindFromMe: map<int, int>,
    starting: bool,
    startTime: int)

  /** BundlePriorityInfo. id stands for the identity of the shared object:
      two bundles with the same uid created one after the other differ in it. */
  datatype Bundle = Bundle(
    uid: int,
    id: nat,
    priority: int,
    waiting: bool,
    createTime: int,
    procs: map<int, Proc>)

  /** A process as bind edges and requests name it. */
  datatype Ref = Ref(pid: int, uid: int)

  const NO_STATUS := Status(false, false, false, false, false, false, false)

  function AtMost(p: int, cap: int): int { if p > cap then cap else p }
  function AtLeast(p: int, floor: int): int { if p < floor then floor else p }

  function NewProc(uid: int, pid: int, priority: int, important: bool): Proc {
    Proc(uid, pid, priority, important, priority, false, NO_STATUS, false,
         BIND_UNKNOWN, map[], map[], false, INVALID_TIME)
  }

  /** GetPriorityByProcStatus. */
  function StatusPriority(p: Proc): int {
    var base :=
      if p.status.foreground then PRIORITY_FOREGROUND
      else if p.status.visible then PRIORITY_VISIBLE
      else if p.status.suspendDelay then PRIORITY_BG_SUSPEND_DELAY
      else if p.status.backgroundRunning || p.status.eventStart then PRIORITY_BG_PERCEIVED
      else if p.status.distConnected then PRIORITY_BG_DIST_DEVICE
      else if p.status.hasUI then PRIORITY_BACKGROUND
      else PRIORITY_UNKNOWN;
    if p.important && p.priority >= p.importantPriority then p.importantPriority else base
  }

  /** The priority UpdatePriorityByProcStatus leaves in the process itself. */
  function AdjustedPriority(p: Proc): int {
    var p0 := if p.status.foreground then AtMost(p.priority, PRIORITY_FOREGROUND)
              else if !p.extension then PRIORITY_BACKGROUND
              else p.priority;
    var p1 := if p.status.visible then AtMost(p0, PRIORITY_VISIBLE) else p0;
    var p2 := if p.status.suspendDelay then AtMost(p1, PRIORITY_BG_SUSPEND_DELAY)
              else if p.status.backgroundRunning || p.status.eventStart then AtMost(p1, PRIORITY_BG_PERCEIVED)
              else if p.status.distConnected then AtMost(p1, PRIORITY_BG_DIST_DEVICE)
              else p1;
    if p.important then AtMost(p2, p.importantPriority) else p2
  }

  /** CheckCurrentEventHappenedBeforeAbilityStart. */
  predicate BeforeStart(p: Proc, time: int) {
    time != INVALID_TIME && time < p.startTime
  }

  /** CheckSatifyAbilityStartCondition. */
  predicate MayStartAbility(p: Proc) {
    p.priority > PRIORITY_FOREGROUND || (p.priority == PRIORITY_FOREGROUND && p.starting)
  }

  /** The priorities of the processes that count for their bundle. */
  ghost function Priorities(procs: map<int, Proc>): set<int> {
    set pid | pid in procs && !procs[pid].render :: procs[pid].priority
  }

  /** GetMinProcPriority. */
  ghost function MinPriority(procs: map<int, Proc>): (m: int)
    ensures m <= PRIORITY_UNKNOWN
    ensures forall pid :: pid in procs && !procs[pid].render ==> m <= procs[pid].priority
    ensures m == PRIORITY_UNKNOWN ||
            exists pid :: pid in procs && !procs[pid].render && procs[pid].priority == m
  {
    assert forall pid :: pid in procs && !procs[pid].render ==> procs[pid].priority in Priorities(procs);
    Least(PRIORITY_UNKNOWN, Priorities(procs))
  }

  /** The priority UpdatePriority gives a bundle. */
  ghost function BundlePriority(procs: map<int, Proc>): int {
    AtLeast(AtMost(MinPriority(procs), PRIORITY_MAX), PRIORITY_MIN)
  }

  lemma MinPriorityIs(procs: map<int, Proc>, m: int)
    requires m <= PRIORITY_UNKNOWN
    requires forall pid :: pid in procs && !procs[pid].render ==> m <= procs[pid].priority
    requires m == PRIORITY_UNKNOWN ||
             exists pid :: pid in procs && !procs[pid].render && procs[pid].priority == m
    ensures m == MinPriority(procs)
  {
  }
}
