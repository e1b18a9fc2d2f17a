/** MultiAccountManager: what an account hot switch does to the bundles of the
    accounts it updates, and to the index that nobody re-sorts afterwards. */
module HotSwitch {
  import opened Collections
  import opened RegistryTypes
  import opened BundleIndex
  import opened Registry
  import opened RegistryInvariant
  import opened WalkCompletion
  import opened BundleObjects
  import opened Manager

  const HIGH_PRIORITY := -50
  const LOW_PRIORITY := 50

  /** accountMap_: the priority of every known account. */
  type AccountPriorities = map<int, int>

  /** RecalcBundlePriority under the default strategy. */
  function Recalc(prios: AccountPriorities, a: int, p: int): int {
    if a !in prios then PRIORITY_MAX
    else Clamp(prios[a] + p)
  }

  /** One bundle of an updated account. */
  function Moved(prios: AccountPriorities, a: int, b: Bundle): Bundle {
    var p := Recalc(prios, a, b.priority);
    b.(priority := p, procs := Shifted(b.procs, b.procs.Keys, p - b.priority))
  }

  function Switch(prios: AccountPriorities, bs: Bundles, a: int): Bundles {
    map u | u in bs :: if AccountOf(u) == a then Moved(prios, a, bs[u]) else bs[u]
  }

  /** HandleAccountHotSwitch, over any list of accounts, repetitions included. */
  function SwitchAll(prios: AccountPriorities, bs: Bundles, ids: seq<int>): (r: Bundles)
    ensures r.Keys == bs.Keys
  {
    if ids == [] then bs else Switch(prios, SwitchAll(prios, bs, ids[..|ids| - 1]), ids[|ids| - 1])
  }

  // ----- processes move with their bundle

  /** b' is b moved as a whole: every process by the change of the bundle. */
  predicate MovedAsOne(b: Bundle, b': Bundle) {
    && b'.(priority := b.priority, procs := b.procs) == b
    && b'.procs.Keys == b.procs.Keys
    && forall pid :: pid in b.procs ==>
         b'.procs[pid] == b.procs[pid].(priority := b.procs[pid].priority + (b'.priority - b.priority))
  }

  lemma MovedAsOneTransitive(a: Bundle, b: Bundle, c: Bundle)
    requires MovedAsOne(a, b) && MovedAsOne(b, c)
    ensures MovedAsOne(a, c)
  {
    forall pid | pid in a.procs
      ensures c.procs[pid] == a.procs[pid].(priority := a.procs[pid].priority + (c.priority - a.priority))
    {
      assert pid in b.procs;
    }
  }

  /** A hot switch moves every process of a bundle by exactly the bundle's own
      change, and changes nothing else in it. */
  lemma {:induction false} ProcessesFollow(prios: AccountPriorities, bs: Bundles, ids: seq<int>, u: int)
    requires u in bs
    ensures MovedAsOne(bs[u], SwitchAll(prios, bs, ids)[u])
    decreases |ids|
  {
    hide Recalc, MovedAsOne;
    if ids == [] {
      StaysAsOne(bs[u]);
    } else {
      var init, a := ids[..|ids| - 1], ids[|ids| - 1];
      var mid := SwitchAll(prios, bs, init);
      ProcessesFollow(prios, bs, init, u);
      if AccountOf(u) == a {
        MovesAsOne(prios, a, mid[u]);
        MovedAsOneTransitive(bs[u], mid[u], Moved(prios, a, mid[u]));
      }
    }
  }

  lemma StaysAsOne(b: Bundle)
    ensures MovedAsOne(b, b)
  {
  }

  lemma MovesAsOne(prios: AccountPriorities, a: int, b: Bundle)
    ensures MovedAsOne(b, Moved(prios, a, b))
  {
    hide Recalc;
    assert forall pid :: pid in b.procs ==> pid in b.procs.Keys;
  }

  /** Hence the distance between two processes of a bundle never changes. */
  lemma GapsKept(prios: AccountPriorities, bs: Bundles, ids: seq<int>, u: int, p: int, q: int)
    requires u in bs && p in bs[u].procs && q in bs[u].procs
    ensures var ps := SwitchAll(prios, bs, ids)[u].procs;
      && p in ps && q in ps
      && ps[p].priority - ps[q].priority == bs[u].procs[p].priority - bs[u].procs[q].priority
  {
    hide SwitchAll;
    ProcessesFollow(prios, bs, ids, u);
    assert p in SwitchAll(prios, bs, ids)[u].procs.Keys && q in SwitchAll(prios, bs, ids)[u].procs.Keys;
  }

  /** The bundle is at the priority of its least process that is no renderer. */
  predicate AtLeastProcess(b: Bundle) {
    && (exists pid :: pid in b.procs && !b.procs[pid].render && b.procs[pid].priority == b.priority)
    && (forall pid :: pid in b.procs && !b.procs[pid].render ==> b.priority <= b.procs[pid].priority)
  }

  lemma LeastFollows(b: Bundle, b': Bundle)
    requires MovedAsOne(b, b')
    ensures AtLeastProcess(b) <==> AtLeastProcess(b')
  {
    forall pid | pid in b.procs
      ensures pid in b'.procs && b'.procs[pid].render == b.procs[pid].render
      ensures b'.procs[pid].priority - b'.priority == b.procs[pid].priority - b.priority
    {
      assert pid in b'.procs.Keys;
    }
    assert forall pid :: pid in b'.procs ==> pid in b'.procs.Keys;
    assert forall pid :: pid in b'.procs ==> pid in b.procs;
  }

  /** "The bundle equals its least process" survives a hot switch, and cannot
      come from one. */
  lemma LeastKept(prios: AccountPriorities, bs: Bundles, ids: seq<int>, u: int)
    requires u in bs
    ensures AtLeastProcess(bs[u]) <==> AtLeastProcess(SwitchAll(prios, bs, ids)[u])
  {
    hide SwitchAll, MovedAsOne, AtLeastProcess;
    ProcessesFollow(prios, bs, ids, u);
    LeastFollows(bs[u], SwitchAll(prios, bs, ids)[u]);
  }

  /** The registry's stronger rule, that a bundle has the clamped minimum of
      its processes, survives exactly when the bundle equals its least process
      or does not move. */
  lemma ExactKeptIff(b: Bundle, b': Bundle)
    requires MovedAsOne(b, b') && PRIORITY_FOREGROUND <= b'.priority <= PRIORITY_MAX
    requires b.priority == BundlePriority(b.procs)
    ensures b'.priority == BundlePriority(b'.procs) <==> AtLeastProcess(b) || b'.priority == b.priority
  {
    hide MovedAsOne, AtLeastProcess, BundlePriority;
    LeastFollows(b, b');
    if b'.priority == b.priority {
      SameProcesses(b, b');
    } else if AtLeastProcess(b) {
      LeastIsExact(b');
    } else {
      MovedOffTheClamp(b, b');
    }
  }

  lemma SameProcesses(b: Bundle, b': Bundle)
    requires MovedAsOne(b, b') && b'.priority == b.priority
    ensures b' == b
  {
    forall pid | pid in b.procs
      ensures b'.procs[pid] == b.procs[pid]
    {
    }
    assert forall pid :: pid in b'.procs <==> pid in b'.procs.Keys;
    MapEqual(b'.procs, b.procs);
  }

  lemma LeastIsExact(b: Bundle)
    requires AtLeastProcess(b) && PRIORITY_MIN <= b.priority <= PRIORITY_MAX
    ensures b.priority == BundlePriority(b.procs)
  {
    MinPriorityIs(b.procs, b.priority);
  }

  /** An exact bundle that no process equals is at an end of the range. */
  lemma ExactWithoutLeast(b: Bundle)
    requires b.priority == BundlePriority(b.procs) && !AtLeastProcess(b)
    ensures b.priority == PRIORITY_MAX || b.priority == PRIORITY_MIN
  {
    var m := MinPriority(b.procs);
    if m == b.priority && m != PRIORITY_UNKNOWN {
      var pid :| pid in b.procs && !b.procs[pid].render && b.procs[pid].priority == m;
      assert AtLeastProcess(b);
    }
  }

  lemma MovedOffTheClamp(b: Bundle, b': Bundle)
    requires MovedAsOne(b, b') && PRIORITY_FOREGROUND <= b'.priority <= PRIORITY_MAX
    requires b.priority == BundlePriority(b.procs) && !AtLeastProcess(b) && b'.priority != b.priority
    ensures b'.priority != BundlePriority(b'.procs)
  {
    hide MovedAsOne, BundlePriority, AtLeastProcess;
    ExactWithoutLeast(b);
    LeastFollows(b, b');
    if b'.priority == BundlePriority(b'.procs) {
      ExactWithoutLeast(b');
      BelowTheClamp(b, b');
    }
  }

  /** From the bottom of the range no bundle reaches the top exactly. */
  lemma BelowTheClamp(b: Bundle, b': Bundle)
    requires MovedAsOne(b, b') && b.priority == BundlePriority(b.procs) == PRIORITY_MIN
    requires b'.priority == PRIORITY_MAX
    ensures b'.priority != BundlePriority(b'.procs) || AtLeastProcess(b')
  {
    hide AtLeastProcess;
    var m := MinPriority(b.procs);
    var pid :| pid in b.procs && !b.procs[pid].render && b.procs[pid].priority == m;
    assert pid in b'.procs.Keys;
    assert b'.procs[pid].priority == m + 2000;
    if m == PRIORITY_MIN {
      LeastAt(b, m, pid);
      LeastFollows(b, b');
    } else {
      assert MinPriority(b'.procs) <= m + 2000 < PRIORITY_MAX;
    }
  }

  lemma LeastAt(b: Bundle, m: int, pid: int)
    requires m == MinPriority(b.procs) == b.priority
    requires pid in b.procs && !b.procs[pid].render && b.procs[pid].priority == m
    ensures AtLeastProcess(b)
  {
  }

  // ----- range and order

  /** Every bundle of an updated account ends between foreground and the
      maximum, whatever it was before; the others are left alone. */
  lemma {:induction false} SwitchedInRange(prios: AccountPriorities, bs: Bundles, ids: seq<int>, u: int)
    requires u in bs
    ensures AccountOf(u) in ids ==>
      PRIORITY_FOREGROUND <= SwitchAll(prios, bs, ids)[u].priority <= PRIORITY_MAX
    ensures AccountOf(u) !in ids ==> SwitchAll(prios, bs, ids)[u] == bs[u]
    decreases |ids|
  {
    if ids != [] {
      var init := ids[..|ids| - 1];
      assert ids == init + [ids[|ids| - 1]];
      SwitchedInRange(prios, bs, init, u);
    }
  }

  /** Within one account a hot switch keeps the weak order of priorities. */
  lemma {:induction false} OrderWithinAccount(prios: AccountPriorities, bs: Bundles, ids: seq<int>, u: int, v: int)
    requires u in bs && v in bs && AccountOf(u) == AccountOf(v) && bs[u].priority <= bs[v].priority
    ensures SwitchAll(prios, bs, ids)[u].priority <= SwitchAll(prios, bs, ids)[v].priority
    decreases |ids|
  {
    hide Shifted;
    if ids != [] {
      OrderWithinAccount(prios, bs, ids[..|ids| - 1], u, v);
    }
  }

  // ----- where a bundle lands

  /** How often an account is listed. */
  function Times(ids: seq<int>, a: int): nat {
    if ids == [] then 0 else Times(ids[..|ids| - 1], a) + if ids[|ids| - 1] == a then 1 else 0
  }

  function Clamp(p: int): int { AtLeast(AtMost(p, PRIORITY_MAX), PRIORITY_FOREGROUND) }

  /** Where a bundle at p of account a lands when a is listed n times. */
  function Landing(prios: AccountPriorities, a: int, p: int, n: nat): int {
    if n == 0 then p
    else if a !in prios then PRIORITY_MAX
    else Clamp(Clamp(p + prios[a]) + (n - 1) * prios[a])
  }

  lemma ClampTwice(x: int, k: int, d: int)
    requires PRIORITY_FOREGROUND <= x <= PRIORITY_MAX && (d >= 0 ==> k >= 0) && (d <= 0 ==> k <= 0)
    ensures Clamp(Clamp(x + k) + d) == Clamp(x + (k + d))
  {
  }

  lemma OneMoreTime(n: nat, d: int)
    ensures (n + 1) * d == n * d + d && (d >= 0 ==> n * d >= 0) && (d <= 0 ==> n * d <= 0)
  {
  }

  lemma LandingNext(prios: AccountPriorities, a: int, p: int, n: nat)
    ensures Landing(prios, a, p, n + 1) == Recalc(prios, a, Landing(prios, a, p, n))
  {
    if n > 0 && a in prios {
      hide Clamp;
      var d := prios[a];
      OneMoreTime(n - 1, d);
      assert n * d == (n - 1) * d + d;
      assert PRIORITY_FOREGROUND <= Clamp(p + d) <= PRIORITY_MAX by { ClampRange(p + d); }
      ClampTwice(Clamp(p + d), (n - 1) * d, d);
    } else if a in prios {
      assert Landing(prios, a, p, 1) == Clamp(Clamp(p + prios[a]));
    }
  }

  lemma ClampRange(p: int)
    ensures PRIORITY_FOREGROUND <= Clamp(p) <= PRIORITY_MAX
  {
  }

  /** The closed form of any hot switch. */
  lemma {:induction false} LandsAt(prios: AccountPriorities, bs: Bundles, ids: seq<int>, u: int)
    requires u in bs
    ensures SwitchAll(prios, bs, ids)[u].priority ==
            Landing(prios, AccountOf(u), bs[u].priority, Times(ids, AccountOf(u)))
    decreases |ids|
  {
    hide Recalc, Shifted, Landing;
    if ids == [] {
      LandingNone(prios, AccountOf(u), bs[u].priority);
    } else {
      var init := ids[..|ids| - 1];
      LandsAt(prios, bs, init, u);
      LandingNext(prios, AccountOf(u), bs[u].priority, Times(init, AccountOf(u)));
    }
  }

  lemma LandingNone(prios: AccountPriorities, a: int, p: int)
    ensures Landing(prios, a, p, 0) == p
  {
  }

  // ----- the index

  /** u at p lands after v at q. */
  predicate Crosses(prios: AccountPriorities, ids: seq<int>, u: int, p: int, v: int, q: int) {
    var x := Landing(prios, AccountOf(u), p, Times(ids, AccountOf(u)));
    var y := Landing(prios, AccountOf(v), q, Times(ids, AccountOf(v)));
    x > y || (x == y && u > v)
  }

  /** Two bundles of any accounts are in comparator order after a hot switch
      exactly when they do not cross. */
  lemma ChangesSidesIff(prios: AccountPriorities, bs: Bundles, ids: seq<int>, u: int, v: int)
    requires u in bs && v in bs && u != v
    ensures Less(SwitchAll(prios, bs, ids), u, v) <==> !Crosses(prios, ids, u, bs[u].priority, v, bs[v].priority)
  {
    hide SwitchAll, Landing, Times;
    LandsAt(prios, bs, ids, u);
    LandsAt(prios, bs, ids, v);
  }

  /** The index over all accounts survives a hot switch of any accounts exactly
      when no two of its bundles, taken in order, cross: a condition on the
      priorities before the switch and those of the accounts. */
  lemma IndexSurvivesIff(prios: AccountPriorities, bs: Bundles, index: seq<int>, ids: seq<int>)
    requires Sorted(bs, index) && forall u :: u in index ==> u in bs
    ensures Sorted(SwitchAll(prios, bs, ids), index) <==>
            forall i, j :: 0 <= i < j < |index| ==>
              !Crosses(prios, ids, index[i], Key(bs, index[i]), index[j], Key(bs, index[j]))
  {
    hide SwitchAll, Crosses;
    forall i, j | 0 <= i < j < |index|
      ensures Less(SwitchAll(prios, bs, ids), index[i], index[j]) <==>
              !Crosses(prios, ids, index[i], Key(bs, index[i]), index[j], Key(bs, index[j]))
    {
      assert index[i] in index && index[j] in index && Less(bs, index[i], index[j]);
      ChangesSidesIff(prios, bs, ids, index[i], index[j]);
    }
  }

  /** Two bundles of known accounts listed once each. Between the ends of the
      range u crosses v exactly when the accounts move towards each other by
      more than the gap, q - p < prios[a] - prios[b], or by all of it against
      the order of uids; at the lower end only uids can make it cross, at the
      upper end everything that does not reach that end too is crossed. */
  lemma CrossesIff(prios: AccountPriorities, ids: seq<int>, u: int, p: int, v: int, q: int)
    requires AccountOf(u) in prios && AccountOf(v) in prios
    requires Times(ids, AccountOf(u)) == 1 && Times(ids, AccountOf(v)) == 1
    ensures var x, y := p + prios[AccountOf(u)], q + prios[AccountOf(v)];
      Crosses(prios, ids, u, p, v, q) <==>
      if x <= PRIORITY_FOREGROUND then y <= PRIORITY_FOREGROUND && u > v
      else if x >= PRIORITY_MAX then y < PRIORITY_MAX || u > v
      else y < x || (y == x && u > v)
  {
  }

  /** One of the two is listed, the other is not. */
  lemma CrossesOneIff(prios: AccountPriorities, ids: seq<int>, u: int, p: int, v: int, q: int)
    requires AccountOf(u) in prios && AccountOf(v) in prios
    ensures Times(ids, AccountOf(u)) == 1 && Times(ids, AccountOf(v)) == 0 ==>
      var x := Clamp(p + prios[AccountOf(u)]);
      (Crosses(prios, ids, u, p, v, q) <==> q < x || (q == x && u > v))
    ensures Times(ids, AccountOf(u)) == 0 && Times(ids, AccountOf(v)) == 1 ==>
      var y := Clamp(q + prios[AccountOf(v)]);
      (Crosses(prios, ids, u, p, v, q) <==> y < p || (y == p && u > v))
  {
  }

  /** The switch the default strategy makes: an account left for another one.
      Its bundles cross those of the new one that were less than 100 behind. */
  lemma LeftForAnother(prios: AccountPriorities, ids: seq<int>, u: int, p: int, v: int, q: int)
    requires AccountOf(u) in prios && prios[AccountOf(u)] == LOW_PRIORITY
    requires AccountOf(v) in prios && prios[AccountOf(v)] == HIGH_PRIORITY
    requires Times(ids, AccountOf(u)) == 1 && Times(ids, AccountOf(v)) == 1
    requires PRIORITY_FOREGROUND < p + LOW_PRIORITY < PRIORITY_MAX
    ensures Crosses(prios, ids, u, p, v, q) <==> q - p < 100 || (q - p == 100 && u > v)
  {
    hide Crosses;
    CrossesIff(prios, ids, u, p, v, q);
  }

  /** Two priorities of an account that one switch makes equal though they were
      not: the account is unknown, or both meet the same end of the range. */
  predicate Merged(prios: AccountPriorities, a: int, p: int, q: int) {
    p < q && (a !in prios || prios[a] + q <= PRIORITY_FOREGROUND || prios[a] + p >= PRIORITY_MAX)
  }

  /** Within one account only a merger against the order of uids crosses. */
  lemma CrossesWithinIff(prios: AccountPriorities, ids: seq<int>, u: int, p: int, v: int, q: int)
    requires AccountOf(u) == AccountOf(v) && Times(ids, AccountOf(u)) == 1
    requires p < q || (p == q && u < v)
    ensures Crosses(prios, ids, u, p, v, q) <==> u > v && Merged(prios, AccountOf(u), p, q)
  {
  }

  lemma TimesOne(a: int)
    ensures Times([a], a) == 1
  {
    assert [a][..0] == [];
    assert Times([], a) == 0;
  }

  /** An index over one account survives its switch exactly when no such pair
      is in it. */
  lemma OneAccountSurvivesIff(prios: AccountPriorities, bs: Bundles, index: seq<int>, a: int)
    requires Sorted(bs, index) && forall u :: u in index ==> u in bs && AccountOf(u) == a
    ensures Sorted(SwitchAll(prios, bs, [a]), index) <==>
            forall i, j :: 0 <= i < j < |index| && index[i] > index[j] ==>
              !Merged(prios, a, Key(bs, index[i]), Key(bs, index[j]))
  {
    hide SwitchAll, Crosses, Merged, Times;
    TimesOne(a);
    IndexSurvivesIff(prios, bs, index, [a]);
    forall i, j | 0 <= i < j < |index|
      ensures Crosses(prios, [a], index[i], Key(bs, index[i]), index[j], Key(bs, index[j])) <==>
              index[i] > index[j] && Merged(prios, a, Key(bs, index[i]), Key(bs, index[j]))
    {
      assert index[i] in index && index[j] in index && Less(bs, index[i], index[j]);
      CrossesWithinIff(prios, [a], index[i], Key(bs, index[i]), index[j], Key(bs, index[j]));
    }
  }

  // ----- a run on which it does not survive

  const LEFT := 200001
  const ENTERED := 400001
  const LOSING_EVENTS := [Create(LEFT, 1, None, false, 0), Create(ENTERED, 2, None, false, 0)]
  const LOSING_PRIORITIES: AccountPriorities := map[1 := LOW_PRIORITY, 2 := HIGH_PRIORITY]

  /** The registry right after a hot switch. */
  function Switched(s: State, prios: AccountPriorities, ids: seq<int>): State {
    s.(bundles := SwitchAll(prios, s.bundles, ids))
  }

  lemma AloneAtZero(s: State, uid: int, pid: int)
    requires Healthy(s) && Registered(s, uid, pid) && ProcAt(s, uid, pid).priority == 0
    requires forall x :: x in s.bundles[uid].procs ==> x == pid
    ensures s.bundles[uid].priority == 0
  {
    var b := s.bundles[uid];
    assert Exact(b) && BundleOk(uid, b);
    MinPriorityIs(b.procs, 0);
  }

  lemma TwoInIndex(s: State, u: int, v: int)
    requires IndexAgrees(s) && (forall x :: x in s.bundles <==> x == u || x == v) && Less(s.bundles, u, v)
    ensures s.index == [u, v]
  {
    var index := s.index;
    assert u in index && v in index;
    assert forall k :: 0 <= k < |index| ==> index[k] in index;
    var i :| 0 <= i < |index| && index[i] == u;
    var j :| 0 <= j < |index| && index[j] == v;
    assert i < j;
    OnlyPlaces(s, i, j, 0);
    OnlyPlaces(s, i, j, 1);
    OnlyPlaces(s, i, j, |index| - 1);
  }

  lemma OnlyPlaces(s: State, i: nat, j: nat, k: nat)
    requires Sorted(s.bundles, s.index) && i < j < |s.index| && k < |s.index|
    requires s.index[k] == s.index[i] || s.index[k] == s.index[j]
    ensures k == i || k == j
  {
    var index := s.index;
    assert k < i ==> Less(s.bundles, index[k], index[i]);
    assert k > i ==> Less(s.bundles, index[i], index[k]);
    assert k < j ==> Less(s.bundles, index[k], index[j]);
    assert k > j ==> Less(s.bundles, index[j], index[k]);
  }

  /** Two bundles of two accounts, both at 0. */
  lemma TwoAtZero(s: State)
    requires Healthy(s) && forall n: Ref :: RefRegistered(s, n) <==> n == Ref(1, LEFT) || n == Ref(2, ENTERED)
    requires RefProc(s, Ref(1, LEFT)) == CreatedProc(LOSING_EVENTS[0])
    requires RefProc(s, Ref(2, ENTERED)) == CreatedProc(LOSING_EVENTS[1])
    ensures s.index == [LEFT, ENTERED] && LEFT in s.bundles && ENTERED in s.bundles
    ensures s.bundles[LEFT].priority == 0 && s.bundles[ENTERED].priority == 0
    ensures forall x :: x in s.bundles[ENTERED].procs <==> x == 2
  {
    assert RefRegistered(s, Ref(1, LEFT)) && RefRegistered(s, Ref(2, ENTERED));
    forall u, x | Registered(s, u, x)
      ensures Ref(x, u) == Ref(1, LEFT) || Ref(x, u) == Ref(2, ENTERED)
    {
      assert RefRegistered(s, Ref(x, u));
    }
    forall u | u in s.bundles
      ensures u == LEFT || u == ENTERED
    {
      NotEmpty(s, u);
    }
    assert forall x :: x in s.bundles[LEFT].procs ==> Registered(s, LEFT, x);
    assert forall x :: x in s.bundles[ENTERED].procs ==> Registered(s, ENTERED, x);
    AloneAtZero(s, LEFT, 1);
    AloneAtZero(s, ENTERED, 2);
    TwoInIndex(s, LEFT, ENTERED);
  }

  lemma NotEmpty(s: State, u: int)
    requires Inv(s) && u in s.bundles
    ensures exists x :: Registered(s, u, x)
  {
    assert BundleOk(u, s.bundles[u]);
    assert s.bundles[u].procs.Keys != {};
    var x := AnyOf(s.bundles[u].procs.Keys);
    assert Registered(s, u, x);
  }

  lemma LosingLands(s: State)
    requires LEFT in s.bundles && ENTERED in s.bundles
    requires s.bundles[LEFT].priority == 0 && s.bundles[ENTERED].priority == 0
    ensures var t := Switched(s, LOSING_PRIORITIES, [1, 2]);
      t.bundles[LEFT].priority == 50 && t.bundles[ENTERED].priority == 0
  {
    hide SwitchAll;
    assert [1, 2][..1] == [1] && [1][..0] == [];
    assert Times([], 1) == 0 && Times([], 2) == 0;
    assert Times([1], 1) == 1 && Times([1], 2) == 0;
    assert Times([1, 2], 1) == 1 && Times([1, 2], 2) == 1;
    LandsAt(LOSING_PRIORITIES, s.bundles, [1, 2], LEFT);
    LandsAt(LOSING_PRIORITIES, s.bundles, [1, 2], ENTERED);
  }

  /** A sequence whose second element is ordered before the first: erasing that
      element by the comparator does nothing. */
  lemma TwoOutOfOrder(bs: Bundles, u: int, v: int)
    requires u != v && Key(bs, u) > Key(bs, v)
    ensures !Sorted(bs, [u, v]) && Erase(bs, [u, v], v) == [u, v]
  {
    var index := [u, v];
    assert !Less(bs, index[0], index[1]);
    assert LowerBound(bs, index, v) == 0;
  }

  /** Terminating the one process of a bundle the comparator cannot find. */
  lemma TerminateMisses(t: State, u: int, v: int, pid: int)
    requires t.index == [u, v] && u != v && v in t.bundles && Key(t.bundles, u) > Key(t.bundles, v)
    requires t.bundles[v].priority == 0 && forall x :: x in t.bundles[v].procs <==> x == pid
    ensures Handle(t, Terminate(v, pid)).Done?
    ensures var after := Handle(t, Terminate(v, pid)).state; v in after.index && v !in after.bundles
  {
    hide Erase, Resort;
    assert Registered(t, v, pid);
    var b := WithoutProc(t.bundles[v], pid);
    forall x
      ensures x !in b.procs
    {
      assert x in t.bundles[v].procs <==> x == pid;
    }
    MapEqual(b.procs, map[]);
    TwoOutOfOrder(t.bundles[v := b], u, v);
    assert [u, v][1] == v;
  }

  /** Two applications of two accounts are created; then the user changes from
      the first account to the second. The index is out of order, and when the
      application of the second account terminates, its bundle stays in the
      index for good although it is registered no more. */
  lemma SwitchLosesBundle() returns (states: seq<State>)
    ensures Run(states, LOSING_EVENTS)
    ensures var t := Switched(states[2], LOSING_PRIORITIES, [1, 2]);
      && IndexAgrees(states[2]) && !Sorted(t.bundles, t.index)
      && Handle(t, Terminate(ENTERED, 2)).Done?
      && var after := Handle(t, Terminate(ENTERED, 2)).state; ENTERED in after.index && ENTERED !in after.bundles
  {
    hide Handle, Step, IndexAgrees, SwitchAll, Sorted;
    var s1, s2 := TwoCreations(LOSING_EVENTS[0], LOSING_EVENTS[1]);
    TwoAtZero(s2);
    LosingLands(s2);
    var t := Switched(s2, LOSING_PRIORITIES, [1, 2]);
    TwoOutOfOrder(t.bundles, LEFT, ENTERED);
    ProcessesFollow(LOSING_PRIORITIES, s2.bundles, [1, 2], ENTERED);
    assert forall x :: x in t.bundles[ENTERED].procs <==> x in t.bundles[ENTERED].procs.Keys;
    TerminateMisses(t, LEFT, ENTERED, 2);
    states := [EMPTY, s1, s2];
    forall i | 0 <= i < 2
      ensures Step(states[i], LOSING_EVENTS[i], states[i + 1])
    {
      assert i == 0 || i == 1;
    }
  }

  // ----- the object

  ghost function Values(m: map<int, BundleInfo>): Bundles
    reads m.Values
  {
    map u | u in m :: m[u].Value()
  }

  class MultiAccountManager {
    var accountMap: AccountPriorities

    constructor ()
      ensures accountMap == map[]
    {
      accountMap := map[];
    }

    /** SetAccountPriority with the default strategy. */
    method SetAccountPriority(a: int, active: bool)
      modifies this
      ensures accountMap == old(accountMap)[a := if active then HIGH_PRIORITY else LOW_PRIORITY]
    {
      accountMap := accountMap[a := if active then HIGH_PRIORITY else LOW_PRIORITY];
    }

    method RecalcBundlePriority(a: int, p: int) returns (r: int)
      ensures r == Recalc(accountMap, a, p)
    {
      if a !in accountMap {
        return PRIORITY_MAX;
      }
      r := accountMap[a] + p;
      if r > PRIORITY_MAX {
        r := PRIORITY_MAX;
      }
      if r < PRIORITY_FOREGROUND {
        r := PRIORITY_FOREGROUND;
      }
    }

    method MoveBundle(a: int, b: BundleInfo)
      modifies b
      ensures b.Value() == Moved(accountMap, a, old(b.Value()))
    {
      hide Recalc, Shifted;
      var p := RecalcBundlePriority(a, b.priority);
      var delta := p - b.priority;
      b.priority := p;
      b.IncreaseProcsPriority(delta);
    }

    /** The inner loop: the bundles of one account. */
    method SwitchAccount(a: int, bundles: map<int, BundleInfo>)
      requires Filed(bundles)
      modifies bundles.Values
      ensures forall u :: u in bundles ==> bundles[u].Value() == Moved(accountMap, a, old(bundles[u].Value()))
    {
      hide Moved, Ascending, Increasing;
      var uids := Ascending(bundles.Keys);
      for i := 0 to |uids|
        invariant forall u :: u in bundles && u in uids[..i] ==>
                    bundles[u].Value() == Moved(accountMap, a, old(bundles[u].Value()))
        invariant forall u :: u in bundles && u !in uids[..i] ==> bundles[u].Value() == old(bundles[u].Value())
      {
        NextAscending(uids, i);
        var b := bundles[uids[i]];
        assert forall u :: u in bundles && u != uids[i] ==> bundles[u] != b;
        MoveBundle(a, b);
      }
      assert uids[..|uids|] == uids;
    }

    /** HandleAccountHotSwitch. */
    method HandleAccountHotSwitch(ids: seq<int>, accounts: Accounts, ghost m: map<int, BundleInfo>)
      requires m == FlatOf(accounts) && Filed(m)
      requires forall a, u :: a in accounts && u in accounts[a] ==> AccountOf(u) == a
      modifies m.Values
      ensures Values(m) == SwitchAll(accountMap, old(Values(m)), ids)
    {
      hide Switch, SwitchAll, FlatOf;
      ghost var start := Values(m);
      SwitchNone(accountMap, start);
      for i := 0 to |ids|
        invariant Values(m) == SwitchAll(accountMap, start, ids[..i])
      {
        SwitchNext(accountMap, start, ids, i);
        SwitchListed(ids[i], accounts, m);
      }
      assert ids[..|ids|] == ids;
    }

    /** The body of the outer loop. */
    method SwitchListed(a: int, accounts: Accounts, ghost m: map<int, BundleInfo>)
      requires m == FlatOf(accounts) && Filed(m)
      requires forall a, u :: a in accounts && u in accounts[a] ==> AccountOf(u) == a
      modifies m.Values
      ensures Values(m) == Switch(accountMap, old(Values(m)), a)
    {
      hide Moved;
      ghost var before := Values(m);
      forall u
        ensures u in m <==> AccountOf(u) in accounts && u in accounts[AccountOf(u)]
        ensures u in m ==> m[u] == accounts[AccountOf(u)][u] && m[u].uid == u
      {
        FlatMember(accounts, u);
      }
      if a in accounts {
        assert forall u :: u in accounts[a] ==> u in m && m[u] == accounts[a][u];
        SwitchAccount(a, accounts[a]);
        forall u | u in m
          ensures m[u].Value() == if AccountOf(u) == a then Moved(accountMap, a, before[u]) else before[u]
        {
          assert AccountOf(u) == a ==> u in accounts[a] && accounts[a][u] == m[u];
          assert AccountOf(u) != a ==> m[u] !in accounts[a].Values;
        }
      }
      MapEqual(Values(m), Switch(accountMap, before, a));
    }
  }

  lemma SwitchNone(prios: AccountPriorities, bs: Bundles)
    ensures SwitchAll(prios, bs, []) == bs
  {
  }

  lemma SwitchNext(prios: AccountPriorities, bs: Bundles, ids: seq<int>, i: nat)
    requires i < |ids|
    ensures SwitchAll(prios, bs, ids[..i + 1]) == Switch(prios, SwitchAll(prios, bs, ids[..i]), ids[i])
  {
    assert ids[..i + 1][..i] == ids[..i];
  }
}
