/** UpdatePriorityByProcForExtension: what the pass over the connected
    extensions leaves behind. */
module ExtensionPass {
  import opened RegistryTypes
  import opened BindGraph
  import opened Registry
  import opened RegistryInvariant

  // ----- ProcInfoSet

  predicate AllRegistered(s: State, refs: seq<Ref>) {
    forall i :: 0 <= i < |refs| ==> RefRegistered(s, refs[i])
  }

  predicate PassSorted(s: State, order: seq<Ref>)
    requires AllRegistered(s, order)
  {
    forall i, j :: 0 <= i < j < |order| ==> PassLess(s, order[i], order[j])
  }

  predicate DistinctPids(refs: seq<Ref>) {
    forall i, j :: 0 <= i < j < |refs| ==> refs[i].pid != refs[j].pid
  }

  /** Two strictly sorted sequences with the same elements are the same. */
  lemma {:induction false} PassOrderUnique(s: State, a: seq<Ref>, b: seq<Ref>)
    requires AllRegistered(s, a) && AllRegistered(s, b) && PassSorted(s, a) && PassSorted(s, b)
    requires forall r :: r in a <==> r in b
    ensures a == b
    decreases |a|
  {
    assert a == [] || a[0] in a;
    assert b == [] || b[0] in b;
    if a != [] {
      HeadFirst(s, a, b[0]);
      HeadFirst(s, b, a[0]);
      TailMembers(s, a);
      TailMembers(s, b);
      PassOrderUnique(s, a[1..], b[1..]);
      assert a == [a[0]] + a[1..] && b == [b[0]] + b[1..];
    }
  }

  lemma HeadFirst(s: State, a: seq<Ref>, r: Ref)
    requires AllRegistered(s, a) && PassSorted(s, a) && r in a
    ensures RefRegistered(s, r) && (r == a[0] || PassLess(s, a[0], r))
  {
    var k :| 0 <= k < |a| && a[k] == r;
  }

  lemma TailMembers(s: State, a: seq<Ref>)
    requires a != [] && AllRegistered(s, a) && PassSorted(s, a)
    ensures AllRegistered(s, a[1..]) && PassSorted(s, a[1..])
    ensures forall r :: r in a[1..] <==> r in a && r != a[0]
  {
    var t := a[1..];
    assert a == [a[0]] + t;
    assert forall i :: 0 <= i < |t| ==> t[i] == a[i + 1];
    forall i | 0 <= i < |t|
      ensures t[i] != a[0]
    {
      assert PassLess(s, a[0], a[i + 1]);
    }
  }

  // ----- frames

  lemma {:induction false} PassAppend(s: State, a: seq<Ref>, b: seq<Ref>)
    ensures Pass(s, a + b) == Pass(Pass(s, a), b)
    decreases |a|
  {
    if a == [] {
      assert a + b == b;
    } else {
      assert (a + b)[1..] == a[1..] + b;
      PassAppend(if RefRegistered(s, a[0]) then PassOne(s, a[0]) else s, a[1..], b);
    }
  }

  /** The pass writes priorities only, and only of the processes it is given. */
  lemma {:induction false} PassFrame(s: State, order: seq<Ref>)
    ensures SameButPriorities(s, Pass(s, order))
    ensures forall r :: RefRegistered(s, r) && r !in order ==> RefProc(Pass(s, order), r) == RefProc(s, r)
    decreases |order|
  {
    if order != [] {
      var t := if RefRegistered(s, order[0]) then PassOne(s, order[0]) else s;
      if RefRegistered(s, order[0]) { PassOneFrame(s, order[0]); }
      assert SameButPriorities(s, t);
      PassFrame(t, order[1..]);
      assert order == [order[0]] + order[1..];
      SameButPrioritiesTransitive(s, t, Pass(t, order[1..]));
    }
  }

  lemma SameButPrioritiesTransitive(a: State, b: State, c: State)
    requires SameButPriorities(a, b) && SameButPriorities(b, c)
    ensures SameButPriorities(a, c)
  {
  }

  /** The state in which the pass computes the priority of order[i]. */
  ghost function Before(s: State, order: seq<Ref>, i: nat): State
    requires i <= |order|
  {
    Pass(s, order[..i])
  }

  /** What order[i] ends with is what was computed when it was its turn. */
  lemma FinalPriority(s: State, order: seq<Ref>, i: nat)
    requires i < |order| && AllRegistered(s, order) && DistinctPids(order)
    ensures SameButPriorities(s, Before(s, order, i)) && SameButPriorities(s, Pass(s, order))
    ensures RefRegistered(Pass(s, order), order[i])
    ensures RefProc(Pass(s, order), order[i]).priority ==
            ExtensionPriority(RefProc(s, order[i]), LeastConnector(Before(s, order, i), RefProc(s, order[i]).bindToMe))
  {
    var r := order[i];
    var a, b := order[..i], order[i..];
    assert order == a + b && b[0] == r && b[1..] == order[i + 1..];
    PassAppend(s, a, b);
    PassFrame(s, a);
    PassFrame(s, order);
    var t := Pass(s, a);
    assert r !in a;
    assert RefProc(t, r) == RefProc(s, r);
    assert Pass(t, b) == Pass(PassOne(t, r), b[1..]);
    assert r !in b[1..];
    PassFrame(PassOne(t, r), b[1..]);
    PassOneValue(t, r);
  }

  lemma PassOneValue(s: State, r: Ref)
    requires RefRegistered(s, r)
    ensures RefRegistered(PassOne(s, r), r)
    ensures RefProc(PassOne(s, r), r).priority ==
            ExtensionPriority(RefProc(s, r), LeastConnector(s, RefProc(s, r).bindToMe))
  {
    var p := RefProc(s, r);
    AssignSlot(s, r.uid, r.pid, p.(priority := ExtensionPriority(p, LeastConnector(s, p.bindToMe))));
  }

  // ----- what the pass guarantees

  lemma PassOrderDistinct(s: State, start: Ref, order: seq<Ref>)
    requires IsPassOrder(s, start, order)
    ensures AllRegistered(s, order) && DistinctPids(order)
  {
  }

  /** On any graph, every connected extension ends at 500 or below. */
  lemma ConnectedAtMost500(s: State, start: Ref, order: seq<Ref>, r: Ref)
    requires IsPassOrder(s, start, order) && r in order
    ensures RefRegistered(Pass(s, order), r) && RefProc(Pass(s, order), r).priority <= 500
  {
    hide Pass, LeastConnector;
    PassOrderDistinct(s, start, order);
    var i :| 0 <= i < |order| && order[i] == r;
    FinalPriority(s, order, i);
    LeastConnectorRange(Before(s, order, i), RefProc(s, r).bindToMe);
  }

  predicate Connects(s: State, c: Ref, r: Ref) {
    RefRegistered(s, r) && c.pid in RefProc(s, r).bindToMe && RefProc(s, r).bindToMe[c.pid] == c.uid
  }

  /** Every connector the pass also updates is updated before what it connects to. */
  predicate ConnectorsFirst(s: State, order: seq<Ref>) {
    forall i, j :: 0 <= i <= j < |order| ==> !Connects(s, order[j], order[i])
  }

  lemma SameContributions(s: State, t: State, edges: map<int, int>)
    requires forall pid :: pid in edges ==>
      Contribution(s, Ref(pid, edges[pid])) == Contribution(t, Ref(pid, edges[pid]))
    ensures LeastConnector(s, edges) == LeastConnector(t, edges)
  {
    assert (set pid | pid in edges :: Contribution(s, Ref(pid, edges[pid])))
        == (set pid | pid in edges :: Contribution(t, Ref(pid, edges[pid])));
  }

  /** Connectors that are not updated from position i on have their final priority. */
  lemma ConnectorsSettled(s: State, order: seq<Ref>, i: nat)
    requires i < |order| && AllRegistered(s, order) && DistinctPids(order) && ConnectorsFirst(s, order)
    ensures LeastConnector(Before(s, order, i), RefProc(s, order[i]).bindToMe)
         == LeastConnector(Pass(s, order), RefProc(s, order[i]).bindToMe)
  {
    hide PassOne, LeastConnector;
    var edges := RefProc(s, order[i]).bindToMe;
    var a, b := order[..i], order[i..];
    assert order == a + b;
    PassAppend(s, a, b);
    PassFrame(s, a);
    PassFrame(Pass(s, a), b);
    forall pid | pid in edges
      ensures Contribution(Before(s, order, i), Ref(pid, edges[pid])) == Contribution(Pass(s, order), Ref(pid, edges[pid]))
    {
      var c := Ref(pid, edges[pid]);
      assert Connects(s, c, order[i]);
      assert c !in b;
    }
    SameContributions(Before(s, order, i), Pass(s, order), edges);
  }

  /** When connectors come first, the pass reaches the documented relation for
      all connected extensions at once: least connector plus 100, or the own
      status if that is lower, both read in the final state. */
  lemma PassIsFixpoint(s: State, start: Ref, order: seq<Ref>, r: Ref)
    requires IsPassOrder(s, start, order) && ConnectorsFirst(s, order) && r in order
    ensures RefRegistered(Pass(s, order), r)
    ensures RefProc(Pass(s, order), r).priority ==
            ExtensionPriority(RefProc(s, r), LeastConnector(Pass(s, order), RefProc(s, r).bindToMe))
  {
    PassOrderDistinct(s, start, order);
    var i :| 0 <= i < |order| && order[i] == r;
    FinalPriority(s, order, i);
    ConnectorsSettled(s, order, i);
  }

  ghost predicate NoConnectorInSet(s: State, order: seq<Ref>) {
    forall c, r :: c in order && r in order ==> !Connects(s, c, r)
  }

  /** When no connected extension connects another one, every one that is not
      configured as important ends at the least of its own status priority and
      100 plus its least connector, whatever the processing order: the right-hand
      side mentions the state before the pass only. */
  lemma PassValue(s: State, start: Ref, order: seq<Ref>, r: Ref)
    requires IsPassOrder(s, start, order) && NoConnectorInSet(s, order) && r in order
    ensures RefRegistered(s, r) && RefRegistered(Pass(s, order), r)
    ensures RefProc(Pass(s, order), r).priority ==
            ExtensionPriority(RefProc(s, r), LeastConnector(s, RefProc(s, r).bindToMe))
    ensures !RefProc(s, r).important ==>
            RefProc(Pass(s, order), r).priority ==
            AtMost(StatusPriority(RefProc(s, r)), 100 + LeastConnector(s, RefProc(s, r).bindToMe))
  {
    PassOrderDistinct(s, start, order);
    assert ConnectorsFirst(s, order);
    PassIsFixpoint(s, start, order, r);
    var edges := RefProc(s, r).bindToMe;
    PassFrame(s, order);
    forall pid | pid in edges
      ensures Contribution(s, Ref(pid, edges[pid])) == Contribution(Pass(s, order), Ref(pid, edges[pid]))
    {
      var c := Ref(pid, edges[pid]);
      assert Connects(s, c, r);
    }
    SameContributions(s, Pass(s, order), edges);
  }

  // ----- whether there is a next state

  /** ProcInfoSet::insert for a process whose pid is not in the set yet. */
  function PassInsert(s: State, order: seq<Ref>, r: Ref): (more: seq<Ref>)
    requires AllRegistered(s, order) && RefRegistered(s, r)
    ensures AllRegistered(s, more)
  {
    if order == [] || PassLess(s, r, order[0]) then [r] + order
    else
      assert AllRegistered(s, order[1..]);
      [order[0]] + PassInsert(s, order[1..], r)
  }

  lemma {:induction false} PassInsertSorted(s: State, order: seq<Ref>, r: Ref)
    requires AllRegistered(s, order) && RefRegistered(s, r) && PassSorted(s, order)
    requires forall i :: 0 <= i < |order| ==> order[i].pid != r.pid
    ensures PassSorted(s, PassInsert(s, order, r))
    ensures forall x :: x in PassInsert(s, order, r) <==> x == r || x in order
    decreases |order|
  {
    if order == [] {
    } else if PassLess(s, r, order[0]) {
      PassPrependSorted(s, order, r);
    } else {
      TailMembers(s, order);
      var rest := PassInsert(s, order[1..], r);
      PassInsertSorted(s, order[1..], r);
      forall i | 0 <= i < |rest|
        ensures PassLess(s, order[0], rest[i])
      {
        assert rest[i] in rest;
        if rest[i] != r { HeadFirst(s, order, rest[i]); }
      }
    }
  }

  lemma PassPrependSorted(s: State, order: seq<Ref>, r: Ref)
    requires AllRegistered(s, order) && RefRegistered(s, r) && PassSorted(s, order)
    requires order != [] && PassLess(s, r, order[0])
    requires forall i :: 0 <= i < |order| ==> order[i].pid != r.pid
    ensures AllRegistered(s, [r] + order) && PassSorted(s, [r] + order)
  {
    forall i | 0 < i < |order|
      ensures PassLess(s, r, order[i])
    {
      assert PassLess(s, order[0], order[i]);
    }
  }

  /** CalculateExtensionProcPrio: the collected processes as a ProcInfoSet. */
  function PassSort(s: State, found: seq<Ref>): (order: seq<Ref>)
    requires AllRegistered(s, found)
    ensures AllRegistered(s, order)
  {
    if found == [] then [] else PassInsert(s, PassSort(s, found[..|found| - 1]), found[|found| - 1])
  }

  lemma {:induction false} PassSortSorts(s: State, found: seq<Ref>)
    requires AllRegistered(s, found) && DistinctPids(found)
    ensures PassSorted(s, PassSort(s, found))
    ensures forall r :: r in PassSort(s, found) <==> r in found
    decreases |found|
  {
    if found != [] {
      var init, last := found[..|found| - 1], found[|found| - 1];
      PassSortSorts(s, init);
      var order := PassSort(s, init);
      forall i | 0 <= i < |order|
        ensures order[i].pid != last.pid
      {
        assert order[i] in order;
        var k :| 0 <= k < |init| && init[k] == order[i];
      }
      PassInsertSorted(s, order, last);
      assert found == init + [last];
    }
  }

  lemma GraphWellFormed(s: State)
    ensures WellFormed(GraphOf(s))
  {
    var g := GraphOf(s);
    forall n, i | n in g.succ && 0 <= i < |g.succ[n]|
      ensures g.succ[n][i] in g.nodes
    {
      assert RefRegistered(s, g.succ[n][i]);
    }
  }

  /** The collected processes, sorted, are the order of the pass. */
  lemma CollectedOrder(s: State, start: Ref, rounds: nat)
    requires Traverse(GraphOf(s), start, rounds).queue == []
    ensures AllRegistered(s, Traverse(GraphOf(s), start, rounds).found)
    ensures AllRegistered(s, PassSort(s, Traverse(GraphOf(s), start, rounds).found))
    ensures IsPassOrder(s, start, PassSort(s, Traverse(GraphOf(s), start, rounds).found))
  {
    hide Traverse;
    var found := Traverse(GraphOf(s), start, rounds).found;
    SoundAlways(GraphOf(s), start, rounds);
    forall i | 0 <= i < |found|
      ensures RefRegistered(s, found[i])
    {
      assert found[i] in found;
      assert found[i] in GraphOf(s).extensions;
    }
    PassSortSorts(s, found);
  }

  /** The handler finds an order for the pass exactly when its walk ends. */
  lemma PassOrderIff(s: State, start: Ref)
    ensures (exists order :: IsPassOrder(s, start, order)) <==> Terminates(GraphOf(s), start)
  {
    var g := GraphOf(s);
    if Terminates(g, start) {
      var rounds: nat :| Traverse(g, start, rounds).queue == [];
      CollectedOrder(s, start, rounds);
    }
  }

  /** No pid is registered under two uids. */
  ghost predicate UniqueProcs(s: State) {
    forall u, v, pid :: Registered(s, u, pid) && Registered(s, v, pid) ==> u == v
  }

  /** s and t register the same processes. */
  ghost predicate SameProcs(s: State, t: State) {
    forall u, pid :: Registered(s, u, pid) <==> Registered(t, u, pid)
  }

  lemma StatusSameProcs(s: State, uid: int, pid: int)
    requires Registered(s, uid, pid)
    ensures SameProcs(s, UpdateByStatus(s, uid, pid).state)
    ensures UpdateByStatus(s, uid, pid).Spread? ==> UpdateByStatus(s, uid, pid).start == Ref(pid, uid)
  {
    var p := ProcAt(s, uid, pid);
    AssignSlot(s, uid, pid, p.(priority := AdjustedPriority(p)));
  }

  lemma UpdateSameProcs(s: State, reason: Reason, uid: int, pid: int, time: int)
    requires Registered(s, uid, pid)
    ensures SameProcs(s, HandleUpdate(s, reason, uid, pid, time).state)
    ensures HandleUpdate(s, reason, uid, pid, time).Spread? ==>
            HandleUpdate(s, reason, uid, pid, time).start == Ref(pid, uid)
  {
    var p := ProcAt(s, uid, pid);
    var q := AfterReason(p, reason, time);
    var timers := if FinishesStart(p, reason, time) then WithoutTimers(s.timers, pid) else s.timers;
    var t := Put(s, uid, pid, q).(timers := timers);
    assert SameProcs(s, t);
    StatusSameProcs(t, uid, pid);
  }

  lemma BindSameProcs(s: State, e: Event)
    requires e.Bind?
    ensures SameProcs(s, HandleBind(s, e).state)
    ensures HandleBind(s, e).Spread? ==> HandleBind(s, e).start == e.target && RefRegistered(s, e.target)
  {
    var t := BindCaller(s, e);
    assert SameProcs(s, t);
    if RefRegistered(t, e.target) {
      var uid, pid := e.target.uid, e.target.pid;
      var t' := Put(t, uid, pid, BoundTarget(RefProc(t, e.target), e));
      assert SameProcs(t, t');
      UpdateSameProcs(t', if e.bind then BindExtension else UnbindExtension, uid, pid, e.time);
    }
  }

  lemma FireSameProcs(s: State, which: nat)
    requires which < |s.timers|
    ensures SameProcs(s, HandleStartTimer(s, which).state)
    ensures HandleStartTimer(s, which).Spread? ==> RefRegistered(s, HandleStartTimer(s, which).start)
  {
    var timer := s.timers[which];
    var t := s.(timers := s.timers[..which] + s.timers[which + 1..]);
    if Registered(t, timer.uid, timer.pid) {
      var t' := Put(t, timer.uid, timer.pid, ProcAt(t, timer.uid, timer.pid).(starting := false));
      assert SameProcs(s, t');
      StatusSameProcs(t', timer.uid, timer.pid);
    }
  }

  /** A handler that goes on to the pass neither adds nor removes processes. */
  lemma SpreadSameProcs(s: State, e: Event)
    requires Handle(s, e).Spread?
    ensures SameProcs(s, Handle(s, e).state) && RefRegistered(s, Handle(s, e).start)
  {
    match e
    case Update(reason, uid, pid, time) => UpdateSameProcs(s, reason, uid, pid, time);
    case Bind(_, _, _, _, _) => BindSameProcs(s, e);
    case StartTimer(which) => FireSameProcs(s, which);
    case CreateTimer(uid, pid) => StatusSameProcs(s, uid, pid);
  }

  lemma UniqueGraph(s: State)
    requires UniqueProcs(s)
    ensures UniquePids(GraphOf(s))
  {
    forall m, n | m in LiveRefs(s) && n in LiveRefs(s) && m.pid == n.pid
      ensures m == n
    {
      assert Registered(s, m.uid, m.pid) && Registered(s, n.uid, n.pid);
    }
  }

  /** An event has an outcome, unless it starts a walk that can reach a cycle
      of processes that are not extensions. */
  lemma StepEnabledIff(s: State, e: Event)
    requires UniqueProcs(s)
    ensures (exists s' :: Step(s, e, s')) <==>
            (Handle(s, e).Done? || !ReachesPlainCycle(GraphOf(Handle(s, e).state), Handle(s, e).start))
  {
    match Handle(s, e)
    case Done(t) => assert Step(s, e, t);
    case Spread(t, start) =>
      SpreadSameProcs(s, e);
      GraphWellFormed(t);
      UniqueGraph(t);
      assert RefRegistered(t, start);
      TerminatesIff(GraphOf(t), start);
      PassOrderIff(t, start);
      if Terminates(GraphOf(t), start) {
        var order :| IsPassOrder(t, start, order);
        assert Step(s, e, Pass(t, order));
      }
  }

  /** And it has one outcome at most: the order in which the walk met the
      extensions does not matter. */
  lemma StepDeterministic(s: State, e: Event, s1: State, s2: State)
    requires Step(s, e, s1) && Step(s, e, s2)
    ensures s1 == s2
  {
    match Handle(s, e)
    case Done(_) =>
    case Spread(t, start) =>
      var a :| IsPassOrder(t, start, a) && s1 == Pass(t, a);
      var b :| IsPassOrder(t, start, b) && s2 == Pass(t, b);
      SameOrder(t, start, a, b);
  }

  lemma SameOrder(s: State, start: Ref, a: seq<Ref>, b: seq<Ref>)
    requires IsPassOrder(s, start, a) && IsPassOrder(s, start, b)
    ensures a == b
  {
    var g := GraphOf(s);
    var m: nat :| Traverse(g, start, m).queue == [] && (forall r :: r in a <==> r in Traverse(g, start, m).found);
    var n: nat :| Traverse(g, start, n).queue == [] && (forall r :: r in b <==> r in Traverse(g, start, n).found);
    if m <= n { EmptyStays(g, start, m, n); } else { EmptyStays(g, start, n, m); }
    PassOrderUnique(s, a, b);
  }
}
