/** A run on which the documented rule for extensions fails: an extension that
    connects another one is updated after it. */
module ExtensionChain {
  import opened Collections
  import opened RegistryTypes
  import opened BindGraph
  import opened Registry
  import opened RegistryInvariant
  import opened ExtensionPass
  import opened ExtensionRule
  import opened StartTimers
  import opened WalkCompletion

  // ----- walks and keys in small registries

  lemma AscendingOne(x: int)
    ensures Ascending({x}) == [x]
  {
    assert Minimum({x}) == x && {x} - {x} == {};
    assert Ascending({}) == [];
  }

  /** The walk over any graph in which an extension a binds an extension b. */
  lemma TwoStepWalk(g: Graph, a: Ref, b: Ref)
    requires a.pid != b.pid && a in g.extensions && b in g.extensions
    requires Children(g, a) == [b] && Children(g, b) == []
    ensures Traverse(g, a, 2).queue == [] && Traverse(g, a, 2).found == [a, b]
  {
    var w0 := Worklist([a], {}, [], {});
    assert Unvisited([b][1..], {a.pid}) == [];
    assert Unvisited([b], {a.pid}) == [b];
    var w1 := Worklist([b], {a.pid}, [a], {a});
    assert {} + {a.pid} == {a.pid} && {} + {a} == {a};
    assert Pop(g, w0) == w1;
    assert Traverse(g, a, 0) == w0;
    assert Traverse(g, a, 1) == w1;
    assert Unvisited([], {a.pid, b.pid}) == [];
    assert Traverse(g, a, 2) == Pop(g, w1);
  }

  lemma LeastOne(s: State, r: Ref)
    ensures LeastConnector(s, map[r.pid := r.uid]) == AtMost(Contribution(s, r), PRIORITY_BACKGROUND)
  {
    var edges := map[r.pid := r.uid];
    var values := set pid | pid in edges :: Contribution(s, Ref(pid, edges[pid]));
    assert r.pid in edges && Contribution(s, Ref(r.pid, edges[r.pid])) in values;
    assert forall v :: v in values ==> v == Contribution(s, r);
  }

  lemma LeastNone(s: State)
    ensures LeastConnector(s, map[]) == PRIORITY_BACKGROUND
  {
    var edges: map<int, int> := map[];
    assert (set pid | pid in edges :: Contribution(s, Ref(pid, edges[pid]))) == {};
  }

  /** An extension without status or configuration. */
  predicate Bare(p: Proc) { p.extension && p.status == NO_STATUS && !p.important }

  /** FIRST, at 0 and connected by nobody, connects SECOND. */
  predicate Chain(s: State) {
    && RefRegistered(s, FIRST) && RefRegistered(s, SECOND)
    && Bare(RefProc(s, FIRST)) && Bare(RefProc(s, SECOND)) && RefProc(s, FIRST).priority == 0
    && RefProc(s, FIRST).bindToMe == map[] && RefProc(s, FIRST).bindFromMe == map[2 := 2]
    && RefProc(s, SECOND).bindToMe == map[1 := 1] && RefProc(s, SECOND).bindFromMe == map[]
  }

  lemma ChainEdges(s: State)
    requires Chain(s)
    ensures Children(GraphOf(s), FIRST) == [SECOND] && Children(GraphOf(s), SECOND) == []
    ensures FIRST in GraphOf(s).extensions && SECOND in GraphOf(s).extensions
  {
    var a, b := RefProc(s, FIRST), RefProc(s, SECOND);
    assert FIRST in LiveRefs(s) && SECOND in LiveRefs(s);
    AscendingOne(2);
    assert a.bindFromMe.Keys == {2} && b.bindFromMe.Keys == {};
    assert LiveTargets(s, a.bindFromMe, []) == [];
    assert LiveTargets(s, a.bindFromMe, [2]) == [SECOND];
    assert Targets(s, a) == [SECOND] && Targets(s, b) == [];
  }

  lemma ChainKeys(s: State)
    requires Chain(s)
    ensures PassKey(s, FIRST) == 400 && PassKey(s, SECOND) == 0
  {
    AscendingOne(1);
    var a, b := RefProc(s, FIRST), RefProc(s, SECOND);
    assert a.bindToMe.Keys == {} && b.bindToMe.Keys == {1};
    assert ConnectorKey(s, b.bindToMe, [], 0) == 0;
    assert ConnectorKey(s, b.bindToMe, [1], 400) == 0;
  }

  lemma ChainOrder(s: State)
    requires Chain(s)
    ensures IsPassOrder(s, FIRST, [SECOND, FIRST]) && AllRegistered(s, [SECOND, FIRST])
  {
    hide PassKey, GraphOf, Traverse;
    var order := [SECOND, FIRST];
    ChainEdges(s);
    TwoStepWalk(GraphOf(s), FIRST, SECOND);
    ChainKeys(s);
    var found := Traverse(GraphOf(s), FIRST, 2).found;
    assert forall r :: r in order <==> r in found;
    assert PassLess(s, SECOND, FIRST);
  }

  lemma ChainPass(s: State)
    requires Chain(s)
    ensures !FollowsRule(s, [SECOND, FIRST], SECOND) && Fails(Pass(s, [SECOND, FIRST]))
  {
    hide Pass, LeastConnector, IsPassOrder;
    var order := [SECOND, FIRST];
    ChainOrder(s);
    PassOrderDistinct(s, FIRST, order);
    FinalPriority(s, order, 0);
    FinalPriority(s, order, 1);
    assert order[..0] == [];
    PassNothing(s);
    LeastOne(s, FIRST);
    LeastNone(Before(s, order, 1));
    LeastOne(Pass(s, order), FIRST);
    PassFrame(s, order);
  }

  lemma PassNothing(s: State)
    ensures Pass(s, []) == s
  {
  }

  // ----- a binding that the target accepts

  /** The target of an accepted binding, before the pass. */
  function Bound(p: Proc, e: Event): Proc
    requires e.Bind?
  {
    var q := Recorded(BoundTarget(p, e), if e.bind then BindExtension else UnbindExtension);
    q.(priority := AdjustedPriority(q))
  }

  lemma BindSpreads(s: State, e: Event)
    requires Inv(s) && e.Bind? && Accepts(s, e) && s.bundles[e.target.uid].priority >= 0
    requires !RefProc(s, e.target).starting
    ensures RefRegistered(BindCaller(s, e), e.target)
    ensures HandleBind(s, e).Spread? && HandleBind(s, e).start == e.target
    ensures OneSlot(BindCaller(s, e), HandleBind(s, e).state, e.target.uid, e.target.pid,
                    Bound(RefProc(BindCaller(s, e), e.target), e))
  {
    hide Inv, Assign, AdjustedPriority, NextStatus, NextBindStatus;
    var uid, pid := e.target.uid, e.target.pid;
    ProcAboveBundle(s, uid, pid);
    CallerEdges(s, e, e.target);
    CallerKeepsPriority(s, e);
    var t := BindCaller(s, e);
    var u := Put(t, uid, pid, BoundTarget(RefProc(t, e.target), e));
    var reason := if e.bind then BindExtension else UnbindExtension;
    var v := AfterRecord(u, reason, uid, pid, e.time);
    var p := ProcAt(v, uid, pid);
    AssignSlot(v, uid, pid, p.(priority := AdjustedPriority(p)));
  }

  // ----- the run

  const CHAIN_EVENTS := [
    Creation(FIRST, false), Creation(SECOND, false),
    Bind(FIRST, SECOND, true, false, INVALID_TIME), Bind(THIRD, FIRST, false, false, INVALID_TIME)]

  /** The two processes there are. */
  ghost predicate TwoOnly(s: State) {
    forall n: Ref :: RefRegistered(s, n) <==> n == FIRST || n == SECOND
  }

  /** FIRST binds SECOND and is otherwise as it was created. */
  ghost predicate Linked(s: State) {
    && TwoOnly(s) && Bare(RefProc(s, SECOND))
    && RefProc(s, FIRST) == CreatedProc(Creation(FIRST, false)).(bindFromMe := map[2 := 2])
    && RefProc(s, SECOND).bindToMe == map[1 := 1] && RefProc(s, SECOND).bindFromMe == map[]
  }

  /** A bundle is where its only process is. */
  lemma AloneInBundle(s: State, r: Ref)
    requires AllExact(s) && TwoOnly(s) && (r == FIRST || r == SECOND) && RefProc(s, r).priority == 0
    ensures s.bundles[r.uid].priority >= 0
  {
    assert RefRegistered(s, r);
    forall pid | pid in s.bundles[r.uid].procs
      ensures s.bundles[r.uid].procs[pid].priority >= 0
    {
      assert RefRegistered(s, Ref(pid, r.uid));
    }
    OrdinaryBundle(s, r.uid);
  }

  lemma AfterBind(s: State) returns (s': State)
    requires Healthy(s) && TargetsMarked(s) && TwoOnly(s)
    requires RefProc(s, FIRST) == CreatedProc(Creation(FIRST, false))
    requires RefProc(s, SECOND) == CreatedProc(Creation(SECOND, false))
    ensures Step(s, CHAIN_EVENTS[2], s') && Linked(s')
  {
    hide Inv, AllExact, UniqueProcs, TimersOk, TargetsMarked, Step;
    var e := CHAIN_EVENTS[2];
    assert RefRegistered(s, FIRST) && RefRegistered(s, SECOND);
    AloneInBundle(s, SECOND);
    assert Accepts(s, e);
    TameCompletes(s, e);
    s' :| Step(s, e, s');
    BindSpreads(s, e);
    var t := HandleBind(s, e).state;
    BoundLinked(s, e, t);
    PassKeepsLinked(s, e, t, s');
  }

  lemma BoundLinked(s: State, e: Event, t: State)
    requires TwoOnly(s) && e == CHAIN_EVENTS[2] && RefRegistered(BindCaller(s, e), SECOND)
    requires RefProc(s, FIRST) == CreatedProc(Creation(FIRST, false))
    requires RefProc(s, SECOND) == CreatedProc(Creation(SECOND, false))
    requires OneSlot(BindCaller(s, e), t, 2, 2, Bound(RefProc(BindCaller(s, e), SECOND), e))
    ensures Linked(t)
  {
    hide BindCaller;
    var u := BindCaller(s, e);
    forall n: Ref
      ensures RefRegistered(t, n) <==> n == FIRST || n == SECOND
    {
      CallerEdges(s, e, n);
      assert n.uid != 2 || n.pid != 2 || n == SECOND;
      assert Registered(t, n.uid, n.pid) <==> Registered(u, n.uid, n.pid);
    }
    CallerEdges(s, e, FIRST);
    CallerEdges(s, e, SECOND);
    assert Registered(u, 1, 1) && ProcAt(t, 1, 1) == ProcAt(u, 1, 1);
    assert map[][2 := 2] == map[2 := 2] && map[][1 := 1] == map[1 := 1];
  }

  lemma PassKeepsLinked(s: State, e: Event, t: State, s': State)
    requires Step(s, e, s') && Handle(s, e) == Spread(t, SECOND) && Linked(t)
    ensures Linked(s')
  {
    hide Handle, IsPassOrder, Pass, CreatedProc;
    var order :| IsPassOrder(t, SECOND, order) && s' == Pass(t, order);
    PassOrderExtensions(t, SECOND, order);
    PassFrame(t, order);
    FirstIsPlain();
    assert RefRegistered(t, FIRST) && RefRegistered(t, SECOND);
    assert FIRST !in order;
    forall n: Ref
      ensures RefRegistered(s', n) <==> RefRegistered(t, n)
    {
    }
  }

  lemma FirstIsPlain()
    ensures !CreatedProc(Creation(FIRST, false)).extension
  {
  }

  /** Unbinding somebody who is not there still makes FIRST an extension. */
  lemma UnbindChains(s: State)
    requires Healthy(s) && Linked(s)
    ensures HandleBind(s, CHAIN_EVENTS[3]).Spread? && HandleBind(s, CHAIN_EVENTS[3]).start == FIRST
    ensures Chain(HandleBind(s, CHAIN_EVENTS[3]).state)
  {
    hide Inv, AllExact, UniqueProcs, TimersOk, HandleBind, OneSlot, Bound, Linked, Chain;
    var e := CHAIN_EVENTS[3];
    assert Accepts(s, e) && BindCaller(s, e) == s && !RefProc(s, FIRST).starting && s.bundles[1].priority >= 0 by {
      UnbindAccepted(s);
    }
    BindSpreads(s, e);
    SlotChains(s, HandleBind(s, e).state);
  }

  lemma UnbindAccepted(s: State)
    requires Healthy(s) && Linked(s)
    ensures Accepts(s, CHAIN_EVENTS[3]) && BindCaller(s, CHAIN_EVENTS[3]) == s
    ensures !RefProc(s, FIRST).starting && s.bundles[1].priority >= 0
  {
    hide Inv, AllExact, UniqueProcs, TimersOk;
    assert RefRegistered(s, FIRST) && !RefRegistered(s, THIRD);
    AloneInBundle(s, FIRST);
  }

  lemma SlotChains(s: State, t: State)
    requires Linked(s) && RefRegistered(s, FIRST)
    requires OneSlot(s, t, 1, 1, Bound(RefProc(s, FIRST), CHAIN_EVENTS[3]))
    ensures Chain(t)
  {
    assert RefRegistered(s, SECOND) && Registered(s, 2, 2);
    assert ProcAt(t, 2, 2) == ProcAt(s, 2, 2);
    var none: map<int, int> := map[];
    assert none - {3} == none;
  }

  lemma AfterUnbind(s: State) returns (s': State)
    requires Healthy(s) && Linked(s)
    ensures Step(s, CHAIN_EVENTS[3], s') && Fails(s')
  {
    hide Healthy, Linked, Pass, IsPassOrder, Chain, HandleBind, Fails;
    UnbindChains(s);
    var t := HandleBind(s, CHAIN_EVENTS[3]).state;
    ChainOrder(t);
    ChainPass(t);
    s' := Pass(t, [SECOND, FIRST]);
  }

  /** SECOND is at 100 although its only connector is at 500, so that the rule
      puts it at 500. */
  ghost predicate Fails(s: State) {
    && RefRegistered(s, FIRST) && RefProc(s, FIRST).priority == 500
    && RefRegistered(s, SECOND) && RefProc(s, SECOND).priority == 100
    && RefProc(s, SECOND).extension && RefProc(s, SECOND).bindToMe == map[FIRST.pid := FIRST.uid]
    && ExtensionPriority(RefProc(s, SECOND), LeastConnector(s, RefProc(s, SECOND).bindToMe)) == 500
  }

  /** The four events can happen, in that order, and after them the documented
      rule does not hold. */
  lemma ChainIsNotFixpoint() returns (states: seq<State>)
    ensures Run(states, CHAIN_EVENTS)
    ensures Fails(states[|CHAIN_EVENTS|])
  {
    hide Step, Healthy, TargetsMarked, Fails;
    var s1, s2 := TwoCreations(Creation(FIRST, false), Creation(SECOND, false));
    var s3 := AfterBind(s2);
    StepHealthy(s2, CHAIN_EVENTS[2], s3);
    var s4 := AfterUnbind(s3);
    states := [EMPTY, s1, s2, s3, s4];
    FourSteps(states);
  }

  lemma FourSteps(states: seq<State>)
    requires |states| == 5 && states[0] == EMPTY
    requires Step(states[0], CHAIN_EVENTS[0], states[1]) && Step(states[1], CHAIN_EVENTS[1], states[2])
    requires Step(states[2], CHAIN_EVENTS[2], states[3]) && Step(states[3], CHAIN_EVENTS[3], states[4])
    ensures Run(states, CHAIN_EVENTS)
  {
    hide Step;
    forall i | 0 <= i < 4
      ensures Step(states[i], CHAIN_EVENTS[i], states[i + 1])
    {
      assert i == 0 || i == 1 || i == 2 || i == 3;
    }
  }
}
