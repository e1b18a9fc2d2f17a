/** GetConnectedExtensionProc: the worklist that walks the bind-from-me edges.
    Only extensions are remembered as visited, so the walk ends on some graphs
    and runs for ever on others; this module says exactly which. */
module BindGraph {
  import opened RegistryTypes

  /** Live processes, which of them are extensions, and for each process its
      live bind targets in the order std::map lists them. */
  datatype Graph = Graph(nodes: set<Ref>, extensions: set<Ref>, succ: map<Ref, seq<Ref>>)

  predicate WellFormed(g: Graph) {
    && g.extensions <= g.nodes
    && forall n :: n in g.succ ==> forall i :: 0 <= i < |g.succ[n]| ==> g.succ[n][i] in g.nodes
  }

  predicate UniquePids(g: Graph) {
    forall m, n :: m in g.nodes && n in g.nodes && m.pid == n.pid ==> m == n
  }

  function Children(g: Graph, n: Ref): seq<Ref> {
    if n in g.succ then g.succ[n] else []
  }

  /** The queue, the visited pids, the extensions collected so far, and every
      process taken from the queue so far. */
  datatype Worklist = Worklist(queue: seq<Ref>, visited: set<int>, found: seq<Ref>, popped: set<Ref>)

  function Unvisited(children: seq<Ref>, visited: set<int>): (r: seq<Ref>)
    ensures forall c :: c in r <==> c in children && c.pid !in visited
  {
    if children == [] then []
    else
      assert children == [children[0]] + children[1..];
      (if children[0].pid in visited then [] else [children[0]]) + Unvisited(children[1..], visited)
  }

  /** One round of the loop. */
  function Pop(g: Graph, w: Worklist): Worklist {
    if w.queue == [] then w
    else
      var n, rest := w.queue[0], w.queue[1..];
      if n.pid in w.visited then w.(queue := rest, popped := w.popped + {n})
      else
        var visited := if n in g.extensions then w.visited + {n.pid} else w.visited;
        var found := if n in g.extensions then w.found + [n] else w.found;
        Worklist(rest + Unvisited(Children(g, n), visited), visited, found, w.popped + {n})
  }

  function Traverse(g: Graph, start: Ref, rounds: nat): Worklist {
    if rounds == 0 then Worklist([start], {}, [], {}) else Pop(g, Traverse(g, start, rounds - 1))
  }

  ghost predicate Terminates(g: Graph, start: Ref) {
    exists rounds: nat :: Traverse(g, start, rounds).queue == []
  }

  lemma {:induction false} EmptyStays(g: Graph, start: Ref, m: nat, n: nat)
    requires m <= n && Traverse(g, start, m).queue == []
    ensures Traverse(g, start, n) == Traverse(g, start, m)
  {
    if m < n { EmptyStays(g, start, m, n - 1); }
  }

  // ----- paths

  predicate Linked(g: Graph, p: seq<Ref>) {
    forall i :: 0 <= i < |p| - 1 ==> p[i + 1] in Children(g, p[i])
  }

  predicate IsPath(g: Graph, p: seq<Ref>, from: Ref, to: Ref) {
    |p| > 0 && p[0] == from && p[|p| - 1] == to && Linked(g, p)
  }

  ghost predicate Reachable(g: Graph, from: Ref, to: Ref) {
    exists p :: IsPath(g, p, from, to)
  }

  lemma ReachesItself(g: Graph, n: Ref)
    ensures Reachable(g, n, n)
  {
    assert IsPath(g, [n], n, n);
  }

  lemma ReachesChild(g: Graph, from: Ref, n: Ref, c: Ref)
    requires Reachable(g, from, n) && c in Children(g, n)
    ensures Reachable(g, from, c)
  {
    var p :| IsPath(g, p, from, n);
    assert IsPath(g, p + [c], from, c);
  }

  // ----- what the walk has done so far

  /** Soundness: everything met is reachable, every collected process is an
      extension, and the collected pids are the visited ones, each once. */
  ghost predicate Sound(g: Graph, start: Ref, w: Worklist) {
    && (forall n :: n in w.queue ==> Reachable(g, start, n))
    && (forall n :: n in w.popped ==> Reachable(g, start, n))
    && (forall n :: n in w.found ==> n in w.popped && n in g.extensions && n.pid in w.visited)
    && (forall x :: x in w.visited ==> exists n :: n in w.found && n.pid == x)
    && (forall i, j :: 0 <= i < j < |w.found| ==> w.found[i].pid != w.found[j].pid)
  }

  /** Completeness: every bind target of a process taken from the queue has been
      taken from the queue or is in it, and no extension was dropped. */
  ghost predicate Complete(g: Graph, start: Ref, w: Worklist) {
    && (start in w.queue || start in w.popped)
    && (forall n, c :: n in w.popped && c in Children(g, n) ==> c in w.popped || c in w.queue)
    && (forall n :: n in w.popped && n in g.extensions ==> n in w.found)
  }

  lemma QueueMembers(w: Worklist)
    requires w.queue != []
    ensures forall n :: n in w.queue <==> n == w.queue[0] || n in w.queue[1..]
  {
    assert w.queue == [w.queue[0]] + w.queue[1..];
  }

  lemma SoundPop(g: Graph, start: Ref, w: Worklist)
    requires Sound(g, start, w)
    ensures Sound(g, start, Pop(g, w))
  {
    if w.queue != [] {
      QueueMembers(w);
      var n := w.queue[0];
      var w' := Pop(g, w);
      if n.pid !in w.visited {
        forall c | c in Children(g, n)
          ensures Reachable(g, start, c)
        {
          ReachesChild(g, start, n, c);
        }
        if n in g.extensions {
          assert w'.found == w.found + [n];
          assert n in w'.found;
          forall x | x in w'.visited
            ensures exists m :: m in w'.found && m.pid == x
          {
            if x in w.visited {
              var m :| m in w.found && m.pid == x;
              assert m in w'.found;
            }
          }
        }
      }
    }
  }

  lemma {:induction false} SoundAlways(g: Graph, start: Ref, rounds: nat)
    ensures Sound(g, start, Traverse(g, start, rounds))
  {
    if rounds == 0 {
      ReachesItself(g, start);
    } else {
      SoundAlways(g, start, rounds - 1);
      SoundPop(g, start, Traverse(g, start, rounds - 1));
    }
  }

  predicate Inside(g: Graph, w: Worklist) {
    && (forall n :: n in w.queue ==> n in g.nodes)
    && (forall n :: n in w.popped ==> n in g.nodes)
  }

  /** With unique pids, a visited pid belongs to a process already taken. */
  lemma VisitedIsFound(g: Graph, start: Ref, w: Worklist, n: Ref)
    requires UniquePids(g) && Sound(g, start, w) && Inside(g, w)
    requires n in g.nodes && n.pid in w.visited
    ensures n in w.found && n in w.popped
  {
    var m :| m in w.found && m.pid == n.pid;
  }

  lemma CompletePop(g: Graph, start: Ref, w: Worklist)
    requires WellFormed(g) && UniquePids(g)
    requires Sound(g, start, w) && Inside(g, w) && Complete(g, start, w)
    ensures Inside(g, Pop(g, w)) && Complete(g, start, Pop(g, w))
  {
    if w.queue != [] {
      QueueMembers(w);
      var n := w.queue[0];
      var w' := Pop(g, w);
      if n.pid in w.visited {
        VisitedIsFound(g, start, w, n);
      } else {
        assert forall m :: m in w.found ==> m in w'.found;
        if n in g.extensions { assert w'.found == w.found + [n]; assert n in w'.found; }
        forall c | c in Children(g, n)
          ensures c in w'.popped || c in w'.queue
        {
          if c.pid in w'.visited && c != n {
            assert c.pid != n.pid;
            VisitedIsFound(g, start, w, c);
          }
        }
        forall m, c | m in w'.popped && c in Children(g, m)
          ensures c in w'.popped || c in w'.queue
        {
        }
      }
    }
  }

  lemma {:induction false} CompleteAlways(g: Graph, start: Ref, rounds: nat)
    requires WellFormed(g) && UniquePids(g) && start in g.nodes
    ensures Sound(g, start, Traverse(g, start, rounds))
    ensures Inside(g, Traverse(g, start, rounds))
    ensures Complete(g, start, Traverse(g, start, rounds))
  {
    SoundAlways(g, start, rounds);
    if rounds > 0 {
      CompleteAlways(g, start, rounds - 1);
      CompletePop(g, start, Traverse(g, start, rounds - 1));
    }
  }

  /** When the queue is empty, everything on a path from the start was taken. */
  lemma {:induction false} PathPopped(g: Graph, start: Ref, w: Worklist, p: seq<Ref>, to: Ref)
    requires Complete(g, start, w) && w.queue == [] && IsPath(g, p, start, to)
    ensures to in w.popped
    decreases |p|
  {
    if |p| > 1 {
      var q := p[..|p| - 1];
      PathPopped(g, start, w, q, q[|q| - 1]);
      assert p[(|p| - 2) + 1] in Children(g, p[|p| - 2]);
    }
  }

  /** The walk returns exactly the extensions reachable through live
      bind-from-me edges, each once. */
  lemma TraversalIsExact(g: Graph, start: Ref, rounds: nat)
    requires WellFormed(g) && UniquePids(g) && start in g.nodes
    requires Traverse(g, start, rounds).queue == []
    ensures var found := Traverse(g, start, rounds).found;
      && (forall n :: n in found <==> n in g.extensions && Reachable(g, start, n))
      && (forall i, j :: 0 <= i < j < |found| ==> found[i] != found[j])
  {
    CompleteAlways(g, start, rounds);
    var w := Traverse(g, start, rounds);
    forall n | n in g.extensions && Reachable(g, start, n)
      ensures n in w.found
    {
      var p :| IsPath(g, p, start, n);
      PathPopped(g, start, w, p, n);
    }
  }

  /** An extension the walk starts from is collected in the first round. */
  lemma {:induction false} StartFound(g: Graph, start: Ref, rounds: nat)
    requires start in g.extensions && rounds > 0
    ensures start in Traverse(g, start, rounds).found
  {
    if rounds > 1 {
      StartFound(g, start, rounds - 1);
    } else {
      var w := Traverse(g, start, 0);
      assert Pop(g, w).found == w.found + [start];
    }
  }

  // ----- when it ends

  /** A closed walk through processes none of which is an extension. */
  predicate PlainCycle(g: Graph, c: seq<Ref>) {
    && |c| >= 2 && c[0] == c[|c| - 1] && Linked(g, c)
    && forall i :: 0 <= i < |c| ==> c[i] in g.nodes && c[i] !in g.extensions
  }

  ghost predicate ReachesPlainCycle(g: Graph, start: Ref) {
    exists c :: PlainCycle(g, c) && Reachable(g, start, c[0])
  }

  ghost predicate Caught(c: seq<Ref>, w: Worklist) {
    (exists n :: n in c && (n in w.popped || n in w.queue)) ==> exists n :: n in c && n in w.queue
  }

  lemma NextOnCycle(g: Graph, c: seq<Ref>, n: Ref) returns (next: Ref)
    requires PlainCycle(g, c) && n in c
    ensures next in c && next in Children(g, n)
  {
    var i :| 0 <= i < |c| && c[i] == n;
    var k := if i == |c| - 1 then 0 else i;
    next := c[k + 1];
    assert c[k] == n;
  }

  lemma CaughtPop(g: Graph, start: Ref, c: seq<Ref>, w: Worklist)
    requires UniquePids(g) && PlainCycle(g, c)
    requires Sound(g, start, w) && Inside(g, w) && Caught(c, w)
    ensures Caught(c, Pop(g, w))
  {
    if w.queue != [] {
      QueueMembers(w);
      var n := w.queue[0];
      var w' := Pop(g, w);
      forall m | m in c
        ensures m.pid !in w.visited
      {
        if m.pid in w.visited { VisitedIsFound(g, start, w, m); }
      }
      if n in c {
        var next := NextOnCycle(g, c, n);
        assert next in w'.queue;
      } else if exists m :: m in c && m in w.queue {
        var m :| m in c && m in w.queue;
        assert m in w'.queue;
      }
    }
  }

  lemma {:induction false} CaughtAlways(g: Graph, start: Ref, c: seq<Ref>, rounds: nat)
    requires WellFormed(g) && UniquePids(g) && start in g.nodes && PlainCycle(g, c)
    ensures Caught(c, Traverse(g, start, rounds))
  {
    if rounds > 0 {
      CaughtAlways(g, start, c, rounds - 1);
      CompleteAlways(g, start, rounds - 1);
      CaughtPop(g, start, c, Traverse(g, start, rounds - 1));
    }
  }

  lemma CycleNeverEnds(g: Graph, start: Ref, c: seq<Ref>)
    requires WellFormed(g) && UniquePids(g) && start in g.nodes
    requires PlainCycle(g, c) && Reachable(g, start, c[0])
    ensures !Terminates(g, start)
  {
    forall rounds: nat
      ensures Traverse(g, start, rounds).queue != []
    {
      var w := Traverse(g, start, rounds);
      CompleteAlways(g, start, rounds);
      CaughtAlways(g, start, c, rounds);
      var p :| IsPath(g, p, start, c[0]);
      assert c[0] in c;
      if w.queue == [] { PathPopped(g, start, w, p, c[0]); }
    }
  }

  // ----- bounded plain walks

  /** Every walk through plain processes from n has at most d of them. */
  ghost predicate Within(g: Graph, n: Ref, d: nat)
    decreases d
  {
    n in g.extensions || (d > 0 && forall c :: c in Children(g, n) ==> Within(g, c, d - 1))
  }

  predicate PlainWalk(g: Graph, p: seq<Ref>) {
    && |p| > 0 && Linked(g, p)
    && forall i :: 0 <= i < |p| ==> p[i] in g.nodes && p[i] !in g.extensions
  }

  lemma {:induction false} LongWalk(g: Graph, n: Ref, d: nat) returns (p: seq<Ref>)
    requires WellFormed(g) && n in g.nodes && !Within(g, n, d)
    ensures PlainWalk(g, p) && p[0] == n && |p| == d + 1
    decreases d
  {
    if d == 0 {
      p := [n];
    } else {
      var c :| c in Children(g, n) && !Within(g, c, d - 1);
      var q := LongWalk(g, c, d - 1);
      p := [n] + q;
      assert forall i :: 0 <= i < |p| - 1 ==> p[i + 1] == q[i];
    }
  }

  /** A sequence longer than the set its elements come from repeats one. */
  lemma {:induction false} Pigeonhole(p: seq<Ref>, nodes: set<Ref>) returns (i: nat, j: nat)
    requires |p| > |nodes| && forall k :: 0 <= k < |p| ==> p[k] in nodes
    ensures i < j < |p| && p[i] == p[j]
    decreases |nodes|
  {
    var last := |p| - 1;
    if k: nat :| k < last && p[k] == p[last] {
      i, j := k, last;
    } else {
      i, j := Pigeonhole(p[..last], nodes - {p[last]});
    }
  }

  lemma {:induction false} WalkReaches(g: Graph, start: Ref, p: seq<Ref>, i: nat)
    requires Linked(g, p) && i < |p| && Reachable(g, start, p[0])
    ensures Reachable(g, start, p[i])
  {
    if i > 0 {
      WalkReaches(g, start, p, i - 1);
      assert p[(i - 1) + 1] in Children(g, p[i - 1]);
      ReachesChild(g, start, p[i - 1], p[i]);
    }
  }

  /** A plain walk longer than the graph closes a cycle. */
  lemma LongWalkCloses(g: Graph, start: Ref, n: Ref)
    requires WellFormed(g) && n in g.nodes && Reachable(g, start, n)
    requires !Within(g, n, |g.nodes|)
    ensures ReachesPlainCycle(g, start)
  {
    var p := LongWalk(g, n, |g.nodes|);
    var i, j := Pigeonhole(p, g.nodes);
    WalkReaches(g, start, p, i);
    var c := p[i..j + 1];
    assert PlainCycle(g, c) && c[0] == p[i];
  }

  // ----- the measure

  /** How many times plain processes can be taken on account of n. */
  function Weight(g: Graph, n: Ref, d: nat): nat
    decreases d, 1, 0
  {
    if n in g.extensions || d == 0 then 1 else 1 + Weights(g, Children(g, n), d - 1)
  }

  function Weights(g: Graph, ns: seq<Ref>, d: nat): nat
    decreases d, 2, |ns|
  {
    if ns == [] then 0 else Weight(g, ns[0], d) + Weights(g, ns[1..], d)
  }

  lemma {:induction false} WeightStable(g: Graph, n: Ref, d: nat)
    requires Within(g, n, d)
    ensures Weight(g, n, d + 1) == Weight(g, n, d)
    decreases d, 1, 0
  {
    if n !in g.extensions { WeightsStable(g, Children(g, n), d - 1); }
  }

  lemma {:induction false} WeightsStable(g: Graph, ns: seq<Ref>, d: nat)
    requires forall c :: c in ns ==> Within(g, c, d)
    ensures Weights(g, ns, d + 1) == Weights(g, ns, d)
    decreases d, 2, |ns|
  {
    if ns != [] {
      assert ns[0] in ns;
      WeightStable(g, ns[0], d);
      WeightsStable(g, ns[1..], d);
    }
  }

  lemma {:induction false} WeightsAppend(g: Graph, ms: seq<Ref>, ns: seq<Ref>, d: nat)
    ensures Weights(g, ms + ns, d) == Weights(g, ms, d) + Weights(g, ns, d)
    decreases |ms|
  {
    if ms == [] {
      assert ms + ns == ns;
    } else {
      assert (ms + ns)[1..] == ms[1..] + ns;
      WeightsAppend(g, ms[1..], ns, d);
    }
  }

  lemma {:induction false} WeightsUnvisited(g: Graph, ns: seq<Ref>, visited: set<int>, d: nat)
    ensures Weights(g, Unvisited(ns, visited), d) <= Weights(g, ns, d)
    decreases |ns|
  {
    if ns != [] {
      WeightsUnvisited(g, ns[1..], visited, d);
      var head := if ns[0].pid in visited then [] else [ns[0]];
      WeightsAppend(g, head, Unvisited(ns[1..], visited), d);
    }
  }

  /** Taking a plain process strictly lowers the weight of the queue. */
  lemma PlainPopLighter(g: Graph, w: Worklist, d: nat)
    requires d > 0 && w.queue != [] && w.queue[0].pid !in w.visited && w.queue[0] !in g.extensions
    requires Within(g, w.queue[0], d)
    ensures Weights(g, Pop(g, w).queue, d) < Weights(g, w.queue, d)
  {
    var n, rest := w.queue[0], w.queue[1..];
    var kids := Children(g, n);
    WeightsAppend(g, rest, Unvisited(kids, w.visited), d);
    WeightsUnvisited(g, kids, w.visited, d);
    WeightsStable(g, kids, d - 1);
  }

  ghost function Missing(g: Graph, w: Worklist): set<Ref> {
    set n | n in g.extensions && n !in w.found
  }

  /** With every walk bounded, the walk drains from any of its states. */
  lemma {:induction false} Drains(g: Graph, start: Ref, rounds: nat, d: nat) returns (last: nat)
    requires WellFormed(g) && UniquePids(g) && start in g.nodes && d > 0
    requires forall n :: n in g.nodes && Reachable(g, start, n) ==> Within(g, n, d)
    ensures Traverse(g, start, last).queue == []
    decreases Missing(g, Traverse(g, start, rounds)),
              Weights(g, Traverse(g, start, rounds).queue, d)
  {
    var w := Traverse(g, start, rounds);
    if w.queue == [] {
      last := rounds;
    } else {
      CompleteAlways(g, start, rounds);
      var n := w.queue[0];
      assert n in w.queue;
      var w' := Traverse(g, start, rounds + 1);
      if n.pid in w.visited {
        assert w'.queue == w.queue[1..] && Missing(g, w') == Missing(g, w);
        assert Weights(g, w.queue, d) == Weight(g, n, d) + Weights(g, w'.queue, d);
      } else if n in g.extensions {
        assert n !in w.found;
        assert w'.found == w.found + [n];
        assert n in Missing(g, w) && n !in Missing(g, w');
        assert Missing(g, w') < Missing(g, w);
      } else {
        assert Missing(g, w') == Missing(g, w);
        PlainPopLighter(g, w, d);
      }
      last := Drains(g, start, rounds + 1, d);
    }
  }

  /** The walk ends exactly when no cycle of plain processes can be reached. */
  lemma TerminatesIff(g: Graph, start: Ref)
    requires WellFormed(g) && UniquePids(g) && start in g.nodes
    ensures Terminates(g, start) <==> !ReachesPlainCycle(g, start)
  {
    if ReachesPlainCycle(g, start) {
      var c :| PlainCycle(g, c) && Reachable(g, start, c[0]);
      CycleNeverEnds(g, start, c);
    } else {
      forall n | n in g.nodes && Reachable(g, start, n)
        ensures Within(g, n, |g.nodes|)
      {
        if !Within(g, n, |g.nodes|) { LongWalkCloses(g, start, n); }
      }
      var last := Drains(g, start, 0, |g.nodes|);
    }
  }

  /** In particular it ends when every live bind target is an extension. */
  lemma ExtensionTargetsTerminate(g: Graph, start: Ref)
    requires WellFormed(g) && UniquePids(g) && start in g.nodes
    requires forall n, c :: n in g.nodes && c in Children(g, n) ==> c in g.extensions
    ensures Terminates(g, start)
  {
    forall c
      ensures !PlainCycle(g, c)
    {
      if |c| >= 2 && Linked(g, c) && c[0] in g.nodes {
        assert c[0 + 1] in Children(g, c[0]);
      }
    }
    TerminatesIff(g, start);
  }

  /** Two plain processes bound to each other: the walk never ends. */
  lemma TwoPlainProcessesLoop(a: Ref, b: Ref)
    requires a.pid != b.pid
    ensures !Terminates(Graph({a, b}, {}, map[a := [b], b := [a]]), a)
  {
    var g := Graph({a, b}, {}, map[a := [b], b := [a]]);
    var c := [a, b, a];
    assert PlainCycle(g, c);
    ReachesItself(g, a);
    CycleNeverEnds(g, a, c);
  }
}
