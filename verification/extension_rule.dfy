/** What the pass over the connected extensions computes, as a recursion on
    priorities alone, and exactly when it leaves an extension where the
    documented rule puts it. */
module ExtensionRule {
  import opened Collections
  import opened RegistryTypes
  import opened Registry
  import opened RegistryInvariant
  import opened ExtensionPass

  // ----- the pass without registry and index

  /** The priority order[i] gets. */
  ghost function Value(s: State, order: seq<Ref>, i: nat): int
    requires i < |order| && AllRegistered(s, order)
    decreases i, 2
  {
    ExtensionPriority(RefProc(s, order[i]), LeastSeen(s, order, i, RefProc(s, order[i]).bindToMe))
  }

  /** What c contributes once the first n processes of order are done. */
  ghost function Seen(s: State, order: seq<Ref>, n: nat, c: Ref): int
    requires n <= |order| && AllRegistered(s, order)
    decreases n, 0
  {
    if n == 0 then Contribution(s, c)
    else if order[n - 1] == c then AtLeast(Value(s, order, n - 1), 0)
    else Seen(s, order, n - 1, c)
  }

  ghost function LeastSeen(s: State, order: seq<Ref>, n: nat, edges: map<int, int>): int
    requires n <= |order| && AllRegistered(s, order)
    decreases n, 1
  {
    Least(PRIORITY_BACKGROUND, set pid | pid in edges :: Seen(s, order, n, Ref(pid, edges[pid])))
  }

  /** Each step of the pass on the registry is a step of the recursion. */
  lemma {:induction false} SeenIs(s: State, order: seq<Ref>, n: nat, c: Ref)
    requires n <= |order| && AllRegistered(s, order) && DistinctPids(order)
    ensures Contribution(Before(s, order, n), c) == Seen(s, order, n, c)
    decreases n, 0
  {
    hide PassOne, Value;
    if n == 0 {
      assert order[..0] == [];
    } else {
      var r := order[n - 1];
      BeforeNext(s, order, n - 1);
      SeenIs(s, order, n - 1, c);
      ValueIs(s, order, n - 1);
      PassOneFrame(Before(s, order, n - 1), r);
      assert c != r ==> Ref(c.pid, c.uid) != r;
    }
  }

  lemma BeforeNext(s: State, order: seq<Ref>, i: nat)
    requires i < |order| && AllRegistered(s, order) && DistinctPids(order)
    ensures RefRegistered(Before(s, order, i), order[i])
    ensures RefProc(Before(s, order, i), order[i]) == RefProc(s, order[i])
    ensures Before(s, order, i + 1) == PassOne(Before(s, order, i), order[i])
  {
    hide PassOne;
    var r := order[i];
    assert order[..i + 1] == order[..i] + [r];
    PassAppend(s, order[..i], [r]);
    PassFrame(s, order[..i]);
    assert r !in order[..i];
    assert [r][1..] == [];
  }

  lemma LeastIsSeen(t: State, s: State, order: seq<Ref>, n: nat, edges: map<int, int>)
    requires n <= |order| && AllRegistered(s, order)
    requires forall pid :: pid in edges ==> Contribution(t, Ref(pid, edges[pid])) == Seen(s, order, n, Ref(pid, edges[pid]))
    ensures LeastConnector(t, edges) == LeastSeen(s, order, n, edges)
  {
    hide Contribution, Seen;
    var a := set pid | pid in edges :: Contribution(t, Ref(pid, edges[pid]));
    var b := set pid | pid in edges :: Seen(s, order, n, Ref(pid, edges[pid]));
    assert a == b;
  }

  lemma {:induction false} ValueIs(s: State, order: seq<Ref>, i: nat)
    requires i < |order| && AllRegistered(s, order) && DistinctPids(order)
    ensures RefRegistered(Before(s, order, i + 1), order[i])
    ensures RefProc(Before(s, order, i + 1), order[i]).priority == Value(s, order, i)
    decreases i, 1
  {
    hide PassOne, Pass, ExtensionPriority;
    var edges := RefProc(s, order[i]).bindToMe;
    var t := Before(s, order, i);
    forall pid | pid in edges
      ensures Contribution(t, Ref(pid, edges[pid])) == Seen(s, order, i, Ref(pid, edges[pid]))
    {
      SeenIs(s, order, i, Ref(pid, edges[pid]));
    }
    LeastIsSeen(t, s, order, i, edges);
    BeforeNext(s, order, i);
    PassOneValue(t, order[i]);
  }

  /** The pass, with its writes into the registry and its re-sorting of the
      index, gives every connected extension the value of the recursion. */
  lemma PassValues(s: State, start: Ref, order: seq<Ref>, i: nat)
    requires IsPassOrder(s, start, order) && i < |order|
    ensures AllRegistered(s, order) && RefRegistered(Pass(s, order), order[i])
    ensures RefProc(Pass(s, order), order[i]).priority == Value(s, order, i)
  {
    hide Pass, Value, IsPassOrder;
    PassOrderDistinct(s, start, order);
    ValueIs(s, order, i);
    SettledAfter(s, order, i + 1, order[i]);
  }

  /** What is not updated any more has its final priority. */
  lemma SettledAfter(s: State, order: seq<Ref>, n: nat, c: Ref)
    requires n <= |order| && AllRegistered(s, order) && DistinctPids(order) && c !in order[n..]
    ensures RefRegistered(Pass(s, order), c) <==> RefRegistered(Before(s, order, n), c)
    ensures RefRegistered(Pass(s, order), c) ==> RefProc(Pass(s, order), c) == RefProc(Before(s, order, n), c)
  {
    hide PassOne;
    assert order == order[..n] + order[n..];
    PassAppend(s, order[..n], order[n..]);
    PassFrame(Before(s, order, n), order[n..]);
  }

  // ----- exactly when the documented rule holds

  /** In the final state r is 100 above its least connector, or at its own
      status priority if that is lower. */
  ghost predicate FollowsRule(s: State, order: seq<Ref>, r: Ref)
    requires RefRegistered(s, r)
  {
    && RefRegistered(Pass(s, order), r)
    && RefProc(Pass(s, order), r).priority ==
       ExtensionPriority(RefProc(s, r), LeastConnector(Pass(s, order), RefProc(s, r).bindToMe))
  }

  /** c is updated together with order[i] or after it. */
  predicate Late(order: seq<Ref>, i: nat, c: Ref)
    requires i < |order|
  {
    c in order[i..]
  }

  /** The contributions, after n processes, of the late or of the other
      connectors of order[i]. */
  ghost function Side(s: State, order: seq<Ref>, i: nat, n: nat, late: bool): set<int>
    requires i < |order| && n <= |order| && AllRegistered(s, order)
  {
    var edges := RefProc(s, order[i]).bindToMe;
    set pid | pid in edges && Late(order, i, Ref(pid, edges[pid])) == late :: Seen(s, order, n, Ref(pid, edges[pid]))
  }

  ghost function LeastOn(s: State, order: seq<Ref>, i: nat, n: nat, late: bool): int
    requires i < |order| && n <= |order| && AllRegistered(s, order)
  {
    Least(PRIORITY_BACKGROUND, Side(s, order, i, n, late))
  }

  /** What p gets on its own account. */
  function OwnPriority(p: Proc): int {
    if p.important then AtMost(StatusPriority(p), p.importantPriority) else StatusPriority(p)
  }

  /** A late connector at or above this does not matter to order[i]. */
  ghost function Bar(s: State, order: seq<Ref>, i: nat): int
    requires i < |order| && AllRegistered(s, order)
  {
    AtMost(OwnPriority(RefProc(s, order[i])) - EXTENSION_DELTA, LeastOn(s, order, i, i, false))
  }

  lemma ExtensionPriorityIs(p: Proc, m: int)
    ensures ExtensionPriority(p, m) == AtMost(OwnPriority(p), m + EXTENSION_DELTA)
  {
  }

  lemma LeastOfBoth(cap: int, a: set<int>, b: set<int>, all: set<int>)
    requires forall x :: x in all <==> x in a || x in b
    ensures Least(cap, all) == AtMost(Least(cap, a), Least(cap, b))
  {
    LeastIs(cap, all, AtMost(Least(cap, a), Least(cap, b)));
  }

  lemma LeastSplits(s: State, order: seq<Ref>, i: nat, n: nat)
    requires i < |order| && n <= |order| && AllRegistered(s, order)
    ensures LeastSeen(s, order, n, RefProc(s, order[i]).bindToMe) ==
            AtMost(LeastOn(s, order, i, n, true), LeastOn(s, order, i, n, false))
  {
    hide Seen, Late;
    var edges := RefProc(s, order[i]).bindToMe;
    var all := set pid | pid in edges :: Seen(s, order, n, Ref(pid, edges[pid]));
    var a, b := Side(s, order, i, n, true), Side(s, order, i, n, false);
    forall x
      ensures x in all <==> x in a || x in b
    {
      if x in all {
        var pid :| pid in edges && x == Seen(s, order, n, Ref(pid, edges[pid]));
        assert x in (if Late(order, i, Ref(pid, edges[pid])) then a else b);
      }
    }
    LeastOfBoth(PRIORITY_BACKGROUND, a, b, all);
  }

  /** A connector that is not late contributes the same from position i on. */
  lemma {:induction false} SeenEarly(s: State, order: seq<Ref>, i: nat, n: nat, c: Ref)
    requires i <= n <= |order| && i < |order| && AllRegistered(s, order) && !Late(order, i, c)
    ensures Seen(s, order, n, c) == Seen(s, order, i, c)
    decreases n
  {
    hide Value;
    if i < n {
      SeenEarly(s, order, i, n - 1, c);
      assert order[n - 1] == order[i..][n - 1 - i];
    }
  }

  lemma EarlySame(s: State, order: seq<Ref>, i: nat)
    requires i < |order| && AllRegistered(s, order)
    ensures LeastOn(s, order, i, |order|, false) == LeastOn(s, order, i, i, false)
  {
    hide Seen, Late;
    var edges := RefProc(s, order[i]).bindToMe;
    forall pid | pid in edges && !Late(order, i, Ref(pid, edges[pid]))
      ensures Seen(s, order, |order|, Ref(pid, edges[pid])) == Seen(s, order, i, Ref(pid, edges[pid]))
    {
      SeenEarly(s, order, i, |order|, Ref(pid, edges[pid]));
    }
    assert Side(s, order, i, |order|, false) == Side(s, order, i, i, false);
  }

  /** When order[i] is updated its late connectors still have the priority they
      had before the pass. */
  lemma {:induction false} SeenLate(s: State, order: seq<Ref>, i: nat, n: nat, c: Ref)
    requires n <= i < |order| && AllRegistered(s, order) && DistinctPids(order) && Late(order, i, c)
    ensures Seen(s, order, n, c) == Contribution(s, c)
    decreases n
  {
    hide Value;
    if n > 0 {
      SeenLate(s, order, i, n - 1, c);
      var k :| 0 <= k < |order[i..]| && order[i..][k] == c;
      assert order[i + k] == c && order[n - 1].pid != order[i + k].pid;
    }
  }

  lemma LateSame(s: State, order: seq<Ref>, i: nat)
    requires i < |order| && AllRegistered(s, order) && DistinctPids(order)
    ensures LeastOn(s, order, i, i, true) == LeastOn(s, order, i, 0, true)
  {
    hide Seen, Late;
    var edges := RefProc(s, order[i]).bindToMe;
    forall pid | pid in edges && Late(order, i, Ref(pid, edges[pid]))
      ensures Seen(s, order, i, Ref(pid, edges[pid])) == Seen(s, order, 0, Ref(pid, edges[pid]))
    {
      SeenLate(s, order, i, i, Ref(pid, edges[pid]));
      SeenLate(s, order, i, 0, Ref(pid, edges[pid]));
    }
    assert Side(s, order, i, i, true) == Side(s, order, i, 0, true);
  }

  lemma FinalLeast(s: State, order: seq<Ref>, edges: map<int, int>)
    requires AllRegistered(s, order) && DistinctPids(order)
    ensures LeastConnector(Pass(s, order), edges) == LeastSeen(s, order, |order|, edges)
  {
    hide Pass, Seen, Contribution;
    assert order[..|order|] == order;
    forall pid | pid in edges
      ensures Contribution(Pass(s, order), Ref(pid, edges[pid])) == Seen(s, order, |order|, Ref(pid, edges[pid]))
    {
      SeenIs(s, order, |order|, Ref(pid, edges[pid]));
    }
    LeastIsSeen(Pass(s, order), s, order, |order|, edges);
  }

  /** The rule holds for an extension after the pass if and only if the least of
      its late connectors is the same before and after, or was and is out of
      the way: not below what the extension gets from its own status and from
      the connectors settled before it. All of it is read off the state before
      the pass. */
  lemma RuleIff(s: State, start: Ref, order: seq<Ref>, i: nat)
    requires IsPassOrder(s, start, order) && i < |order|
    ensures AllRegistered(s, order)
    ensures var was, will := LeastOn(s, order, i, 0, true), LeastOn(s, order, i, |order|, true);
      FollowsRule(s, order, order[i]) <==> was == will || (Bar(s, order, i) <= was && Bar(s, order, i) <= will)
  {
    hide Pass, IsPassOrder, LeastOn, Seen, LeastSeen, LeastConnector, ExtensionPriority, OwnPriority;
    PassOrderDistinct(s, start, order);
    PassValues(s, start, order, i);
    var p := RefProc(s, order[i]);
    FinalLeast(s, order, p.bindToMe);
    LeastSplits(s, order, i, i);
    LeastSplits(s, order, i, |order|);
    EarlySame(s, order, i);
    LateSame(s, order, i);
    ExtensionPriorityIs(p, LeastSeen(s, order, i, p.bindToMe));
    ExtensionPriorityIs(p, LeastSeen(s, order, |order|, p.bindToMe));
  }
}
