/** ReclaimPriorityManager in its own form: bundle objects shared between the
    account maps and the index, updated in place by the handlers. Every handler
    is proved to take the step the state machine takes. */
module Manager {
  import opened Collections
  import opened RegistryTypes
  import opened BundleIndex
  import opened BindGraph
  import opened Registry
  import opened RegistryInvariant
  import opened ExtensionPass
  import opened BundleObjects
  import opened KillOnce

  // ----- the index, through pointers

  /** BundleInfoPtrCmp. */
  predicate PtrLess(p: BundleInfo, q: BundleInfo)
    reads p, q
  {
    if p.uid == q.uid then false
    else if p.priority != q.priority then p.priority < q.priority
    else p.uid < q.uid
  }

  /** The comparator is transitive exactly as far as uids identify objects. */
  lemma PtrLessTransitiveIff(p: BundleInfo, q: BundleInfo, r: BundleInfo)
    requires PtrLess(p, q) && PtrLess(q, r)
    ensures PtrLess(p, r) <==> p.uid != r.uid
  {
  }

  function PtrLowerBound(index: seq<BundleInfo>, b: BundleInfo): (k: nat)
    reads index, b
    ensures k <= |index|
  {
    if index == [] || !PtrLess(index[0], b) then 0 else 1 + PtrLowerBound(index[1..], b)
  }

  function PtrErase(index: seq<BundleInfo>, b: BundleInfo): seq<BundleInfo>
    reads index, b
  {
    var k := PtrLowerBound(index, b);
    if k < |index| && !PtrLess(b, index[k]) then index[..k] + index[k + 1..] else index
  }

  function PtrInsert(index: seq<BundleInfo>, b: BundleInfo): seq<BundleInfo>
    reads index, b
  {
    var k := PtrLowerBound(index, b);
    if k < |index| && !PtrLess(b, index[k]) then index else index[..k] + [b] + index[k..]
  }

  /** The uids of the objects. */
  function Names(index: seq<BundleInfo>): (r: seq<int>)
    ensures |r| == |index| && forall i :: 0 <= i < |r| ==> r[i] == index[i].uid
  {
    seq(|index|, i requires 0 <= i < |index| => index[i].uid)
  }

  /** bs has the keys of the objects. */
  ghost predicate KeysOf(index: seq<BundleInfo>, b: BundleInfo, bs: Bundles)
    reads index, b
  {
    Key(bs, b.uid) == b.priority && forall x :: x in index ==> Key(bs, x.uid) == x.priority
  }

  lemma {:induction false} LowerBoundThroughPointers(index: seq<BundleInfo>, b: BundleInfo, bs: Bundles)
    requires KeysOf(index, b, bs)
    ensures PtrLowerBound(index, b) == LowerBound(bs, Names(index), b.uid)
    decreases |index|
  {
    if index != [] {
      assert index[0] in index;
      LowerBoundThroughPointers(index[1..], b, bs);
      assert Names(index[1..]) == Names(index)[1..];
    }
  }

  lemma EraseThroughPointers(index: seq<BundleInfo>, b: BundleInfo, bs: Bundles)
    requires KeysOf(index, b, bs)
    ensures Names(PtrErase(index, b)) == Erase(bs, Names(index), b.uid)
    ensures forall x :: x in PtrErase(index, b) ==> x in index
  {
    hide LowerBound, PtrLowerBound, Names;
    LowerBoundThroughPointers(index, b, bs);
    var k := PtrLowerBound(index, b);
    if k < |index| {
      assert index[k] in index;
      NamesCut(index, k);
    }
  }

  lemma NamesCut(index: seq<BundleInfo>, k: nat)
    requires k < |index|
    ensures Names(index[..k] + index[k + 1..]) == Names(index)[..k] + Names(index)[k + 1..]
  {
  }

  lemma InsertThroughPointers(index: seq<BundleInfo>, b: BundleInfo, bs: Bundles)
    requires KeysOf(index, b, bs)
    ensures Names(PtrInsert(index, b)) == Insert(bs, Names(index), b.uid)
    ensures forall x :: x in PtrInsert(index, b) ==> x in index || x == b
  {
    hide LowerBound, PtrLowerBound, Names, Splice;
    LowerBoundThroughPointers(index, b, bs);
    var k := PtrLowerBound(index, b);
    NamesSplice(index, k, b);
    if k < |index| { assert index[k] in index; }
  }

  lemma NamesSplice(index: seq<BundleInfo>, k: nat, b: BundleInfo)
    requires k <= |index|
    ensures Names(index[..k] + [b] + index[k..]) == Splice(Names(index), k, b.uid)
  {
  }

  // ----- list facts for the loops

  lemma {:induction false} LiveTargetsAppend(s: State, edges: map<int, int>, a: seq<int>, k: int)
    requires k in edges && forall i :: 0 <= i < |a| ==> a[i] in edges
    ensures LiveTargets(s, edges, a + [k]) ==
            LiveTargets(s, edges, a) + if RefRegistered(s, Ref(k, edges[k])) then [Ref(k, edges[k])] else []
    decreases |a|
  {
    if a == [] {
      assert a + [k] == [k] && [k][1..] == [];
    } else {
      assert (a + [k])[0] == a[0] && (a + [k])[1..] == a[1..] + [k];
      LiveTargetsAppend(s, edges, a[1..], k);
    }
  }

  lemma {:induction false} UnvisitedAppend(a: seq<Ref>, r: Ref, visited: set<int>)
    ensures Unvisited(a + [r], visited) == Unvisited(a, visited) + if r.pid in visited then [] else [r]
    decreases |a|
  {
    var last := if r.pid in visited then [] else [r];
    if a == [] {
      assert a + [r] == [r] && [r][1..] == [];
      assert Unvisited([], visited) == [];
    } else {
      var head, rest := if a[0].pid in visited then [] else [a[0]], Unvisited(a[1..], visited);
      assert (a + [r])[0] == a[0] && (a + [r])[1..] == a[1..] + [r];
      UnvisitedAppend(a[1..], r, visited);
      assert head + (rest + last) == (head + rest) + last;
    }
  }

  /** One more bind target. */
  lemma TargetsStep(s: State, edges: map<int, int>, a: seq<int>, k: int, visited: set<int>)
    requires k in edges && forall i :: 0 <= i < |a| ==> a[i] in edges
    ensures var r := Ref(k, edges[k]);
      Unvisited(LiveTargets(s, edges, a + [k]), visited) ==
      Unvisited(LiveTargets(s, edges, a), visited)
      + if k !in visited && RefRegistered(s, r) then [r] else []
  {
    hide LiveTargets, Unvisited, RefRegistered;
    var r := Ref(k, edges[k]);
    var live := LiveTargets(s, edges, a);
    LiveTargetsAppend(s, edges, a, k);
    if RefRegistered(s, r) {
      UnvisitedAppend(live, r, visited);
    } else {
      assert live + [] == live;
      assert Unvisited(live, visited) + [] == Unvisited(live, visited);
    }
  }

  /** Each object is filed under its own uid. */
  ghost predicate Filed(m: map<int, BundleInfo>) {
    forall u :: u in m ==> m[u].uid == u
  }

  type Accounts = map<int, map<int, BundleInfo>>

  /** Every bundle object registered under the account of its uid, by uid. */
  ghost function FlatOf(accounts: Accounts): map<int, BundleInfo> {
    map a, u | a in accounts && u in accounts[a] && AccountOf(u) == a :: u := accounts[a][u]
  }

  lemma FlatMember(accounts: Accounts, u: int)
    ensures u in FlatOf(accounts) <==> AccountOf(u) in accounts && u in accounts[AccountOf(u)]
    ensures u in FlatOf(accounts) ==> FlatOf(accounts)[u] == accounts[AccountOf(u)][u]
  {
  }

  /** Two registries that differ in uid only. */
  lemma FlatWithout(accounts: Accounts, accounts': Accounts, uid: int)
    requires forall u :: u in FlatOf(accounts') <==> u in FlatOf(accounts) && u != uid
    requires forall u :: u in FlatOf(accounts') ==> FlatOf(accounts')[u] == FlatOf(accounts)[u]
    ensures FlatOf(accounts') == FlatOf(accounts) - {uid}
  {
  }

  lemma FlatRemove(accounts: Accounts, uid: int)
    requires AccountOf(uid) in accounts && uid in accounts[AccountOf(uid)]
    ensures var rest := accounts[AccountOf(uid)] - {uid};
      && FlatOf(accounts[AccountOf(uid) := rest]) == FlatOf(accounts) - {uid}
      && (rest == map[] ==> FlatOf(accounts - {AccountOf(uid)}) == FlatOf(accounts) - {uid})
  {
    var a := AccountOf(uid);
    var rest := accounts[a] - {uid};
    var one, two := accounts[a := rest], accounts - {a};
    forall u
      ensures u in FlatOf(one) <==> u in FlatOf(accounts) && u != uid
      ensures u in FlatOf(one) ==> FlatOf(one)[u] == FlatOf(accounts)[u]
    {
      FlatMember(one, u);
      FlatMember(accounts, u);
    }
    FlatWithout(accounts, one, uid);
    if rest == map[] {
      forall u
        ensures u in FlatOf(two) <==> u in FlatOf(accounts) && u != uid
        ensures u in FlatOf(two) ==> FlatOf(two)[u] == FlatOf(accounts)[u]
      {
        FlatMember(two, u);
        FlatMember(accounts, u);
        assert AccountOf(u) == a && u in accounts[a] && u != uid ==> u in rest;
      }
      FlatWithout(accounts, two, uid);
    }
  }

  lemma FlatEmpty()
    ensures FlatOf(map[]) == map[]
  {
  }

  function BundlesOf(accounts: Accounts, a: int): map<int, BundleInfo> {
    if a in accounts then accounts[a] else map[]
  }

  /** A bundle entered under the account of its uid. */
  lemma FlatAdd(accounts: Accounts, b: BundleInfo)
    ensures var a := AccountOf(b.uid);
      var bundles := BundlesOf(accounts, a);
      FlatOf(accounts[a := bundles[b.uid := b]]) == FlatOf(accounts)[b.uid := b]
  {
    var a := AccountOf(b.uid);
    var bundles := BundlesOf(accounts, a);
    var one := accounts[a := bundles[b.uid := b]];
    forall u
      ensures u in FlatOf(one) <==> u in FlatOf(accounts) || u == b.uid
      ensures u in FlatOf(one) ==> FlatOf(one)[u] == if u == b.uid then b else FlatOf(accounts)[u]
    {
      FlatMember(one, u);
      FlatMember(accounts, u);
    }
    FlatExtended(accounts, one, b);
  }

  lemma FlatExtended(accounts: Accounts, accounts': Accounts, b: BundleInfo)
    requires forall u :: u in FlatOf(accounts') <==> u in FlatOf(accounts) || u == b.uid
    requires forall u :: u in FlatOf(accounts') ==>
      FlatOf(accounts')[u] == if u == b.uid then b else FlatOf(accounts)[u]
    ensures FlatOf(accounts') == FlatOf(accounts)[b.uid := b]
  {
  }

  class ReclaimPriorityManager {
    /** account id -> (bundle uid -> bundle) */
    var accounts: Accounts
    var index: seq<BundleInfo>
    var timers: seq<Timer>
    ghost var nextId: nat

    // ----- the state the object stands for

    predicate Has(u: int)
      reads `accounts
    {
      AccountOf(u) in accounts && u in accounts[AccountOf(u)]
    }

    function Get(u: int): BundleInfo
      requires Has(u)
      reads `accounts
    {
      accounts[AccountOf(u)][u]
    }

    ghost function Flat(): map<int, BundleInfo>
      reads `accounts
    {
      FlatOf(accounts)
    }

    /** The index points to the objects of m. */
    ghost predicate Linked(m: map<int, BundleInfo>)
      reads `index
    {
      forall x :: x in index ==> x.uid in m && m[x.uid] == x
    }

    /** The state, were m the registered objects. */
    ghost function View(m: map<int, BundleInfo>): State
      reads `index, `timers, `nextId, m.Values
    {
      State(map u | u in m :: m[u].Value(), Names(index), timers, nextId)
    }

    /** Bundles are registered under the account of their uid, each under its
        own uid, and the index points to registered objects only. */
    ghost predicate Shape()
      reads this
    {
      AccountsOk() && Filed(Flat()) && Linked(Flat())
    }

    ghost predicate AccountsOk()
      reads `accounts
    {
      forall a, u :: a in accounts && u in accounts[a] ==> AccountOf(u) == a
    }

    ghost function Abs(): State
      reads this, Flat().Values
    {
      View(Flat())
    }

    ghost predicate Valid()
      reads this, Flat().Values
    {
      Shape() && Inv(Abs())
    }

    lemma FlatIs(u: int)
      requires Shape()
      ensures u in Flat() <==> Has(u)
      ensures Has(u) ==> Flat()[u] == Get(u) && Get(u).uid == u && Get(u) in Flat().Values
    {
      FlatMember(accounts, u);
    }

    lemma FlatGet()
      requires Shape()
      ensures forall u :: u in Flat() ==> Has(u) && Flat()[u] == Get(u)
    {
      forall u | u in Flat()
        ensures Has(u) && Flat()[u] == Get(u)
      {
        FlatIs(u);
      }
    }

    // ----- UpdateBundlePriority

    method UpdateBundlePriority(b: BundleInfo, ghost m: map<int, BundleInfo>)
      requires Filed(m) && Linked(m) && b.uid in m && m[b.uid] == b
      modifies this`index, b`priority
      ensures Linked(m)
      ensures View(m) == Resort(old(View(m)), b.uid)
    {
      hide Erase, Insert, PtrErase, PtrInsert, BundlePriority;
      ghost var before := View(m);
      EraseThroughPointers(index, b, before.bundles);
      index := PtrErase(index, b);
      b.UpdatePriority();
      ghost var bundles := before.bundles[b.uid := Refreshed(before.bundles[b.uid])];
      assert b.Value() == Refreshed(before.bundles[b.uid]);
      forall u | u in m && u != b.uid
        ensures m[u].Value() == before.bundles[u]
      {
        assert m[u] != b;
      }
      assert View(m).bundles == bundles;
      InsertThroughPointers(index, b, bundles);
      index := PtrInsert(index, b);
    }
  
    /** Writes a process into its slot. */
    method WriteProc(b: BundleInfo, pid: int, p: Proc, ghost m: map<int, BundleInfo>)
      requires Filed(m) && b.uid in m && m[b.uid] == b
      modifies b`procs
      ensures View(m) == Put(old(View(m)), b.uid, pid, p)
    {
      ghost var before := View(m);
      b.procs := b.procs[pid := p];
      assert b.Value() == WithProc(before.bundles[b.uid], pid, p);
      forall u | u in m && u != b.uid
        ensures m[u].Value() == before.bundles[u]
      {
        assert m[u] != b;
      }
    }

    /** Writes a process and brings its bundle and the index up to date. */
    method AssignProc(b: BundleInfo, pid: int, p: Proc, ghost m: map<int, BundleInfo>)
      requires Filed(m) && Linked(m) && b.uid in m && m[b.uid] == b
      modifies this`index, b`priority, b`procs
      ensures Linked(m)
      ensures View(m) == Assign(old(View(m)), b.uid, pid, p)
    {
      hide Resort, Put, View;
      WriteProc(b, pid, p, m);
      UpdateBundlePriority(b, m);
    }

    // ----- lookups

    /** IsProcExist, for a pid that is not IGNORE_PID. */
    predicate Exists(r: Ref)
      reads `accounts, if Has(r.uid) then {Get(r.uid)} else {}
    {
      Has(r.uid) && r.pid in Get(r.uid).procs
    }

    function Look(r: Ref): Proc
      requires Exists(r)
      reads `accounts, if Has(r.uid) then {Get(r.uid)} else {}
    {
      Get(r.uid).procs[r.pid]
    }

    lemma LookIs(r: Ref)
      requires Shape()
      ensures Exists(r) <==> RefRegistered(Abs(), r)
      ensures Exists(r) ==> Look(r) == RefProc(Abs(), r)
    {
      FlatIs(r.uid);
    }

    lemma BundleIs(u: int)
      requires Shape()
      ensures Has(u) <==> u in Abs().bundles
      ensures Has(u) ==> Abs().bundles[u] == Get(u).Value()
      ensures Abs().timers == timers && Abs().index == Names(index) && Abs().nextId == nextId
    {
      FlatIs(u);
    }

    /** IsProcExist and FindProcByPid in one. */
    method FindProc(r: Ref, ghost s: State) returns (p: Option<Proc>)
      requires Shape() && s == Abs()
      ensures p == if RefRegistered(s, r) then Some(RefProc(s, r)) else None
    {
      hide View;
      LookIs(r);
      p := if Exists(r) then Some(Look(r)) else None;
    }

    // ----- the extension pass

    /** The inner loop of GetConnectedExtensionProc. */
    method PushTargets(p: Proc, visited: set<int>, ghost s: State) returns (more: seq<Ref>)
      requires Shape() && s == Abs()
      ensures more == Unvisited(Targets(s, p), visited)
    {
      hide Ascending, LiveTargets, Unvisited, View, RefRegistered, RefProc;
      more := [];
      var edges := p.bindFromMe;
      var pids := Ascending(edges.Keys);
      assert forall i :: 0 <= i < |pids| ==> pids[i] in pids;
      NoTargets(s, edges, visited);
      for i := 0 to |pids|
        invariant more == Unvisited(LiveTargets(s, edges, pids[..i]), visited)
      {
        var k := pids[i];
        var target := FindProc(Ref(k, edges[k]), s);
        TargetsStep(s, edges, pids[..i], k, visited);
        assert pids[..i + 1] == pids[..i] + [k];
        if k !in visited && target.Some? {
          more := more + [Ref(k, edges[k])];
        }
      }
      assert pids[..|pids|] == pids;
    }

    /** The body of the outer loop of GetConnectedExtensionProc. */
    method TakeOne(w: Worklist, ghost s: State, ghost start: Ref, ghost rounds: nat) returns (next: Worklist)
      requires Shape() && s == Abs()
      requires w.queue != [] && RefRegistered(s, w.queue[0]) && Traverse(GraphOf(s), start, rounds) == w
      ensures next == Traverse(GraphOf(s), start, rounds + 1)
      ensures forall r :: r in next.queue ==> r in w.queue || RefRegistered(s, r)
    {
      hide Traverse, GraphOf, Targets, Unvisited, View, RefRegistered, RefProc;
      var r, rest := w.queue[0], w.queue[1..];
      assert w.queue == [r] + rest;
      NextRound(s, start, rounds, w);
      next := w.(queue := rest, popped := w.popped + {r});
      if r.pid !in w.visited {
        var found := FindProc(r, s);
        var p := found.value;
        if p.extension {
          next := next.(found := next.found + [r], visited := next.visited + {r.pid});
        }
        var more := PushTargets(p, next.visited, s);
        PushedExist(s, p, next.visited, more);
        next := next.(queue := rest + more);
      }
    }

    /** GetConnectedExtensionProc. The queue holds names instead of copies: the
        registry does not change during the walk. */
    method GetConnectedExtensionProc(start: Ref, ghost s: State) returns (vec: seq<Ref>, ghost rounds: nat)
      requires Shape() && s == Abs() && RefRegistered(s, start) && Terminates(GraphOf(s), start)
      ensures Traverse(GraphOf(s), start, rounds).queue == []
      ensures vec == Traverse(GraphOf(s), start, rounds).found
      ensures DistinctPids(vec) && forall r :: r in vec ==> Connected(s, start, r)
      ensures UniqueProcs(s) ==> forall r :: Connected(s, start, r) ==> r in vec
    {
      hide Traverse, GraphOf, View, RefRegistered, DistinctPids, Connected, UniqueProcs;
      ghost var last: nat :| Traverse(GraphOf(s), start, last).queue == [];
      FirstRound(GraphOf(s), start);
      var w := Worklist([start], {}, [], {});
      rounds := 0;
      while w.queue != []
        invariant Traverse(GraphOf(s), start, rounds) == w
        invariant forall r :: r in w.queue ==> RefRegistered(s, r)
        invariant rounds <= last
        decreases last - rounds
      {
        if rounds == last { assert false; }
        assert w.queue[0] in w.queue;
        w := TakeOne(w, s, start, rounds);
        rounds := rounds + 1;
      }
      vec := w.found;
      CollectedExact(s, start, rounds);
    }

    /** The inner loop of CalculateExtensionProcPrio. */
    method LeastRawConnector(edges: map<int, int>, ghost s: State) returns (least: int)
      requires Shape() && s == Abs()
      ensures least == ConnectorKey(s, edges, Ascending(edges.Keys), PRIORITY_BACKGROUND)
    {
      hide Ascending, View, RefRegistered, RefProc, ConnectorKey;
      least := PRIORITY_BACKGROUND;
      var pids := Ascending(edges.Keys);
      assert forall i :: 0 <= i < |pids| ==> pids[i] in pids;
      ghost var key := ConnectorKey(s, edges, pids, PRIORITY_BACKGROUND);
      assert pids[0..] == pids;
      for i := 0 to |pids|
        invariant ConnectorKey(s, edges, pids[i..], least) == key
      {
        var connector := FindProc(Ref(pids[i], edges[pids[i]]), s);
        ConnectorKeyStep(s, edges, pids, i, least);
        if connector.None? {
          least := 0;
        } else if connector.value.priority < least {
          least := connector.value.priority;
        }
      }
      ConnectorKeyEnd(s, edges, least);
    }

    /** The body of the outer loop of CalculateExtensionProcPrio. */
    method InsertExtension(entries: seq<Entry>, r: Ref, ghost s: State, ghost order: seq<Ref>) returns (more: seq<Entry>)
      requires AllRegistered(s, order) && EntriesOf(s, entries, order)
      requires RefRegistered(s, r) && Shape() && s == Abs()
      ensures EntriesOf(s, more, PassInsert(s, order, r))
    {
      hide View, EntriesOf, PassInsert, EntryInsert, ConnectorKey;
      var p := FindProc(r, s);
      var least := LeastRawConnector(p.value.bindToMe, s);
      EntryInsertIs(s, entries, order, Entry(r, least));
      more := EntryInsert(entries, Entry(r, least));
    }

    /** CalculateExtensionProcPrio. */
    method CalculateExtensionProcPrio(vec: seq<Ref>, ghost s: State) returns (order: seq<Ref>)
      requires AllRegistered(s, vec) && Shape() && s == Abs()
      ensures order == PassSort(s, vec)
    {
      hide View, EntriesOf, PassInsert, PassSort, RefRegistered;
      var entries: seq<Entry> := [];
      assert vec[..0] == [];
      PassSortStart(s);
      for i := 0 to |vec|
        invariant EntriesOf(s, entries, PassSort(s, vec[..i]))
      {
        entries := InsertExtension(entries, vec[i], s, PassSort(s, vec[..i]));
        PassSortStep(s, vec, i);
      }
      assert vec[..|vec|] == vec;
      EntriesRefs(s, entries, PassSort(s, vec));
      order := RefsOf(entries);
    }

    /** The inner loop of SetConnectExtensionProcPrio. */
    method LeastFlooredConnector(edges: map<int, int>, ghost s: State) returns (least: int)
      requires Shape() && s == Abs()
      ensures least == LeastConnector(s, edges)
    {
      hide Ascending, View, RefRegistered, RefProc, LeastConnector;
      least := PRIORITY_BACKGROUND;
      var pids := Ascending(edges.Keys);
      for i := 0 to |pids|
        invariant 0 <= least <= PRIORITY_BACKGROUND
        invariant forall k :: 0 <= k < i && pids[k] in edges ==> least <= Contribution(s, Ref(pids[k], edges[pids[k]]))
        invariant least == PRIORITY_BACKGROUND ||
                  exists pid :: pid in edges && Contribution(s, Ref(pid, edges[pid])) == least
      {
        var pid := pids[i];
        assert pid in pids;
        var connector := FindProc(Ref(pid, edges[pid]), s);
        if connector.None? {
          least := 0;
        } else {
          var priority := if connector.value.priority < 0 then 0 else connector.value.priority;
          if priority < least {
            least := priority;
          }
        }
      }
      forall pid | pid in edges
        ensures least <= Contribution(s, Ref(pid, edges[pid]))
      {
        assert pid in pids;
      }
      LeastConnectorIs(s, edges, least);
    }

    /** The priority SetConnectExtensionProcPrio computes for one process. */
    method ConnectedPriority(p: Proc, ghost s: State) returns (priority: int)
      requires Shape() && s == Abs()
      ensures priority == ExtensionPriority(p, LeastConnector(s, p.bindToMe))
    {
      hide LeastConnector, StatusPriority, View;
      var least := LeastFlooredConnector(p.bindToMe, s);
      priority := GetPriorityByProcStatus(p);
      if least + EXTENSION_DELTA <= priority {
        priority := least + EXTENSION_DELTA;
      }
      if p.important && priority > p.importantPriority {
        priority := p.importantPriority;
      }
    }

    /** The body of the loop of SetConnectExtensionProcPrio. */
    method SetOneExtensionPrio(r: Ref, ghost m: map<int, BundleInfo>)
      requires Shape() && Exists(r) && m == Flat()
      modifies this`index, Flat().Values
      ensures Shape() && Flat() == m
      ensures RefRegistered(old(Abs()), r) && Abs() == PassOne(old(Abs()), r)
    {
      hide Assign, ExtensionPriority, LeastConnector, View;
      LookIs(r);
      FlatIs(r.uid);
      var p := Look(r);
      var priority := ConnectedPriority(p, Abs());
      AssignProc(Get(r.uid), r.pid, p.(priority := priority), m);
    }

    /** SetConnectExtensionProcPrio. */
    method SetConnectExtensionProcPrio(order: seq<Ref>, ghost m: map<int, BundleInfo>)
      requires Shape() && m == Flat() && AllRegistered(Abs(), order)
      modifies this`index, Flat().Values
      ensures Shape() && Flat() == m
      ensures Abs() == Pass(old(Abs()), order)
    {
      hide View, Pass, PassOne;
      ghost var s := Abs();
      assert order[..0] == [];
      PassStart(s);
      for i := 0 to |order|
        invariant Shape() && Flat() == m
        invariant Abs() == Pass(s, order[..i])
      {
        PassNext(s, order, i);
        LookIs(order[i]);
        if Exists(order[i]) {
          SetOneExtensionPrio(order[i], m);
        }
      }
      assert order[..|order|] == order;
    }

    /** UpdatePriorityByProcForExtension. */
    method UpdatePriorityByProcForExtension(start: Ref, ghost m: map<int, BundleInfo>)
      requires Shape() && m == Flat() && Exists(start) && Terminates(GraphOf(Abs()), start)
      modifies this`index, Flat().Values
      ensures Shape() && Flat() == m
      ensures Completes(Spread(old(Abs()), start), Abs())
    {
      hide View, Pass, PassSort, IsPassOrder, Traverse, GraphOf;
      ghost var s := Abs();
      LookIs(start);
      var vec, rounds := GetConnectedExtensionProc(start, s);
      CollectedOrder(s, start, rounds);
      if |vec| == 0 {
        PassSortStart(s);
        PassStart(s);
        return;
      }
      var order := CalculateExtensionProcPrio(vec, s);
      SetConnectExtensionProcPrio(order, m);
    }

    // ----- status updates

    method SetTimers(timers: seq<Timer>, ghost m: map<int, BundleInfo>)
      modifies this`timers
      ensures this.timers == timers
      ensures View(m) == old(View(m)).(timers := timers)
    {
      this.timers := timers;
    }

    /** UpdatePriorityByProcStatus. */
    method UpdatePriorityByProcStatus(r: Ref, ghost m: map<int, BundleInfo>)
      requires Shape() && m == Flat() && Exists(r) && RefRegistered(Abs(), r)
      requires WalkEnds(UpdateByStatus(Abs(), r.uid, r.pid))
      modifies this`index, Flat().Values
      ensures Shape() && Flat() == m
      ensures Completes(UpdateByStatus(old(Abs()), r.uid, r.pid), Abs())
    {
      hide Assign, IsPassOrder, Terminates, GraphOf, AdjustedPriority, View;
      LookIs(r);
      FlatIs(r.uid);
      BundleIs(r.uid);
      var b := Get(r.uid);
      if b.priority < PRIORITY_FOREGROUND {
        return;
      }
      var p := b.procs[r.pid];
      if p.render {
        return;
      }
      p := AdjustByStatus(p);
      RefStays(Abs(), r, p);
      AssignProc(b, r.pid, p, m);
      LookIs(r);
      UpdatePriorityByProcForExtension(r, m);
    }

    /** The handler changeProcMapping_ lists for the reason. */
    method RecordReason(reason: Reason, r: Ref, time: int, ghost m: map<int, BundleInfo>) returns (q: Proc)
      requires Shape() && m == Flat() && Exists(r) && RefRegistered(Abs(), r)
      modifies this`timers, Flat().Values
      ensures Shape() && Flat() == m && Exists(r)
      ensures RefRegistered(Abs(), r) && q == RefProc(Abs(), r)
      ensures Abs() == AfterRecord(old(Abs()), reason, r.uid, r.pid, time)
    {
      hide View, Recorded;
      LookIs(r);
      FlatIs(r.uid);
      BundleIs(r.uid);
      var p := Look(r);
      q := Recorded(p, reason);
      if FinishesStart(p, reason, time) {
        SetTimers(WithoutTimers(timers, r.pid), m);
        q := q.(starting := false);
      }
      WriteProc(Get(r.uid), r.pid, q, m);
      LookIs(r);
    }

    /** HandleUpdateProcess. */
    method HandleUpdateProcess(reason: Reason, r: Ref, time: int, ghost m: map<int, BundleInfo>)
      requires Shape() && m == Flat() && Exists(r) && RefRegistered(Abs(), r)
      requires WalkEnds(HandleUpdate(Abs(), reason, r.uid, r.pid, time))
      modifies this`index, this`timers, Flat().Values
      ensures Shape() && Flat() == m
      ensures Completes(HandleUpdate(old(Abs()), reason, r.uid, r.pid, time), Abs())
    {
      hide View, UpdateByStatus, WalkEnds, Completes, AfterReason, AfterRecord;
      var q := RecordReason(reason, r, time, m);
      LookIs(r);
      if Skipped(q, time) {
        Finished(Abs());
        return;
      }
      UpdatePriorityByProcStatus(r, m);
    }

    // ----- the handlers

    /** HandleAbilityStart. */
    method AbilityStartHandler(r: Ref, time: int, ghost m: map<int, BundleInfo>)
      requires Shape() && m == Flat() && Exists(r) && RefRegistered(Abs(), r)
      modifies this`index, this`timers, Flat().Values
      ensures Shape() && Flat() == m
      ensures Abs() == HandleAbilityStart(old(Abs()), r.uid, r.pid, time)
    {
      hide View, Assign;
      LookIs(r);
      FlatIs(r.uid);
      BundleIs(r.uid);
      var p := Look(r);
      if MayStartAbility(p) {
        p := p.(priority := PRIORITY_FOREGROUND, startTime := time, starting := true);
        AssignSlot(Abs(), r.uid, r.pid, p);
        AssignProc(Get(r.uid), r.pid, p, m);
        SetTimers(WithoutTimers(timers, r.pid), m);
        SetTimers(timers + [Timer(r.pid, r.uid)], m);
      }
    }

    /** HandleApplicationSuspend. */
    method HandleApplicationSuspend(uid: int, ghost m: map<int, BundleInfo>)
      requires Shape() && m == Flat() && Has(uid) && uid in Abs().bundles
      modifies this`index, Flat().Values
      ensures Shape() && Flat() == m
      ensures Abs() == HandleSuspend(old(Abs()), uid)
    {
      hide View, Resort;
      FlatIs(uid);
      SuspendAll(Get(uid), m);
      UpdateBundlePriority(Get(uid), m);
    }

    /** The loop of HandleApplicationSuspend. */
    method SuspendAll(b: BundleInfo, ghost m: map<int, BundleInfo>)
      requires Filed(m) && b.uid in m && m[b.uid] == b
      modifies b`procs
      ensures var s := old(View(m));
        View(m) == s.(bundles := s.bundles[b.uid := s.bundles[b.uid].(procs := SuspendedProcs(s.bundles[b.uid].procs))])
    {
      hide Ascending, Increasing, SuspendedProcs;
      ghost var s := View(m);
      var pids := Ascending(b.procs.Keys);
      ghost var start, done: set<int> := b.procs, {};
      SuspendNone(start);
      for i := 0 to |pids|
        invariant b.procs == SuspendedSome(start, done)
        invariant forall pid :: pid in done <==> pid in pids[..i]
      {
        var pid := pids[i];
        NextAscending(pids, i);
        SuspendStep(start, done, pid);
        b.procs := b.procs[pid := b.procs[pid].(priority := PRIORITY_SUSPEND)];
        done := done + {pid};
      }
      assert pids[..|pids|] == pids;
      SuspendAllDone(start, done);
      forall u | u in m && u != b.uid
        ensures m[u].Value() == s.bundles[u]
      {
        assert m[u] != b;
      }
    }

    /** RemoveBundleById, then RemoveOsAccountById when that left the account empty. */
    method RemoveBundle(uid: int)
      requires AccountsOk() && Has(uid)
      modifies this`accounts
      ensures AccountsOk()
      ensures Flat() == old(Flat()) - {uid}
    {
      hide FlatOf;
      var a := AccountOf(uid);
      var rest := accounts[a] - {uid};
      FlatRemove(accounts, uid);
      if |rest| == 0 {
        accounts := accounts - {a};
      } else {
        accounts := accounts[a := rest];
      }
    }

    /** The process is taken out of its bundle. */
    method RemoveProc(b: BundleInfo, pid: int, ghost m: map<int, BundleInfo>)
      requires Filed(m) && b.uid in m && m[b.uid] == b
      modifies b`procs
      ensures b.procs == old(b.procs) - {pid}
      ensures var s := old(View(m));
        View(m) == s.(bundles := s.bundles[b.uid := WithoutProc(s.bundles[b.uid], pid)])
    {
      ghost var s := View(m);
      b.procs := b.procs - {pid};
      forall u | u in m && u != b.uid
        ensures m[u].Value() == s.bundles[u]
      {
        assert m[u] != b;
      }
    }

    /** A bundle without processes leaves the account map and the index. */
    method DropBundle(b: BundleInfo, ghost m: map<int, BundleInfo>)
      requires Shape() && m == Flat() && b.uid in m && m[b.uid] == b && IndexAgrees(Abs())
      modifies this`accounts, this`index
      ensures Shape() && Flat().Values <= old(Flat().Values)
      ensures var s := old(Abs());
        Abs() == s.(bundles := s.bundles - {b.uid}, index := Erase(s.bundles, s.index, b.uid))
    {
      hide Erase, PtrErase, Sorted, FlatOf;
      ghost var s := Abs();
      FlatGet();
      FlatIs(b.uid);
      EraseThroughPointers(index, b, s.bundles);
      EraseTarget(s.bundles, s.index, b.uid);
      index := PtrErase(index, b);
      NamesMembers(index);
      label erased:
      RemoveBundle(b.uid);
      forall u | u in m
        ensures m[u].Value() == s.bundles[u]
      {
        assert m[u] == old@erased(Get(u));
      }
      assert Abs().bundles == s.bundles - {b.uid};
    }

    /** HandleTerminateProcess. */
    method HandleTerminateProcess(r: Ref, ghost m: map<int, BundleInfo>)
      requires Shape() && m == Flat() && Exists(r) && RefRegistered(Abs(), r) && IndexAgrees(Abs())
      modifies this`index, this`accounts, Flat().Values
      ensures Shape() && Flat().Values <= old(Flat().Values)
      ensures Abs() == HandleTerminate(old(Abs()), r.uid, r.pid)
    {
      hide View, Resort, Erase, IndexAgrees;
      LookIs(r);
      FlatIs(r.uid);
      BundleIs(r.uid);
      var removed := Look(r).priority;
      var b := Get(r.uid);
      SameKeyIndex(Abs(), r.uid, WithoutProc(Abs().bundles[r.uid], r.pid));
      RemoveProc(b, r.pid, m);
      if |b.procs| == 0 {
        DropBundle(b, m);
      } else if removed <= b.priority {
        UpdateBundlePriority(b, m);
      }
    }

    /** AddBundleInfoToSet for a bundle that has just been made. */
    method EnterIndex(b: BundleInfo, ghost m: map<int, BundleInfo>)
      requires Filed(m) && Linked(m) && b.uid !in m
      modifies this`index, this`nextId
      ensures Filed(m[b.uid := b]) && Linked(m[b.uid := b])
      ensures View(m[b.uid := b]) == Entered(old(View(m)), b.uid, b.Value())
    {
      hide Insert, PtrInsert;
      ghost var s, m' := View(m), m[b.uid := b];
      ghost var bundles := s.bundles[b.uid := b.Value()];
      assert forall x :: x in index ==> x != b;
      InsertThroughPointers(index, b, bundles);
      index := PtrInsert(index, b);
      nextId := nextId + 1;
      assert View(m').bundles == bundles;
    }

    /** AddBundleToOsAccount, making the account when there is none. */
    method FileBundle(b: BundleInfo)
      requires AccountsOk()
      modifies this`accounts
      ensures AccountsOk()
      ensures Flat() == old(Flat())[b.uid := b]
    {
      hide FlatOf;
      var a := AccountOf(b.uid);
      FlatAdd(accounts, b);
      accounts := accounts[a := BundlesOf(accounts, a)[b.uid := b]];
    }

    /** The rest of HandleCreateProcess once the bundle is in the index. */
    method AddCreated(b: BundleInfo, e: Event, ghost m: map<int, BundleInfo>)
      requires e.Create? && Filed(m) && Linked(m) && b.uid == e.uid && b.uid in m && m[b.uid] == b
      modifies this`index, b`priority, b`procs
      ensures Linked(m)
      ensures var t := old(View(m));
        View(m) == if e.pid in t.bundles[e.uid].procs then Resort(t, e.uid)
                   else Assign(t, e.uid, e.pid, CreatedProc(e))
    {
      hide Resort, View, Put;
      AddNew(b, CreatedProc(e), m);
      UpdateBundlePriority(b, m);
    }

    /** AddProc on a registered bundle: a pid that is there is left alone. */
    method AddNew(b: BundleInfo, p: Proc, ghost m: map<int, BundleInfo>)
      requires Filed(m) && b.uid in m && m[b.uid] == b
      modifies b`procs
      ensures var t := old(View(m));
        b.uid in t.bundles && View(m) == if p.pid in t.bundles[b.uid].procs then t else Put(t, b.uid, p.pid, p)
    {
      ghost var before := View(m);
      b.AddProc(p);
      assert b.Value() == if p.pid in before.bundles[b.uid].procs then before.bundles[b.uid]
                          else WithProc(before.bundles[b.uid], p.pid, p);
      forall u | u in m && u != b.uid
        ensures m[u].Value() == before.bundles[u]
      {
        assert m[u] != b;
      }
      if p.pid in before.bundles[b.uid].procs {
        MapEqual(View(m).bundles, before.bundles);
      }
    }

    /** HandleCreateProcess for an application process. */
    method HandleCreateProcess(e: Event)
      requires e.Create? && Shape()
      modifies this, Flat().Values
      ensures Shape() && fresh(Flat().Values - old(Flat().Values))
      ensures Abs() == HandleCreate(old(Abs()), e)
    {
      hide Resort, Assign, Entered, CreatedProc, FlatOf;
      ghost var m := Flat();
      FlatIs(e.uid);
      BundleIs(e.uid);
      if Has(e.uid) {
        AddCreated(Get(e.uid), e, m);
      } else {
        ghost var s := Abs();
        FlatGet();
        var b := new BundleInfo(e.uid, PRIORITY_BACKGROUND, e.now, nextId);
        forall u | u in m
          ensures m[u].Value() == s.bundles[u]
        {
          assert m[u] == Get(u);
        }
        assert View(m).bundles == s.bundles;
        assert View(m) == s;
        EnterIndex(b, m);
        m := m[e.uid := b];
        assert View(m) == WithBundle(s, e);
        AddCreated(b, e, m);
        assert View(m) == HandleCreate(s, e);
        FileBundle(b);
        assert View(m) == HandleCreate(s, e);
      }
    }

    /** UpdateExtensionStatusForCaller. */
    method UpdateExtensionStatusForCaller(e: Event, ghost m: map<int, BundleInfo>)
      requires e.Bind? && Shape() && m == Flat()
      modifies Flat().Values
      ensures Shape() && Flat() == m
      ensures Abs() == BindCaller(old(Abs()), e)
    {
      hide View, FlatOf;
      LookIs(e.caller);
      if !Exists(e.caller) {
        return;
      }
      FlatIs(e.caller.uid);
      var p := Look(e.caller);
      if e.bind {
        p := p.(bindFromMe := p.bindFromMe[e.target.pid := e.target.uid]);
      } else {
        p := p.(bindFromMe := p.bindFromMe - {e.target.pid});
      }
      WriteProc(Get(e.caller.uid), e.caller.pid, p, m);
    }

    /** HandleExtensionProcess. */
    method HandleExtensionProcess(e: Event, ghost m: map<int, BundleInfo>)
      requires e.Bind? && Shape() && m == Flat() && WalkEnds(HandleBind(Abs(), e))
      modifies this`index, this`timers, Flat().Values
      ensures Shape() && Flat() == m
      ensures Completes(HandleBind(old(Abs()), e), Abs())
    {
      hide View, FlatOf, HandleUpdate, BindCaller, WalkEnds, Completes, BoundTarget;
      UpdateExtensionStatusForCaller(e, m);
      ghost var t := Abs();
      Finished(t);
      LookIs(e.target);
      if !Exists(e.target) {
        return;
      }
      FlatIs(e.target.uid);
      BundleIs(e.target.uid);
      var p, b := Look(e.target), Get(e.target.uid);
      if p.priority <= PRIORITY_KILLABLE_SYSTEM || b.priority <= PRIORITY_KILLABLE_SYSTEM || e.killable {
        return;
      }
      WriteProc(b, e.target.pid, BoundTarget(p, e), m);
      LookIs(e.target);
      HandleUpdateProcess(if e.bind then BindExtension else UnbindExtension, e.target, e.time, m);
    }

    /** CheckAbilityStartCompleted, when the timer at position which fires. */
    method CheckAbilityStartCompleted(which: nat, ghost m: map<int, BundleInfo>)
      requires Shape() && m == Flat() && which < |Abs().timers| && WalkEnds(HandleStartTimer(Abs(), which))
      modifies this`index, this`timers, Flat().Values
      ensures Shape() && Flat() == m
      ensures Completes(HandleStartTimer(old(Abs()), which), Abs())
    {
      hide View, FlatOf, UpdateByStatus, WalkEnds, Completes;
      BundleIs(0);
      var r := Ref(timers[which].pid, timers[which].uid);
      SetTimers(timers[..which] + timers[which + 1..], m);
      Finished(Abs());
      LookIs(r);
      if !Exists(r) || !Look(r).starting {
        return;
      }
      FlatIs(r.uid);
      WriteProc(Get(r.uid), r.pid, Look(r).(starting := false), m);
      LookIs(r);
      UpdatePriorityByProcStatus(r, m);
    }

    /** SetBundleState(..., STATE_WAITING_FOR_KILL). */
    method SetWaiting(uid: int, ghost m: map<int, BundleInfo>)
      requires Shape() && m == Flat()
      modifies Flat().Values
      ensures Shape() && Flat() == m
      ensures Abs() == HandleMark(old(Abs()), uid)
    {
      hide FlatOf;
      FlatIs(uid);
      if Has(uid) {
        ghost var s := Abs();
        var b := Get(uid);
        b.waiting := true;
        forall u | u in m && u != uid
          ensures m[u].Value() == s.bundles[u]
        {
          assert m[u] != b;
        }
        assert Abs().bundles == HandleMark(s, uid).bundles;
      }
    }

    /** Reset. */
    method Clear()
      modifies this`accounts, this`index
      ensures Shape() && Flat() == map[]
      ensures Abs() == old(Abs()).(bundles := map[], index := [])
    {
      accounts, index := map[], [];
      assert Flat() == map[];
    }

    // ----- FilterDiedProcess

    /** The inner loop: dead processes go, living ones lose their dead edges. */
    method SweepProcs(b: BundleInfo, alive: set<int>, ghost m: map<int, BundleInfo>)
      requires Filed(m) && b.uid in m && m[b.uid] == b
      modifies b`procs
      ensures b.procs == SweptProcs(old(b.procs), alive)
      ensures var s := old(View(m));
        View(m) == s.(bundles := s.bundles[b.uid := s.bundles[b.uid].(procs := SweptProcs(s.bundles[b.uid].procs, alive))])
    {
      hide Ascending, Increasing, SweptProcs, SweptSome, SweptProc;
      ghost var s := View(m);
      var pids := Ascending(b.procs.Keys);
      ghost var start, done: set<int> := b.procs, {};
      SweptNone(start, alive);
      for i := 0 to |pids|
        invariant b.procs == SweptSome(start, done, alive)
        invariant forall pid :: pid in done <==> pid in pids[..i]
      {
        var pid := pids[i];
        NextAscending(pids, i);
        SweptStep(start, done, pid, alive);
        if pid !in alive {
          b.procs := b.procs - {pid};
        } else {
          b.procs := b.procs[pid := SweptProc(b.procs[pid], alive)];
        }
        done := done + {pid};
      }
      assert pids[..|pids|] == pids;
      SweptAllDone(start, done, alive);
      forall u | u in m && u != b.uid
        ensures m[u].Value() == s.bundles[u]
      {
        assert m[u] != b;
      }
    }

    /** RemoveBundleById: the account stays, even when it is empty. */
    method ForgetBundle(uid: int)
      requires AccountsOk() && Has(uid)
      modifies this`accounts
      ensures AccountsOk()
      ensures Flat() == old(Flat()) - {uid}
    {
      hide FlatOf;
      FlatRemove(accounts, uid);
      accounts := accounts[AccountOf(uid) := accounts[AccountOf(uid)] - {uid}];
    }

    /** The bundle at position k leaves the index and the account map. */
    method Unlink(k: nat)
      requires Shape() && k < |index| && index[k].uid !in Names(index[..k] + index[k + 1..])
      modifies this`accounts, this`index
      ensures Shape() && Flat() == old(Flat()) - {old(index[k].uid)}
      ensures index == old(index[..k] + index[k + 1..])
      ensures var s := old(Abs());
        Abs() == s.(bundles := s.bundles - {s.index[k]}, index := s.index[..k] + s.index[k + 1..])
    {
      hide FlatOf;
      ghost var s, m := Abs(), Flat();
      FlatGet();
      var b := index[k];
      assert b in index;
      FlatIs(b.uid);
      index := index[..k] + index[k + 1..];
      NamesMembers(index);
      forall u | u in m
        ensures m[u].Value() == s.bundles[u]
      {
        assert m[u] == Get(u);
      }
      label removed:
      ForgetBundle(b.uid);
      forall u | u in m
        ensures m[u].Value() == s.bundles[u]
      {
        assert m[u] == old@removed(Get(u));
      }
      assert Names(index) == s.index[..k] + s.index[k + 1..];
      assert Abs().bundles == s.bundles - {b.uid};
    }

    /** The body of the outer loop, for the bundle at position k of the index. */
    method SweepOne(k: nat, alive: set<int>, ghost m: map<int, BundleInfo>) returns (kept: bool)
      requires Shape() && m == Flat() && k < |index| && IndexAgrees(Abs()) && Abs().index[k] in Abs().bundles
      modifies this`accounts, this`index, Flat().Values
      ensures Shape() && Flat().Values <= old(Flat().Values)
      ensures kept <==> Survives(old(Abs()).bundles[old(Abs()).index[k]], alive)
      ensures index == if kept then old(index) else old(index[..k] + index[k + 1..])
      ensures Abs() == SweptAt(old(Abs()), k, alive)
    {
      hide FlatOf, Sorted, View, SweptProcs, Survives;
      ghost var s := Abs();
      var b := index[k];
      assert b in index;
      FlatIs(b.uid);
      BundleIs(b.uid);
      NoDuplicates(s, k);
      SweepProcs(b, alive, m);
      SweptEmptyIff(s.bundles[b.uid], alive);
      kept := |b.procs| != 0;
      if !kept {
        assert Names(index[..k] + index[k + 1..]) == s.index[..k] + s.index[k + 1..];
        Unlink(k);
      }
    }

    /** FilterDiedProcess. */
    method FilterDiedProcess(alive: set<int>)
      requires Valid()
      modifies this`accounts, this`index, Flat().Values
      ensures Valid() && Flat().Values <= old(Flat().Values)
      ensures Abs() == HandleSweep(old(Abs()), alive)
    {
      hide FlatOf, View, Inv, HandleSweep, Survives, SweptProcs, SweptAt, Swept, IndexAgrees;
      ghost var s := Abs();
      SweepKeeps(s, alive);
      SweepStart(s, alive);
      var k := 0;
      ghost var n := 0;
      BundleIs(0);
      while k < |index|
        invariant Shape() && Flat().Values <= old(Flat().Values)
        invariant 0 <= k <= |index| && n <= |s.index| && |index| - k == |s.index| - n
        invariant Swept(s, Abs(), n, k, alive)
        decreases |index| - k
      {
        ghost var t := Abs();
        BundleIs(0);
        SweptHere(s, t, n, k, alive);
        var kept := SweepOne(k, alive, Flat());
        SweptNext(s, t, n, k, alive);
        BundleIs(0);
        n := n + 1;
        if kept {
          k := k + 1;
        }
      }
      BundleIs(0);
      SweptEnd(s, Abs(), k, alive);
    }

    // ----- one event

    constructor ()
      ensures Valid() && Abs() == EMPTY && Flat() == map[]
    {
      accounts, index, timers, nextId := map[], [], [], 0;
      new;
      EmptyIsValid();
    }

    lemma EmptyIsValid()
      requires accounts == map[] && index == [] && timers == [] && nextId == 0
      ensures Valid() && Abs() == EMPTY && Flat() == map[]
    {
      hide Inv, FlatOf;
      FlatEmpty();
      assert Shape();
      ghost var bundles := View(map[]).bundles;
      assert bundles.Keys == {};
      assert Abs() == EMPTY;
      EmptyInv();
    }

    /** The requests about a single process, behind the checks of
        UpdateReclaimPriorityInner. */
    method HandleRequest(e: Event, ghost m: map<int, BundleInfo>)
      requires Valid() && m == Flat() && WalkEnds(Handle(Abs(), e))
      requires e.Terminate? || e.Suspend? || e.Update?
      modifies this, Flat().Values
      ensures Shape() && Flat().Values <= old(Flat().Values)
      ensures Completes(Handle(old(Abs()), e), Abs())
    {
      hide View, FlatOf, HandleTerminate, HandleSuspend, HandleUpdate, WalkEnds, Completes, IndexAgrees, BundleOk, DistinctIds;
      var r := Ref(e.pid, e.uid);
      LookIs(r);
      BundleIs(e.uid);
      Finished(Abs());
      if !Has(e.uid) || (!Exists(r) && (!e.Suspend? || e.pid != IGNORE_PID)) {
        return;
      }
      if Get(e.uid).priority <= PRIORITY_KILLABLE_SYSTEM {
        return;
      }
      match e {
        case Suspend(uid, _) =>
          HandleApplicationSuspend(uid, m);
          Finished(Abs());
        case Terminate(_, _) =>
          HandleTerminateProcess(r, m);
          Finished(Abs());
        case Update(reason, _, _, time) =>
          HandleUpdateProcess(reason, r, time, m);
      }
    }

    /** The events that neither add nor remove bundles by way of a request. */
    method HandleOther(e: Event, ghost m: map<int, BundleInfo>)
      requires Valid() && m == Flat() && WalkEnds(Handle(Abs(), e))
      requires e.RenderCreate? || e.Bind? || e.AbilityStart? || e.StartTimer? || e.CreateTimer? || e.MarkWaiting?
      modifies this`index, this`timers, Flat().Values
      ensures Shape() && Flat() == m
      ensures Completes(Handle(old(Abs()), e), Abs())
    {
      hide View, FlatOf, HandleBind, HandleAbilityStart, HandleStartTimer, UpdateByStatus, HandleMark, WalkEnds, Completes, Inv;
      Finished(Abs());
      BundleIs(0);
      match e {
        case RenderCreate(_, _) =>
        case Bind(_, _, _, _, _) =>
          HandleExtensionProcess(e, m);
        case AbilityStart(uid, pid, time) =>
          LookIs(Ref(pid, uid));
          if Exists(Ref(pid, uid)) {
            AbilityStartHandler(Ref(pid, uid), time, m);
            Finished(Abs());
          }
        case StartTimer(which) =>
          if which < |timers| {
            CheckAbilityStartCompleted(which, m);
          }
        case CreateTimer(uid, pid) =>
          LookIs(Ref(pid, uid));
          if Exists(Ref(pid, uid)) {
            UpdatePriorityByProcStatus(Ref(pid, uid), m);
          }
        case MarkWaiting(uid) =>
          SetWaiting(uid, m);
          Finished(Abs());
      }
    }

    /** One event, under the lock: the object takes the step of the state
        machine and is valid again, provided the walk over the bind graph, if the
        event starts one, comes to an end. */
    method Take(e: Event)
      requires Valid() && WalkEnds(Handle(Abs(), e))
      modifies this, Flat().Values
      ensures Valid() && fresh(Flat().Values - old(Flat().Values))
      ensures Step(old(Abs()), e, Abs())
    {
      hide View, FlatOf, HandleCreate, HandleSweep, WalkEnds, Inv;
      ghost var s := Abs();
      Finished(s);
      match e {
        case Create(_, _, _, _, _) =>
          HandleCreateProcess(e);
        case Sweep(alive) =>
          FilterDiedProcess(alive);
        case Reset =>
          Clear();
        case Terminate(_, _) => HandleRequest(e, Flat());
        case Suspend(_, _) => HandleRequest(e, Flat());
        case Update(_, _, _, _) => HandleRequest(e, Flat());
        case _ => HandleOther(e, Flat());
      }
      StepKeeps(s, e, Abs());
    }

    /** GetOneKillableBundle. */
    method GetOneKillableBundle(minPrio: int) returns (victim: Option<BundleInfo>)
      requires Valid() && IndexInMap(Abs())
      ensures victim.Some? ==> victim.value.uid in Flat() && Flat()[victim.value.uid] == victim.value
      ensures Victim(Abs(), minPrio) == match victim case None => None case Some(b) => Some(b.uid)
    {
      hide View, Inv, Scan;
      ghost var s := Abs();
      BundleIs(0);
      victim := None;
      var n := |index|;
      while n > 0
        invariant 0 <= n <= |index| && Victim(s, minPrio) == Scan(s, n, minPrio)
        decreases n
      {
        var b := index[n - 1];
        assert b in index;
        FlatIs(b.uid);
        BundleIs(b.uid);
        ScanStep(s, n, minPrio);
        assert s.index[n - 1] == b.uid;
        assert s.bundles[b.uid] == b.Value();
        if b.priority < minPrio {
          return;
        }
        if !b.waiting {
          return Some(b);
        }
        n := n - 1;
      }
      ScanEnd(s, minPrio);
    }
  }

  lemma NoTargets(s: State, edges: map<int, int>, visited: set<int>)
    ensures Unvisited(LiveTargets(s, edges, []), visited) == []
  {
  }

  lemma FirstRound(g: Graph, start: Ref)
    ensures Traverse(g, start, 0) == Worklist([start], {}, [], {})
  {
  }

  /** One round of the walk, in terms of the process at the head of the queue. */
  lemma NextRound(s: State, start: Ref, rounds: nat, w: Worklist)
    requires Traverse(GraphOf(s), start, rounds) == w && w.queue != [] && RefRegistered(s, w.queue[0])
    ensures var n, rest, next := w.queue[0], w.queue[1..], Traverse(GraphOf(s), start, rounds + 1);
      && (n.pid in w.visited ==> next == Worklist(rest, w.visited, w.found, w.popped + {n}))
      && (n.pid !in w.visited ==>
            var p := RefProc(s, n);
            var visited := if p.extension then w.visited + {n.pid} else w.visited;
            next == Worklist(rest + Unvisited(Targets(s, p), visited), visited,
                             if p.extension then w.found + [n] else w.found, w.popped + {n}))
  {
    hide GraphOf, Targets, Unvisited;
    GraphAt(s, w.queue[0]);
  }

  /** What the graph says about a registered process. */
  lemma GraphAt(s: State, r: Ref)
    requires RefRegistered(s, r)
    ensures r in GraphOf(s).extensions <==> RefProc(s, r).extension
    ensures Children(GraphOf(s), r) == Targets(s, RefProc(s, r))
  {
    assert r in LiveRefs(s);
  }

  lemma PushedExist(s: State, p: Proc, visited: set<int>, more: seq<Ref>)
    requires more == Unvisited(Targets(s, p), visited)
    ensures forall r :: r in more ==> RefRegistered(s, r)
  {
    hide Ascending;
    var targets := Targets(s, p);
    forall r | r in more
      ensures RefRegistered(s, r)
    {
      assert r in targets;
      var i :| 0 <= i < |targets| && targets[i] == r;
    }
  }

  lemma LeastConnectorIs(s: State, edges: map<int, int>, m: int)
    requires m <= PRIORITY_BACKGROUND
    requires forall pid :: pid in edges ==> m <= Contribution(s, Ref(pid, edges[pid]))
    requires m == PRIORITY_BACKGROUND || exists pid :: pid in edges && Contribution(s, Ref(pid, edges[pid])) == m
    ensures m == LeastConnector(s, edges)
  {
    LeastIs(PRIORITY_BACKGROUND, set pid | pid in edges :: Contribution(s, Ref(pid, edges[pid])), m);
  }

  // ----- ProcInfoSet

  /** A process with the priority CalculateExtensionProcPrio gave its copy. */
  datatype Entry = Entry(ref: Ref, key: int)

  /** ProcInfoCmpByPriority. */
  predicate EntryLess(a: Entry, b: Entry) {
    if a.ref.pid == b.ref.pid then false
    else if a.key != b.key then a.key < b.key
    else a.ref.pid < b.ref.pid
  }

  function EntryInsert(entries: seq<Entry>, e: Entry): seq<Entry> {
    if entries == [] || EntryLess(e, entries[0]) then [e] + entries
    else [entries[0]] + EntryInsert(entries[1..], e)
  }

  ghost predicate EntryOf(s: State, e: Entry, r: Ref) {
    e.ref == r && RefRegistered(s, r) && e.key == PassKey(s, r)
  }

  ghost predicate EntriesOf(s: State, entries: seq<Entry>, order: seq<Ref>) {
    |entries| == |order| && forall i :: 0 <= i < |entries| ==> EntryOf(s, entries[i], order[i])
  }

  lemma {:induction false} EntryInsertIs(s: State, entries: seq<Entry>, order: seq<Ref>, e: Entry)
    requires AllRegistered(s, order) && EntriesOf(s, entries, order) && EntryOf(s, e, e.ref)
    ensures EntriesOf(s, EntryInsert(entries, e), PassInsert(s, order, e.ref))
    decreases |entries|
  {
    hide PassKey;
    if entries != [] {
      assert EntryOf(s, entries[0], order[0]);
      assert EntryLess(e, entries[0]) == PassLess(s, e.ref, order[0]);
      if !EntryLess(e, entries[0]) {
        forall i | 0 <= i < |entries| - 1
          ensures EntryOf(s, entries[1..][i], order[1..][i])
        {
          assert EntryOf(s, entries[i + 1], order[i + 1]);
        }
        EntryInsertIs(s, entries[1..], order[1..], e);
      }
    }
  }

  lemma ConnectorKeyStep(s: State, edges: map<int, int>, pids: seq<int>, i: nat, least: int)
    requires i < |pids| && forall k :: 0 <= k < |pids| ==> pids[k] in edges
    ensures var r := Ref(pids[i], edges[pids[i]]);
      ConnectorKey(s, edges, pids[i..], least) ==
      ConnectorKey(s, edges, pids[i + 1..], if RefRegistered(s, r) then AtMost(RefProc(s, r).priority, least) else 0)
  {
    assert pids[i..][0] == pids[i] && pids[i..][1..] == pids[i + 1..];
  }

  lemma ConnectorKeyEnd(s: State, edges: map<int, int>, least: int)
    ensures ConnectorKey(s, edges, [], least) == least
  {
  }

  lemma PassSortStart(s: State)
    ensures PassSort(s, []) == [] && EntriesOf(s, [], [])
  {
  }

  function RefsOf(entries: seq<Entry>): seq<Ref> {
    seq(|entries|, i requires 0 <= i < |entries| => entries[i].ref)
  }

  lemma EntriesRefs(s: State, entries: seq<Entry>, order: seq<Ref>)
    requires EntriesOf(s, entries, order)
    ensures RefsOf(entries) == order
  {
    assert forall i :: 0 <= i < |entries| ==> EntryOf(s, entries[i], order[i]);
  }

  lemma PassSortStep(s: State, vec: seq<Ref>, i: nat)
    requires AllRegistered(s, vec) && i < |vec|
    ensures PassSort(s, vec[..i + 1]) == PassInsert(s, PassSort(s, vec[..i]), vec[i])
  {
    assert vec[..i + 1][..i] == vec[..i];
  }

  /** GetPriorityByProcStatus. */
  method GetPriorityByProcStatus(p: Proc) returns (priority: int)
    ensures priority == StatusPriority(p)
  {
    priority := PRIORITY_UNKNOWN;
    if !p.status.foreground && p.status.hasUI {
      priority := PRIORITY_BACKGROUND;
    }
    if p.status.foreground {
      priority := PRIORITY_FOREGROUND;
    } else if p.status.visible {
      priority := PRIORITY_VISIBLE;
    } else if p.status.suspendDelay {
      priority := PRIORITY_BG_SUSPEND_DELAY;
    } else if p.status.backgroundRunning || p.status.eventStart {
      priority := PRIORITY_BG_PERCEIVED;
    } else if p.status.distConnected {
      priority := PRIORITY_BG_DIST_DEVICE;
    }
    if p.important {
      if p.priority >= p.importantPriority {
        priority := p.importantPriority;
      }
    }
  }

  lemma PassStart(s: State)
    ensures Pass(s, []) == s
  {
  }

  lemma PassNext(s: State, order: seq<Ref>, i: nat)
    requires i < |order|
    ensures var t := Pass(s, order[..i]);
      Pass(s, order[..i + 1]) == if RefRegistered(t, order[i]) then PassOne(t, order[i]) else t
  {
    hide PassOne, RefRegistered;
    var t := Pass(s, order[..i]);
    assert order[..i + 1] == order[..i] + [order[i]];
    PassAppend(s, order[..i], [order[i]]);
    assert [order[i]][1..] == [];
    PassStart(if RefRegistered(t, order[i]) then PassOne(t, order[i]) else t);
  }

  /** r is an extension reachable from start through live bind-from-me edges. */
  ghost predicate Connected(s: State, start: Ref, r: Ref) {
    r in GraphOf(s).extensions && Reachable(GraphOf(s), start, r)
  }

  /** A walk that is over has collected connected extensions, and with unique
      pids all of them. */
  lemma CollectedExact(s: State, start: Ref, rounds: nat)
    requires RefRegistered(s, start) && Traverse(GraphOf(s), start, rounds).queue == []
    ensures var found := Traverse(GraphOf(s), start, rounds).found;
      && DistinctPids(found)
      && (forall r :: r in found ==> Connected(s, start, r))
      && (UniqueProcs(s) ==> forall r :: Connected(s, start, r) ==> r in found)
  {
    hide Traverse, Targets, Reachable;
    var g := GraphOf(s);
    SoundAlways(g, start, rounds);
    if UniqueProcs(s) {
      GraphWellFormed(s);
      UniqueGraph(s);
      assert start in g.nodes;
      TraversalIsExact(g, start, rounds);
    }
  }

  lemma RefStays(s: State, r: Ref, p: Proc)
    requires RefRegistered(s, r)
    ensures RefRegistered(Assign(s, r.uid, r.pid, p), r)
  {
    AssignSlot(s, r.uid, r.pid, p);
  }

  method SetPriorityAtMost(p: Proc, cap: int) returns (q: Proc)
    ensures q == p.(priority := AtMost(p.priority, cap))
  {
    q := p;
    if p.priority > cap {
      q := p.(priority := cap);
    }
  }

  /** The middle of UpdatePriorityByProcStatus. */
  method AdjustByStatus(p: Proc) returns (q: Proc)
    ensures q == p.(priority := AdjustedPriority(p))
  {
    q := p;
    if q.status.foreground {
      q := SetPriorityAtMost(q, PRIORITY_FOREGROUND);
    } else if !q.extension {
      q := q.(priority := PRIORITY_BACKGROUND);
    }
    if q.status.visible {
      q := SetPriorityAtMost(q, PRIORITY_VISIBLE);
    }
    if q.status.suspendDelay {
      q := SetPriorityAtMost(q, PRIORITY_BG_SUSPEND_DELAY);
    } else if q.status.backgroundRunning || q.status.eventStart {
      q := SetPriorityAtMost(q, PRIORITY_BG_PERCEIVED);
    } else if q.status.distConnected {
      q := SetPriorityAtMost(q, PRIORITY_BG_DIST_DEVICE);
    }
    if q.important {
      q := SetPriorityAtMost(q, q.importantPriority);
    }
  }

  lemma Finished(s: State)
    ensures Completes(Done(s), s) && WalkEnds(Done(s))
  {
  }

  /** procs with the given pids suspended. */
  function SuspendedSome(procs: map<int, Proc>, done: set<int>): map<int, Proc> {
    map pid | pid in procs :: if pid in done then procs[pid].(priority := PRIORITY_SUSPEND) else procs[pid]
  }

  lemma SuspendNone(procs: map<int, Proc>)
    ensures SuspendedSome(procs, {}) == procs
  {
  }

  lemma SuspendStep(procs: map<int, Proc>, done: set<int>, pid: int)
    requires pid in procs && pid !in done
    ensures pid in SuspendedSome(procs, done) && SuspendedSome(procs, done)[pid] == procs[pid]
    ensures SuspendedSome(procs, done + {pid}) ==
            SuspendedSome(procs, done)[pid := procs[pid].(priority := PRIORITY_SUSPEND)]
  {
  }

  lemma SuspendAllDone(procs: map<int, Proc>, done: set<int>)
    requires forall pid :: pid in procs ==> pid in done
    ensures SuspendedSome(procs, done) == SuspendedProcs(procs)
  {
    var a, b := SuspendedSome(procs, done), SuspendedProcs(procs);
    assert a.Keys == b.Keys;
    assert forall pid :: pid in a ==> pid in procs && a[pid] == b[pid];
  }

  lemma NamesMembers(index: seq<BundleInfo>)
    ensures forall x :: x in index ==> x.uid in Names(index)
  {
    forall x | x in index
      ensures x.uid in Names(index)
    {
      var i :| 0 <= i < |index| && index[i] == x;
      assert Names(index)[i] == x.uid;
    }
  }

  // ----- the sweep, bundle by bundle and process by process

  function SweptProc(p: Proc, alive: set<int>): Proc {
    p.(bindToMe := LiveEdges(p.bindToMe, alive), bindFromMe := LiveEdges(p.bindFromMe, alive))
  }

  function SweptSome(procs: map<int, Proc>, done: set<int>, alive: set<int>): map<int, Proc> {
    map pid | pid in procs && (pid in done ==> pid in alive) ::
      if pid in done then SweptProc(procs[pid], alive) else procs[pid]
  }

  lemma SweptNone(procs: map<int, Proc>, alive: set<int>)
    ensures SweptSome(procs, {}, alive) == procs
  {
  }

  lemma SweptStep(procs: map<int, Proc>, done: set<int>, pid: int, alive: set<int>)
    requires pid in procs && pid !in done
    ensures pid in SweptSome(procs, done, alive) && SweptSome(procs, done, alive)[pid] == procs[pid]
    ensures SweptSome(procs, done + {pid}, alive) ==
            if pid in alive then SweptSome(procs, done, alive)[pid := SweptProc(procs[pid], alive)]
            else SweptSome(procs, done, alive) - {pid}
  {
    hide SweptProc;
  }

  lemma SweptAllDone(procs: map<int, Proc>, done: set<int>, alive: set<int>)
    requires forall pid :: pid in procs ==> pid in done
    ensures SweptSome(procs, done, alive) == SweptProcs(procs, alive)
  {
    hide LiveEdges;
    var a, b := SweptSome(procs, done, alive), SweptProcs(procs, alive);
    assert forall pid :: pid in a <==> pid in b;
    assert forall pid :: pid in a ==> pid in procs && a[pid] == b[pid];
  }

  lemma SweptEmptyIff(b: Bundle, alive: set<int>)
    ensures SweptProcs(b.procs, alive) == map[] <==> !Survives(b, alive)
  {
    var rest := SweptProcs(b.procs, alive);
    if Survives(b, alive) {
      var pid :| pid in b.procs && pid in alive;
      assert pid in rest;
    }
    if rest.Keys != {} {
      var pid := AnyOf(rest.Keys);
      assert pid in b.procs && pid in alive;
    }
  }

  /** The state after the bundle at position k of the index has been swept. */
  function SweptAt(s: State, k: nat, alive: set<int>): State
    requires k < |s.index| && s.index[k] in s.bundles
  {
    var u := s.index[k];
    if Survives(s.bundles[u], alive) then
      s.(bundles := s.bundles[u := s.bundles[u].(procs := SweptProcs(s.bundles[u].procs, alive))])
    else
      s.(bundles := s.bundles - {u}, index := s.index[..k] + s.index[k + 1..])
  }

  lemma NoDuplicates(s: State, k: nat)
    requires IndexAgrees(s) && k < |s.index|
    ensures s.index[k] !in s.index[..k] + s.index[k + 1..]
  {
  }

  /** Halfway through the sweep of s: the first n bundles of its index are
      swept, k of them survived, and t is the state so far. */
  ghost predicate Swept(s: State, t: State, n: nat, k: nat, alive: set<int>) {
    && Inv(s) && n <= |s.index| && k <= |t.index|
    && t.timers == s.timers && t.nextId == s.nextId
    && IndexAgrees(t)
    && t.index[k..] == s.index[n..]
    && t.index[..k] == SweptIndex(s.bundles, s.index[..n], alive)
    && (forall u :: u in t.bundles <==> u in s.bundles && (u in s.index[..n] ==> Survives(s.bundles[u], alive)))
    && (forall u :: u in t.bundles ==>
          t.bundles[u] == if u in s.index[..n] then s.bundles[u].(procs := SweptProcs(s.bundles[u].procs, alive))
                          else s.bundles[u])
  }

  lemma SweepStart(s: State, alive: set<int>)
    requires Inv(s)
    ensures Swept(s, s, 0, 0, alive)
  {
    hide Survives, SweptProcs;
    assert s.index[..0] == [] && s.index[0..] == s.index;
  }

  lemma SweptHere(s: State, t: State, n: nat, k: nat, alive: set<int>)
    requires Swept(s, t, n, k, alive) && k < |t.index|
    ensures n < |s.index| && t.index[k] == s.index[n] && t.index[k] in t.bundles && IndexAgrees(t)
    ensures t.bundles[t.index[k]] == s.bundles[s.index[n]]
  {
    hide Survives, SweptProcs, SweptIndex, Sorted;
    assert t.index[k] == t.index[k..][0] && s.index[n] == s.index[n..][0];
    assert t.index[k] in t.index;
    FirstOccurrence(s, n);
  }

  lemma FirstOccurrence(s: State, n: nat)
    requires Inv(s) && n < |s.index|
    ensures s.index[n] !in s.index[..n] && s.index[n] in s.bundles
    ensures forall u :: u in s.index[..n + 1] <==> u in s.index[..n] || u == s.index[n]
  {
    hide BundleOk, DistinctIds;
    assert s.index[..n + 1] == s.index[..n] + [s.index[n]];
    assert s.index[n] in s.index;
    forall k | 0 <= k < n
      ensures s.index[..n][k] != s.index[n]
    {
      assert Less(s.bundles, s.index[k], s.index[n]);
    }
  }

  lemma {:induction false} SweptIndexAppend(bs: Bundles, index: seq<int>, u: int, alive: set<int>)
    ensures SweptIndex(bs, index + [u], alive) ==
            SweptIndex(bs, index, alive) + if u in bs && !Survives(bs[u], alive) then [] else [u]
    decreases |index|
  {
    hide Survives;
    var last := if u in bs && !Survives(bs[u], alive) then [] else [u];
    if index == [] {
      assert index + [u] == [u] && [u][1..] == [];
      assert SweptIndex(bs, [], alive) == [];
    } else {
      var head := if index[0] in bs && !Survives(bs[index[0]], alive) then [] else [index[0]];
      var rest := SweptIndex(bs, index[1..], alive);
      assert (index + [u])[0] == index[0] && (index + [u])[1..] == index[1..] + [u];
      SweptIndexAppend(bs, index[1..], u, alive);
      assert head + (rest + last) == (head + rest) + last;
    }
  }

  lemma SweptAtIndex(t: State, k: nat, alive: set<int>)
    requires IndexAgrees(t) && k < |t.index| && t.index[k] in t.bundles
    ensures IndexAgrees(SweptAt(t, k, alive))
  {
    hide Survives, SweptProcs;
    var u := t.index[k];
    var t' := SweptAt(t, k, alive);
    if Survives(t.bundles[u], alive) {
      SameKeyIndex(t, u, t'.bundles[u]);
    } else {
      NoDuplicates(t, k);
      assert t.index == t.index[..k] + [u] + t.index[k + 1..];
      SortedElsewhere(t.bundles, t'.bundles, t'.index);
    }
  }

  lemma SweptNext(s: State, t: State, n: nat, k: nat, alive: set<int>)
    requires Swept(s, t, n, k, alive) && n < |s.index| && k < |t.index| && t.index[k] == s.index[n]
    requires t.index[k] in t.bundles && t.bundles[t.index[k]] == s.bundles[s.index[n]]
    ensures Swept(s, SweptAt(t, k, alive), n + 1,
                  if Survives(t.bundles[t.index[k]], alive) then k + 1 else k, alive)
  {
    hide Survives, SweptProcs, SweptIndex, Sorted, Inv;
    var u, t' := s.index[n], SweptAt(t, k, alive);
    FirstOccurrence(s, n);
    SweptAtIndex(t, k, alive);
    SweptIndexAppend(s.bundles, s.index[..n], u, alive);
    assert s.index[..n + 1] == s.index[..n] + [u];
    assert s.index[n + 1..] == s.index[n..][1..] && t.index[k + 1..] == t.index[k..][1..];
    if Survives(t.bundles[u], alive) {
      assert t'.index[..k + 1] == t.index[..k] + [u];
    } else {
      assert t'.index[..k] == t.index[..k] && t'.index[k..] == t.index[k + 1..];
      assert t'.index[..k] + [] == t'.index[..k];
    }
  }

  lemma SweptEnd(s: State, t: State, k: nat, alive: set<int>)
    requires Swept(s, t, |s.index|, k, alive) && k == |t.index|
    ensures t == HandleSweep(s, alive)
  {
    hide Survives, SweptProcs, SweptIndex, Sorted;
    assert s.index[..|s.index|] == s.index && t.index[..k] == t.index;
    var h := HandleSweep(s, alive).bundles;
    forall u
      ensures u in t.bundles <==> u in h
      ensures u in h ==> t.bundles[u] == h[u]
    {
      assert u in s.index[..|s.index|] <==> u in s.index;
    }
    MapEqual(t.bundles, h);
  }

  lemma ScanStep(s: State, n: nat, minPrio: int)
    requires 0 < n <= |s.index| && IndexInMap(s)
    ensures var b := s.bundles[s.index[n - 1]];
      Scan(s, n, minPrio) == if b.priority < minPrio then None
                             else if b.waiting then Scan(s, n - 1, minPrio) else Some(s.index[n - 1])
  {
  }

  lemma ScanEnd(s: State, minPrio: int)
    requires IndexInMap(s)
    ensures Scan(s, 0, minPrio) == None
  {
  }
}
