/** PurgeableMemManager: reclaiming purgeable memory down to a target, heap
    first, then shared blocks, then by asking the subscribers. What the kernel
    answers, and which purge writes it accepts, is an input. */
module Purgeable {
  import opened RegistryTypes

  // ----- what the kernel answers

  /** A memory cgroup: the unpinned heap of each of its processes (None when it
      cannot be read; the whole list None when the pids cannot), and whether the
      cgroup accepts a purge write. */
  datatype Memcg = Memcg(pids: Option<seq<Option<nat>>>, accepts: bool)

  /** PurgeableAshmInfo. */
  datatype Ashm = Ashm(id: string, app: string, priority: int, sizeKB: int)

  /** users are the cgroups of the user accounts in the order listed, root is
      the base cgroup. ashmOk holds the ids whose purge write is accepted. */
  datatype Kernel = Kernel(
    heapKB: Option<nat>,
    heapAllOk: bool,
    users: seq<Memcg>,
    root: Memcg,
    blocks: Option<seq<Ashm>>,
    ashmOk: set<string>)
  {
    function HeapKB(): int { if heapKB.Some? then heapKB.value else 0 }

    function BlocksKB(white: set<string>): int { if blocks.Some? then WhiteKB(blocks.value, white) else 0 }
  }

  function Min(a: int, b: int): int { if a <= b then a else b }

  /** As much of kb as a target asks for. */
  function UpTo(target: int, kb: nat): int { if target <= 0 then 0 else Min(target, kb) }

  // ----- heap

  /** The unpinned heap of a list of processes. */
  function Readable(pids: seq<Option<nat>>): (kb: nat) {
    if pids == [] then 0
    else Readable(pids[..|pids| - 1]) + if pids[|pids| - 1].Some? then pids[|pids| - 1].value else 0
  }

  function Unpinned(m: Memcg): (kb: nat) {
    if m.pids.Some? then Readable(m.pids.value) else 0
  }

  /** A process that cannot be read counts nothing, any other one in full. */
  lemma {:induction false} ReadableAdds(a: seq<Option<nat>>, b: seq<Option<nat>>)
    ensures Readable(a + b) == Readable(a) + Readable(b)
    ensures Readable([None]) == 0 && forall kb: nat :: Readable([Some(kb)]) == kb
    decreases |b|
  {
    forall x: Option<nat>
      ensures Readable([x]) == if x.Some? then x.value else 0
    {
      assert [x][..0] == [];
      assert Readable([]) == 0;
    }
    if b == [] {
      assert a + b == a;
    } else {
      assert (a + b)[..|a + b| - 1] == a + b[..|b| - 1];
      ReadableAdds(a, b[..|b| - 1]);
    }
  }

  /** What the cgroups that accept the write hold together. */
  function Purgeable(ms: seq<Memcg>): (kb: nat) {
    if ms == [] then 0
    else Purgeable(ms[..|ms| - 1]) + if ms[|ms| - 1].accepts then Unpinned(ms[|ms| - 1]) else 0
  }

  /** Everything the cgroups hold. */
  function Held(ms: seq<Memcg>): (kb: nat) {
    if ms == [] then 0 else Held(ms[..|ms| - 1]) + Unpinned(ms[|ms| - 1])
  }

  /** A purge write: to the cgroup at this position, of this size. */
  datatype Write = Write(at: nat, kb: int, ok: bool)

  function Granted(log: seq<Write>): int {
    if log == [] then 0
    else Granted(log[..|log| - 1]) + if log[|log| - 1].ok then log[|log| - 1].kb else 0
  }

  /** Every write asks one cgroup, each at most once and in order, for as much
      as it holds or as is still missing, whichever is less, and never for
      nothing. */
  ghost predicate Frugal(log: seq<Write>, ms: seq<Memcg>, target: int) {
    && (forall k :: 0 <= k < |log| ==> Fitting(log[k], ms, target - Granted(log[..k])))
    && (forall j, k :: 0 <= j < k < |log| ==> log[j].at < log[k].at)
  }

  /** w asks its cgroup for the right amount while this much is missing. */
  predicate Fitting(w: Write, ms: seq<Memcg>, missing: int) {
    && w.at < |ms|
    && w.ok == ms[w.at].accepts
    && 0 < w.kb == Min(Unpinned(ms[w.at]), missing)
  }

  lemma GrantedAppend(log: seq<Write>, w: Write)
    ensures Granted(log + [w]) == Granted(log) + if w.ok then w.kb else 0
  {
    assert (log + [w])[..|log|] == log;
  }

  lemma {:induction false} FrugalAppend(log: seq<Write>, ms: seq<Memcg>, target: int, w: Write)
    requires Frugal(log, ms, target)
    requires Fitting(w, ms, target - Granted(log))
    requires forall k :: 0 <= k < |log| ==> log[k].at < w.at
    ensures Frugal(log + [w], ms, target)
  {
    hide Granted, Fitting;
    var more := log + [w];
    forall k | 0 <= k < |more|
      ensures Fitting(more[k], ms, target - Granted(more[..k]))
    {
      assert more[..k] == log[..k];
      if k == |log| { assert log[..k] == log; }
    }
  }

  /** A cgroup that refuses the write counts nothing, any other one in full. */
  lemma {:induction false} PurgeableAdds(a: seq<Memcg>, b: seq<Memcg>)
    ensures Purgeable(a + b) == Purgeable(a) + Purgeable(b)
    ensures forall m: Memcg :: Purgeable([m]) == if m.accepts && m.pids.Some? then Readable(m.pids.value) else 0
    decreases |b|
  {
    forall m: Memcg
      ensures Purgeable([m]) == if m.accepts && m.pids.Some? then Readable(m.pids.value) else 0
    {
      assert [m][..0] == [];
      assert Purgeable([]) == 0;
    }
    if b == [] {
      assert a + b == a;
    } else {
      assert (a + b)[..|a + b| - 1] == a + b[..|b| - 1];
      PurgeableAdds(a, b[..|b| - 1]);
    }
  }

  /** When every write is accepted, what can be purged is all there is. */
  lemma {:induction false} AllAccepted(ms: seq<Memcg>)
    requires forall m :: m in ms ==> m.accepts
    ensures Purgeable(ms) == Held(ms)
    decreases |ms|
  {
    if ms != [] {
      var init := ms[..|ms| - 1];
      assert ms[|ms| - 1] in ms;
      assert forall m :: m in init ==> m in ms;
      AllAccepted(init);
    }
  }

  lemma {:induction false} PurgeableGrows(ms: seq<Memcg>, i: nat)
    requires i <= |ms|
    ensures Purgeable(ms[..i]) <= Purgeable(ms)
    decreases |ms| - i
  {
    if i < |ms| {
      assert ms[..i + 1][..i] == ms[..i];
      PurgeableGrows(ms, i + 1);
    } else {
      assert ms[..i] == ms;
    }
  }

  // ----- shared blocks

  /** AshmReclaimPriorityCompare. */
  predicate Before(a: Ashm, b: Ashm) {
    if a.priority != b.priority then a.priority > b.priority else a.sizeKB > b.sizeKB
  }

  predicate Ordered(blocks: seq<Ashm>) {
    forall i, j :: 0 <= i < j < |blocks| ==> !Before(blocks[j], blocks[i])
  }

  /** The comparator is a strict weak order, as std::sort demands. */
  lemma BeforeIsStrictWeakOrder(a: Ashm, b: Ashm, c: Ashm)
    ensures !Before(a, a)
    ensures Before(a, b) ==> !Before(b, a)
    ensures Before(a, b) ==> Before(a, c) || Before(c, b)
  {
  }

  /** The blocks a purge may touch, in order. */
  function Listed(blocks: seq<Ashm>, white: set<string>): (r: seq<Ashm>)
    ensures forall b :: b in r <==> b in blocks && b.app in white
  {
    if blocks == [] then []
    else
      var init, last := blocks[..|blocks| - 1], blocks[|blocks| - 1];
      assert blocks == init + [last];
      Listed(init, white) + if last.app in white then [last] else []
  }

  /** Those of them whose purge write is accepted. */
  function Accepted(blocks: seq<Ashm>, ok: set<string>): (r: seq<Ashm>)
    ensures forall b :: b in r <==> b in blocks && b.id in ok
  {
    if blocks == [] then []
    else
      var init, last := blocks[..|blocks| - 1], blocks[|blocks| - 1];
      assert blocks == init + [last];
      Accepted(init, ok) + if last.id in ok then [last] else []
  }

  function Total(blocks: seq<Ashm>): int {
    if blocks == [] then 0 else Total(blocks[..|blocks| - 1]) + blocks[|blocks| - 1].sizeKB
  }

  /** purged is the shortest non-empty prefix of candidates that reaches the
      target, or all of them when none does. */
  ghost predicate ShortestPrefix(purged: seq<Ashm>, candidates: seq<Ashm>, target: int) {
    && purged <= candidates
    && (purged == candidates || (purged != [] && Total(purged) >= target))
    && forall k :: 0 < k < |purged| ==> Total(purged[..k]) < target
  }

  lemma ListedAppend(blocks: seq<Ashm>, b: Ashm, white: set<string>)
    ensures Listed(blocks + [b], white) == Listed(blocks, white) + if b.app in white then [b] else []
  {
    assert (blocks + [b])[..|blocks|] == blocks;
  }

  lemma AcceptedAppend(blocks: seq<Ashm>, b: Ashm, ok: set<string>)
    ensures Accepted(blocks + [b], ok) == Accepted(blocks, ok) + if b.id in ok then [b] else []
  {
    assert (blocks + [b])[..|blocks|] == blocks;
  }

  lemma TotalAppend(blocks: seq<Ashm>, b: Ashm)
    ensures Total(blocks + [b]) == Total(blocks) + b.sizeKB
  {
    assert (blocks + [b])[..|blocks|] == blocks;
  }

  /** What could be purged of a longer list starts with what could be purged of
      a shorter one. */
  lemma {:induction false} CandidatesGrow(blocks: seq<Ashm>, i: nat, white: set<string>, ok: set<string>)
    requires i <= |blocks|
    ensures Accepted(Listed(blocks[..i], white), ok) <= Accepted(Listed(blocks, white), ok)
    decreases |blocks| - i
  {
    hide Listed, Accepted;
    if i < |blocks| {
      var b := blocks[i];
      assert blocks[..i + 1] == blocks[..i] + [b];
      ListedAppend(blocks[..i], b, white);
      var l := Listed(blocks[..i], white);
      assert l + [] == l;
      AcceptedAppend(l, b, ok);
      CandidatesGrow(blocks, i + 1, white, ok);
    } else {
      assert blocks[..i] == blocks;
    }
  }

  /** Filtering keeps the order. */
  lemma {:induction false} ListedOrdered(blocks: seq<Ashm>, white: set<string>)
    requires Ordered(blocks)
    ensures Ordered(Listed(blocks, white))
    decreases |blocks|
  {
    if blocks != [] {
      var init, last := blocks[..|blocks| - 1], blocks[|blocks| - 1];
      ListedOrdered(init, white);
      var l := Listed(init, white);
      forall i | 0 <= i < |l|
        ensures !Before(last, l[i])
      {
        assert l[i] in l;
      }
    }
  }

  lemma {:induction false} AcceptedOrdered(blocks: seq<Ashm>, ok: set<string>)
    requires Ordered(blocks)
    ensures Ordered(Accepted(blocks, ok))
    decreases |blocks|
  {
    if blocks != [] {
      var init, last := blocks[..|blocks| - 1], blocks[|blocks| - 1];
      AcceptedOrdered(init, ok);
      var l := Accepted(init, ok);
      forall i | 0 <= i < |l|
        ensures !Before(last, l[i])
      {
        assert l[i] in l;
      }
    }
  }

  /** A target is overshot by less than the block purged last. */
  lemma OvershootsByLess(purged: seq<Ashm>, candidates: seq<Ashm>, target: int)
    requires ShortestPrefix(purged, candidates, target) && target > 0 && purged != []
    ensures Total(purged) - target < purged[|purged| - 1].sizeKB
  {
    var n := |purged| - 1;
    if n == 0 { assert purged[..0] == []; }
    assert Total(purged) == Total(purged[..n]) + purged[n].sizeKB;
  }

  /** No block is purged while one that should go before it is left. */
  lemma NoneSkipped(purged: seq<Ashm>, order: seq<Ashm>, white: set<string>, ok: set<string>, i: nat, j: nat)
    requires Ordered(order) && purged <= Accepted(Listed(order, white), ok)
    requires i < |purged| <= j < |Accepted(Listed(order, white), ok)|
    ensures var left := Accepted(Listed(order, white), ok)[j];
      left.priority < purged[i].priority || (left.priority == purged[i].priority && left.sizeKB <= purged[i].sizeKB)
  {
    ListedOrdered(order, white);
    AcceptedOrdered(Listed(order, white), ok);
  }

  // ----- one trigger

  /** targetBuffer - currentBuffer on unsigned 32-bit values, read back as int. */
  function AsInt32(x: int): (r: int)
    ensures -0x8000_0000 <= x < 0x8000_0000 ==> r == x
    ensures -0x8000_0000 <= r < 0x8000_0000 && (r - x) % 0x1_0000_0000 == 0
  {
    var u := x % 0x1_0000_0000;
    if u < 0x8000_0000 then u else u - 0x1_0000_0000
  }

  const TRIGGER_INTERVAL_SECOND := 10

  predicate TooSoon(last: int, now: int) {
    last != 0 && now - last < TRIGGER_INTERVAL_SECOND
  }

  /** The readings of the clock at which a trigger goes through. */
  function GoThrough(last: int, times: seq<int>): (r: seq<int>)
    decreases |times|
  {
    if times == [] then []
    else if TooSoon(last, times[0]) then GoThrough(last, times[1..])
    else [times[0]] + GoThrough(times[0], times[1..])
  }

  /** The time of the last trigger that went through. */
  function LastThrough(last: int, times: seq<int>): int {
    var r := GoThrough(last, times);
    if r == [] then last else r[|r| - 1]
  }

  lemma {:induction false} GoThroughSplits(last: int, a: seq<int>, b: seq<int>)
    ensures GoThrough(last, a + b) == GoThrough(last, a) + GoThrough(LastThrough(last, a), b)
    decreases |a|
  {
    if a == [] {
      assert a + b == b;
    } else {
      assert (a + b)[0] == a[0] && (a + b)[1..] == a[1..] + b;
      var next := if TooSoon(last, a[0]) then last else a[0];
      GoThroughSplits(next, a[1..], b);
      if !TooSoon(last, a[0]) {
        assert [a[0]] + (GoThrough(next, a[1..]) + GoThrough(LastThrough(next, a[1..]), b))
            == ([a[0]] + GoThrough(next, a[1..])) + GoThrough(LastThrough(next, a[1..]), b);
      }
    }
  }

  /** A trigger goes through exactly when none has before, or the last one that
      did was at least ten seconds ago. */
  lemma GoesThroughIff(last: int, times: seq<int>, now: int)
    ensures var before := LastThrough(last, times);
      GoThrough(last, times + [now]) ==
      GoThrough(last, times) + if before == 0 || now >= before + 10 then [now] else []
  {
    GoThroughSplits(last, times, [now]);
    assert [now][1..] == [];
    assert GoThrough(now, []) == [] && GoThrough(LastThrough(last, times), []) == [];
  }

  /** On a clock that reads positive values, whatever it does, triggers that go
      through are at least ten seconds apart. */
  lemma {:induction false} TriggersAreSpaced(last: int, times: seq<int>)
    requires last >= 0 && forall i :: 0 <= i < |times| ==> times[i] > 0
    ensures var r := GoThrough(last, times);
      && (forall i :: 0 <= i < |r| ==> r[i] > 0)
      && (forall i :: 0 < i < |r| ==> r[i] >= r[i - 1] + TRIGGER_INTERVAL_SECOND)
      && (last != 0 && r != [] ==> r[0] >= last + TRIGGER_INTERVAL_SECOND)
    decreases |times|
  {
    if times != [] {
      TriggersAreSpaced(if TooSoon(last, times[0]) then last else times[0], times[1..]);
    }
  }

  /** What one type gives up, for a positive target. */
  ghost predicate HeapGives(k: Kernel, target: int, kb: int) {
    if k.heapKB.None? || k.heapKB.value == 0 then kb == 0
    else if k.heapKB.value <= target && k.heapAllOk then kb == k.heapKB.value
    else kb == UpTo(target, Purgeable(k.users + [k.root]))
  }

  ghost predicate AshmGives(k: Kernel, white: set<string>, target: int, kb: int) {
    if k.blocks.None? then kb == 0
    else exists order: seq<Ashm>, purged: seq<Ashm> ::
      && Ordered(order) && multiset(order) == multiset(k.blocks.value)
      && ShortestPrefix(purged, Accepted(Listed(order, white), k.ashmOk), target)
      && kb == Total(purged)
  }

  /** GetPurgeableAshmInfo lists blocks of positive size only. */
  predicate KernelOk(k: Kernel) {
    k.blocks.Some? ==> forall b :: b in k.blocks.value ==> b.sizeKB > 0
  }

  lemma {:induction false} TotalPositive(blocks: seq<Ashm>)
    requires forall b :: b in blocks ==> b.sizeKB > 0
    ensures Total(blocks) >= 0 && (Total(blocks) == 0 <==> blocks == [])
    decreases |blocks|
  {
    if blocks != [] {
      var init := blocks[..|blocks| - 1];
      assert blocks[|blocks| - 1] in blocks;
      assert forall b :: b in init ==> b in blocks;
      TotalPositive(init);
    }
  }

  // ----- when the kernel accepts every write

  /** What the white-listed blocks hold. */
  function WhiteKB(blocks: seq<Ashm>, white: set<string>): int { Total(Listed(blocks, white)) }

  function BlockKB(b: Ashm, white: set<string>): int { if b.app in white then b.sizeKB else 0 }

  lemma WhiteAppend(blocks: seq<Ashm>, b: Ashm, white: set<string>)
    ensures WhiteKB(blocks + [b], white) == WhiteKB(blocks, white) + BlockKB(b, white)
  {
    hide Listed, Total;
    ListedAppend(blocks, b, white);
    var l := Listed(blocks, white);
    assert l + [] == l;
    TotalAppend(l, b);
  }

  lemma {:induction false} WhiteTakeOut(a: seq<Ashm>, b: Ashm, rest: seq<Ashm>, white: set<string>)
    ensures WhiteKB(a + [b] + rest, white) == WhiteKB(a + rest, white) + BlockKB(b, white)
    decreases |rest|
  {
    hide WhiteKB, BlockKB;
    if rest == [] {
      assert a + [b] + rest == a + [b] && a + rest == a;
      WhiteAppend(a, b, white);
    } else {
      var init, last := rest[..|rest| - 1], rest[|rest| - 1];
      assert a + [b] + rest == (a + [b] + init) + [last] && a + rest == (a + init) + [last];
      WhiteAppend(a + [b] + init, last, white);
      WhiteAppend(a + init, last, white);
      WhiteTakeOut(a, b, init, white);
    }
  }

  lemma WithoutOne<T>(a: multiset<T>, b: multiset<T>, x: T)
    requires a + multiset{x} == b + multiset{x}
    ensures a == b
  {
    assert a == (a + multiset{x}) - multiset{x};
    assert b == (b + multiset{x}) - multiset{x};
  }

  /** However the sort arranges them. */
  lemma {:induction false} WhiteOfPermutation(a: seq<Ashm>, order: seq<Ashm>, white: set<string>)
    requires multiset(a) == multiset(order)
    ensures WhiteKB(a, white) == WhiteKB(order, white)
    decreases |a|
  {
    hide WhiteKB, BlockKB;
    if a == [] {
      assert |multiset(order)| == 0;
      assert order == [];
    } else {
      var init, last := a[..|a| - 1], a[|a| - 1];
      assert a == init + [last];
      assert last in multiset(order);
      var i :| 0 <= i < |order| && order[i] == last;
      var rest := order[..i] + order[i + 1..];
      assert order == order[..i] + [last] + order[i + 1..];
      assert multiset(order) == multiset(rest) + multiset{last};
      assert multiset(a) == multiset(init) + multiset{last};
      WithoutOne(multiset(init), multiset(rest), last);
      WhiteOfPermutation(init, rest, white);
      WhiteAppend(init, last, white);
      WhiteTakeOut(order[..i], last, order[i + 1..], white);
    }
  }

  lemma {:induction false} AllAcceptedBlocks(blocks: seq<Ashm>, ok: set<string>)
    requires forall b :: b in blocks ==> b.id in ok
    ensures Accepted(blocks, ok) == blocks
    decreases |blocks|
  {
    if blocks != [] {
      var init := blocks[..|blocks| - 1];
      assert blocks == init + [blocks[|blocks| - 1]];
      assert forall b :: b in init ==> b in blocks;
      AllAcceptedBlocks(init, ok);
    }
  }

  predicate AcceptsAll(k: Kernel) {
    && k.heapAllOk && k.root.accepts && (forall m :: m in k.users ==> m.accepts)
    && (k.blocks.Some? ==> forall b :: b in k.blocks.value ==> b.id in k.ashmOk)
  }

  /** What heap purging can take, up to the target. */
  function HeapWithin(k: Kernel, target: int): int {
    if k.heapKB.None? || k.heapKB.value <= target then k.HeapKB()
    else Min(target, Held(k.users + [k.root]))
  }

  lemma AllBlocksGiven(k: Kernel, white: set<string>, target: int, kb: int)
    requires KernelOk(k) && AcceptsAll(k) && target > 0 && AshmGives(k, white, target, kb)
    ensures kb <= k.BlocksKB(white)
    ensures kb >= target <==> k.BlocksKB(white) >= target
    ensures kb < target ==> kb == k.BlocksKB(white)
  {
    hide Listed, Accepted, Total;
    if k.blocks.Some? {
      var order: seq<Ashm>, purged: seq<Ashm> :|
        && Ordered(order) && multiset(order) == multiset(k.blocks.value)
        && ShortestPrefix(purged, Accepted(Listed(order, white), k.ashmOk), target)
        && kb == Total(purged);
      var l := Listed(order, white);
      forall b | b in l
        ensures b.id in k.ashmOk && b.sizeKB > 0
      {
        assert b in multiset(order);
      }
      AllAcceptedBlocks(l, k.ashmOk);
      WhiteOfPermutation(k.blocks.value, order, white);
      TotalOfPrefix(l, |purged|);
      assert purged == l[..|purged|];
    }
  }

  lemma {:induction false} TotalOfPrefix(blocks: seq<Ashm>, n: nat)
    requires n <= |blocks| && forall b :: b in blocks ==> b.sizeKB > 0
    ensures Total(blocks[..n]) <= Total(blocks)
    decreases |blocks| - n
  {
    if n < |blocks| {
      assert blocks[..n + 1][..n] == blocks[..n] && blocks[n] in blocks;
      TotalOfPrefix(blocks, n + 1);
    } else {
      assert blocks[..n] == blocks;
    }
  }

  /** Heap purging never takes more than it is asked for. */
  lemma HeapNeverExceeds(k: Kernel, target: int, kb: int)
    requires HeapGives(k, target, kb)
    ensures 0 <= kb <= UpTo(target, kb)
    ensures AcceptsAll(k) && target > 0 ==> kb == HeapWithin(k, target)
  {
    var ms := k.users + [k.root];
    if AcceptsAll(k) {
      AllAccepted(ms);
    }
  }

  predicate RefusesAll(k: Kernel) {
    && !k.heapAllOk && !k.root.accepts && (forall m :: m in k.users ==> !m.accepts)
    && (k.blocks.Some? ==> forall b :: b in k.blocks.value ==> b.id !in k.ashmOk)
  }

  lemma {:induction false} AllRefused(ms: seq<Memcg>)
    requires forall m :: m in ms ==> !m.accepts
    ensures Purgeable(ms) == 0
    decreases |ms|
  {
    if ms != [] {
      var init := ms[..|ms| - 1];
      assert ms[|ms| - 1] in ms;
      assert forall m :: m in init ==> m in ms;
      AllRefused(init);
    }
  }

  /** When the kernel accepts no write, nothing counts as reclaimed, so that the
      subscribers are trimmed. */
  lemma RefusedGivesNothing(k: Kernel, white: set<string>, target: int, heap: int, ashm: int)
    requires RefusesAll(k) && target > 0
    requires HeapGives(k, target, heap)
    requires if heap < target then AshmGives(k, white, target - heap, ashm) else ashm == 0
    ensures heap == 0 && ashm == 0
  {
    hide Listed, Accepted, Ordered, Total;
    AllRefused(k.users + [k.root]);
    if k.blocks.Some? {
      var order: seq<Ashm>, purged: seq<Ashm> :|
        && Ordered(order) && multiset(order) == multiset(k.blocks.value)
        && ShortestPrefix(purged, Accepted(Listed(order, white), k.ashmOk), target - heap)
        && ashm == Total(purged);
      var l := Listed(order, white);
      forall b | b in l
        ensures b.id !in k.ashmOk
      {
        assert b in multiset(order);
      }
      NoneAccepted(l, k.ashmOk);
      assert purged == [];
      assert Total([]) == 0 by { NothingListed(white, k.ashmOk); }
    }
  }

  lemma {:induction false} NoneAccepted(blocks: seq<Ashm>, ok: set<string>)
    requires forall b :: b in blocks ==> b.id !in ok
    ensures Accepted(blocks, ok) == []
    decreases |blocks|
  {
    if blocks != [] {
      var init := blocks[..|blocks| - 1];
      assert blocks == init + [blocks[|blocks| - 1]];
      assert forall b :: b in init ==> b in blocks;
      NoneAccepted(init, ok);
    }
  }

  /** When the kernel accepts every write, the subscribers are trimmed exactly
      when heap and white-listed blocks fall short, and then all of both is
      gone. */
  lemma TrimmedIff(k: Kernel, white: set<string>, target: int, heap: int, ashm: int)
    requires KernelOk(k) && AcceptsAll(k) && target > 0
    requires HeapGives(k, target, heap)
    requires if heap < target then AshmGives(k, white, target - heap, ashm) else ashm == 0
    ensures heap + ashm < target <==> HeapWithin(k, target) + k.BlocksKB(white) < target
    ensures heap + ashm < target ==> heap + ashm == HeapWithin(k, target) + k.BlocksKB(white)
  {
    hide HeapGives, AshmGives, HeapWithin, AcceptsAll;
    HeapNeverExceeds(k, target, heap);
    if heap < target {
      AllBlocksGiven(k, white, target - heap, ashm);
    } else {
      WhiteNotNegative(k, white);
    }
  }

  lemma WhiteNotNegative(k: Kernel, white: set<string>)
    requires KernelOk(k)
    ensures k.BlocksKB(white) >= 0
  {
    if k.blocks.Some? {
      TotalPositive(Listed(k.blocks.value, white));
    }
  }

  // ----- steps of the loops

  lemma PurgeableNext(ms: seq<Memcg>, i: nat)
    requires i < |ms|
    ensures Purgeable(ms[..i + 1]) == Purgeable(ms[..i]) + if ms[i].accepts then Unpinned(ms[i]) else 0
  {
    assert ms[..i + 1][..i] == ms[..i];
  }

  lemma NothingHeld(m: Memcg)
    requires m.pids.None? || m.pids.value == []
    ensures Unpinned(m) == 0
  {
  }

  lemma NothingAsked(ms: seq<Memcg>, target: int)
    ensures Frugal([], ms, target) && Granted([]) == 0 && Purgeable(ms[..0]) == 0
  {
  }

  lemma AskedFits(log: seq<Write>, ms: seq<Memcg>, target: int, i: nat, asked: int)
    requires Frugal(log, ms, target) && i < |ms| && forall k :: 0 <= k < |log| ==> log[k].at < i
    requires 0 < asked == Min(Unpinned(ms[i]), target - Granted(log))
    ensures Frugal(log + [Write(i, asked, ms[i].accepts)], ms, target)
  {
    hide Frugal, Unpinned, Granted;
    FrugalAppend(log, ms, target, Write(i, asked, ms[i].accepts));
  }

  lemma NothingListed(white: set<string>, ok: set<string>)
    ensures Listed([], white) == [] && Accepted([], ok) == [] && Total([]) == 0
  {
  }

  lemma PrefixesBelow(purged: seq<Ashm>, b: Ashm, target: int)
    requires purged != [] ==> Total(purged) < target
    requires forall k :: 0 < k < |purged| ==> Total(purged[..k]) < target
    ensures forall k :: 0 < k < |purged + [b]| ==> Total((purged + [b])[..k]) < target
  {
    hide Total;
    forall k | 0 < k < |purged + [b]|
      ensures Total((purged + [b])[..k]) < target
    {
      assert (purged + [b])[..k] == purged[..k];
      if k == |purged| { assert purged[..k] == purged; }
    }
  }

  /** Without blocks nothing is given up. */
  lemma NoBlocks(k: Kernel, white: set<string>, target: int)
    requires KernelOk(k) && k.blocks.Some? && Total(k.blocks.value) <= 0
    ensures AshmGives(k, white, target, 0)
  {
    TotalPositive(k.blocks.value);
    var none: seq<Ashm> := [];
    assert Ordered(none) && multiset(none) == multiset(k.blocks.value);
    assert ShortestPrefix(none, Accepted(Listed(none, white), k.ashmOk), target);
    assert Total(none) == 0;
  }

  // ----- sorting

  /** b put in its place. */
  function Placed(order: seq<Ashm>, b: Ashm): (r: seq<Ashm>) {
    if order == [] || !Before(b, order[|order| - 1]) then order + [b]
    else Placed(order[..|order| - 1], b) + [order[|order| - 1]]
  }

  lemma {:induction false} PlacedKeeps(order: seq<Ashm>, b: Ashm)
    ensures multiset(Placed(order, b)) == multiset(order) + multiset{b}
    decreases |order|
  {
    if order != [] && Before(b, order[|order| - 1]) {
      var init := order[..|order| - 1];
      assert order == init + [order[|order| - 1]];
      PlacedKeeps(init, b);
    }
  }

  lemma {:induction false} PlacedOrdered(order: seq<Ashm>, b: Ashm)
    requires Ordered(order)
    ensures Ordered(Placed(order, b))
    decreases |order|
  {
    hide Before;
    if order != [] {
      var init, last := order[..|order| - 1], order[|order| - 1];
      if Before(b, last) {
        PlacedOrdered(init, b);
        PlacedKeeps(init, b);
        var p := Placed(init, b);
        forall i | 0 <= i < |p|
          ensures !Before(last, p[i])
        {
          assert p[i] in multiset(p);
          BeforeIsStrictWeakOrder(b, last, b);
        }
      } else {
        forall i | 0 <= i < |init|
          ensures !Before(b, init[i])
        {
          BeforeIsStrictWeakOrder(b, init[i], last);
        }
      }
    }
  }

  // ----- the object

  datatype Kind = Heap | Ashmem | Subscriber

  class PurgeableMemManager {
    var lastTriggerTime: int
    const white: set<string>

    constructor (white: set<string>)
      ensures lastTriggerTime == 0 && this.white == white
    {
      this.white := white;
      lastTriggerTime := 0;
    }

    /** PurgHeapOneMemcg: the new total, whether the target is reached, and the
        write it made, if any. */
    method PurgHeapOneMemcg(m: Memcg, target: int, result: int) returns (r: int, done: bool, asked: int)
      requires m.pids.Some?
      ensures r == result + if m.accepts then asked else 0
      ensures asked == if result >= target then 0 else Min(Unpinned(m), target - result)
      ensures done <==> r >= target
    {
      r, asked := result, 0;
      if r >= target {
        return r, true, 0;
      }
      var unpinned := 0;
      var pids := m.pids.value;
      for i := 0 to |pids|
        invariant unpinned == Readable(pids[..i])
      {
        assert pids[..i + 1][..i] == pids[..i];
        if pids[i].Some? {
          unpinned := unpinned + pids[i].value;
        }
      }
      assert pids[..|pids|] == pids;
      asked := if r + unpinned <= target then unpinned else target - r;
      if asked > 0 && m.accepts {
        r := r + asked;
        if r >= target {
          return r, true, asked;
        }
      }
      done := false;
    }

    /** PurgHeapMemcgOneByOne: the users' cgroups, then the root. */
    method PurgHeapMemcgOneByOne(users: seq<Memcg>, root: Memcg, target: int)
      returns (result: int, log: seq<Write>)
      ensures result == UpTo(target, Purgeable(users + [root]))
      ensures Frugal(log, users + [root], target) && Granted(log) == result
    {
      hide Frugal, Fitting, Unpinned, Granted, Purgeable;
      ghost var ms := users + [root];
      result, log := 0, [];
      NothingAsked(ms, target);
      for i := 0 to |users|
        invariant result == Purgeable(ms[..i]) == Granted(log)
        invariant if target > 0 then result < target else result == 0
        invariant Frugal(log, ms, target)
        invariant forall k :: 0 <= k < |log| ==> log[k].at < i
      {
        PurgeableNext(ms, i);
        PurgeableGrows(ms, i + 1);
        if users[i].pids.None? || users[i].pids.value == [] {
          NothingHeld(users[i]);
          continue;
        }
        var r, done, asked := PurgHeapOneMemcg(users[i], target, result);
        if asked > 0 {
          GrantedAppend(log, Write(i, asked, users[i].accepts));
          AskedFits(log, ms, target, i, asked);
          log := log + [Write(i, asked, users[i].accepts)];
        }
        result := r;
        if done {
          return;
        }
      }
      PurgeableNext(ms, |users|);
      assert ms[..|users| + 1] == ms;
      if root.pids.Some? && root.pids.value != [] {
        var r, _, asked := PurgHeapOneMemcg(root, target, result);
        if asked > 0 {
          GrantedAppend(log, Write(|users|, asked, root.accepts));
          AskedFits(log, ms, target, |users|, asked);
          log := log + [Write(|users|, asked, root.accepts)];
        }
        result := r;
      } else {
        NothingHeld(root);
      }
    }

    method SortBlocks(blocks: seq<Ashm>) returns (order: seq<Ashm>)
      ensures Ordered(order) && multiset(order) == multiset(blocks)
    {
      order := [];
      for i := 0 to |blocks|
        invariant Ordered(order) && multiset(order) == multiset(blocks[..i])
      {
        hide Ordered, Placed;
        assert blocks[..i + 1] == blocks[..i] + [blocks[i]];
        PlacedOrdered(order, blocks[i]);
        PlacedKeeps(order, blocks[i]);
        order := Placed(order, blocks[i]);
      }
      assert blocks[..|blocks|] == blocks;
    }

    /** PurgAshmIdOneByOne: order is the sorted vector, attempts the blocks a
        purge was written for, purged those it was accepted for. */
    method PurgAshmIdOneByOne(blocks: seq<Ashm>, ok: set<string>, target: int)
      returns (result: int, order: seq<Ashm>, attempts: seq<Ashm>, purged: seq<Ashm>)
      ensures Ordered(order) && multiset(order) == multiset(blocks)
      ensures exists n :: 0 <= n <= |order| && attempts == Listed(order[..n], white)
      ensures purged == Accepted(attempts, ok)
      ensures ShortestPrefix(purged, Accepted(Listed(order, white), ok), target)
      ensures result == Total(purged)
    {
      hide Ordered, Listed, Accepted, Total;
      order := SortBlocks(blocks);
      result, attempts, purged := 0, [], [];
      assert order[..0] == [];
      NothingListed(white, ok);
      for i := 0 to |order|
        invariant attempts == Listed(order[..i], white)
        invariant purged == Accepted(attempts, ok)
        invariant result == Total(purged)
        invariant purged != [] ==> result < target
        invariant forall k :: 0 < k < |purged| ==> Total(purged[..k]) < target
      {
        var b := order[i];
        assert order[..i + 1] == order[..i] + [b];
        ListedAppend(order[..i], b, white);
        if b.app in white {
          AcceptedAppend(attempts, b, ok);
          ghost var before := purged;
          attempts := attempts + [b];
          if b.id in ok {
            TotalAppend(purged, b);
            purged := purged + [b];
            result := result + b.sizeKB;
            PrefixesBelow(before, b, target);
            if result >= target {
              CandidatesGrow(order, i + 1, white, ok);
              return;
            }
          }
        }
      }
      assert order[..|order|] == order;
    }

    /** PurgeByTypeAndTarget. */
    method PurgeByTypeAndTarget(kind: Kind, target: int, k: Kernel) returns (kb: int)
      requires KernelOk(k)
      ensures kind.Heap? ==> HeapGives(k, target, kb)
      ensures kind.Ashmem? ==> AshmGives(k, white, target, kb)
      ensures kind.Subscriber? ==> kb == 0
    {
      hide Purgeable, Listed, Accepted, Total, Ordered, ShortestPrefix, Frugal;
      match kind
      case Heap =>
        if k.heapKB.None? || k.heapKB.value <= 0 {
          return 0;
        }
        if k.heapKB.value <= target && k.heapAllOk {
          return k.heapKB.value;
        }
        var log;
        kb, log := PurgHeapMemcgOneByOne(k.users, k.root, target);
      case Ashmem =>
        if k.blocks.None? {
          return 0;
        }
        kb := SumOfSizes(k.blocks.value);
        if kb <= 0 {
          NoBlocks(k, white, target);
          return 0;
        }
        var order, attempts, purged;
        kb, order, attempts, purged := PurgAshmIdOneByOne(k.blocks.value, k.ashmOk, target);
      case Subscriber =>
        return 0;
    }

    method SumOfSizes(blocks: seq<Ashm>) returns (kb: int)
      ensures kb == Total(blocks)
    {
      kb := 0;
      for i := 0 to |blocks|
        invariant kb == Total(blocks[..i])
      {
        assert blocks[..i + 1][..i] == blocks[..i];
        kb := kb + blocks[i].sizeKB;
      }
      assert blocks[..|blocks|] == blocks;
    }

    /** TriggerByPsi. heap and ashm say what each type gave; level is the
        configured purgeable level, buffer the kernel's current one. */
    method TriggerByPsi(now: int, level: int, buffer: int, k: Kernel)
      returns (heap: int, ashm: int, remaining: int, trimmed: bool)
      requires KernelOk(k)
      modifies this
      ensures lastTriggerTime == if TooSoon(old(lastTriggerTime), now) then old(lastTriggerTime) else now
      ensures var target := AsInt32(level - buffer);
        if TooSoon(old(lastTriggerTime), now) || target <= 0 then heap == 0 && ashm == 0 && !trimmed
        else
          && HeapGives(k, target, heap)
          && (if heap < target then AshmGives(k, white, target - heap, ashm) else ashm == 0)
          && heap + ashm + remaining == target
          && (trimmed <==> remaining > 0)
    {
      hide HeapGives, AshmGives;
      heap, ashm, remaining, trimmed := 0, 0, 0, false;
      if TooSoon(lastTriggerTime, now) {
        return;
      }
      lastTriggerTime := now;
      remaining := AsInt32(level - buffer);
      if remaining <= 0 {
        return;
      }
      ghost var target := remaining;
      var sequence := [Heap, Ashmem, Subscriber];
      var total := 0;
      for i := 0 to |sequence|
        invariant total == heap + ashm && total + remaining == target
        invariant remaining > 0 && lastTriggerTime == now
        invariant i >= 1 ==> heap < target
        invariant i == 0 ==> heap == 0
        invariant i <= 1 ==> ashm == 0
        invariant i >= 1 ==> HeapGives(k, target, heap)
        invariant i >= 2 ==> AshmGives(k, white, target - heap, ashm)
      {
        var reclaimed := PurgeByTypeAndTarget(sequence[i], remaining, k);
        if i == 0 { heap := reclaimed; }
        if i == 1 { ashm := reclaimed; }
        remaining := remaining - reclaimed;
        total := total + reclaimed;
        if remaining <= 0 {
          return;
        }
      }
      trimmed := true;
    }
  }
}
