/** LowMemoryKiller: the threshold lookup and what one pressure event does. */
module LowMemory {
  import opened Collections
  import opened RegistryTypes
  import opened BundleIndex
  import opened Registry
  import opened RegistryInvariant
  import opened KillConfiguration
  import opened KillOnce
  import opened Manager

  const MAX_KILL_CNT_PER_EVENT := 3
  const MAX_BUFFER_KB := 0x7fff_ffff

  // ----- the table

  datatype Level = Level(memory: int, priority: int)

  const DEFAULT_TABLE := [Level(100 * 1024, 0), Level(200 * 1024, 100), Level(300 * 1024, 200),
                          Level(400 * 1024, 300), Level(500 * 1024, 400)]

  /** The table that is in force: the configured levels in map order, or the
      built-in ones. */
  function Table(levels: map<int, int>): (table: seq<Level>)
    ensures table != []
  {
    if levels == map[] then DEFAULT_TABLE
    else
      var keys := Ascending(levels.Keys);
      TableNotEmpty(levels, keys);
      seq(|keys|, i requires 0 <= i < |keys| => (assert keys[i] in keys; Level(keys[i], levels[keys[i]])))
  }

  lemma TableNotEmpty(levels: map<int, int>, keys: seq<int>)
    requires levels != map[] && forall k :: k in keys <==> k in levels
    ensures keys != []
  {
    assert levels.Keys != {};
    var k := AnyOf(levels.Keys);
    assert k in keys;
  }

  predicate TableRises(table: seq<Level>) {
    forall i, j :: 0 <= i < j < |table| ==> table[i].memory < table[j].memory && table[i].priority < table[j].priority
  }

  /** Whatever was parsed, the table rises in both columns, from -1000 on. */
  lemma UsableTableRises(levels: map<int, int>)
    requires Usable(levels)
    ensures TableRises(Table(levels))
    ensures forall i :: 0 <= i < |Table(levels)| ==> Table(levels)[i].priority >= PRIORITY_MIN
  {
    hide Ascending;
    if levels != map[] {
      var keys, table := Ascending(levels.Keys), Table(levels);
      forall i | 0 <= i < |table|
        ensures keys[i] in levels && table[i] == Level(keys[i], levels[keys[i]])
      {
        assert keys[i] in keys;
      }
    }
  }

  /** The position of the first level above the free memory, or the length. */
  function FirstAbove(table: seq<Level>, free: int): (k: nat)
    ensures k <= |table|
    ensures forall i :: 0 <= i < k ==> free >= table[i].memory
    ensures k < |table| ==> free < table[k].memory
  {
    if table == [] || free < table[0].memory then 0 else 1 + FirstAbove(table[1..], free)
  }

  /** The threshold; 1001 when there is more free memory than any level. */
  function MinPrio(table: seq<Level>, free: int): int {
    var k := FirstAbove(table, free);
    if k < |table| then table[k].priority else PRIORITY_UNKNOWN + 1
  }

  /** The level at position k is the first with more memory than is free. */
  predicate FirstLevel(table: seq<Level>, free: int, k: nat) {
    k < |table| && free < table[k].memory && forall i :: 0 <= i < k ==> free >= table[i].memory
  }

  /** The level found and its ordinal; 0 and 1001 when no level is above the
      free memory. */
  ghost predicate LookedUp(table: seq<Level>, free: int, minBuf: int, minPrio: int, level: nat) {
    && (forall k: nat :: FirstLevel(table, free, k) ==>
          minBuf == table[k].memory && minPrio == table[k].priority && level == k + 1)
    && ((forall k :: 0 <= k < |table| ==> free >= table[k].memory) ==> minBuf == 0 && minPrio == 1001 && level == |table|)
  }

  lemma FoundAt(table: seq<Level>, free: int, k: nat)
    requires FirstLevel(table, free, k)
    ensures LookedUp(table, free, table[k].memory, table[k].priority, k + 1)
    ensures FirstAbove(table, free) == k && MinPrio(table, free) == table[k].priority
  {
    var first := FirstAbove(table, free);
    assert first <= k && first >= k;
  }

  lemma FoundNone(table: seq<Level>, free: int)
    requires forall k :: 0 <= k < |table| ==> free >= table[k].memory
    ensures LookedUp(table, free, 0, 1001, |table|)
    ensures FirstAbove(table, free) == |table| && MinPrio(table, free) == 1001
  {
  }

  /** The threshold is the priority of the first level above the free memory. */
  lemma ThresholdIs(table: seq<Level>, free: int, k: nat)
    ensures FirstLevel(table, free, k) ==> MinPrio(table, free) == table[k].priority
    ensures (forall i :: 0 <= i < |table| ==> free >= table[i].memory) ==> MinPrio(table, free) == 1001
  {
    var first := FirstAbove(table, free);
    if FirstLevel(table, free, k) {
      assert first <= k;
      assert first >= k;
    }
  }

  /** Without a configuration. */
  lemma DefaultThresholds(free: int)
    ensures MinPrio(Table(map[]), free) ==
            if free < 102400 then 0
            else if free < 204800 then 100
            else if free < 307200 then 200
            else if free < 409600 then 300
            else if free < 512000 then 400
            else 1001
  {
    hide MinPrio;
    var table := Table(map[]);
    ThresholdIs(table, free, 0);
    ThresholdIs(table, free, 1);
    ThresholdIs(table, free, 2);
    ThresholdIs(table, free, 3);
    ThresholdIs(table, free, 4);
  }

  /** With one: exactly its levels are in force. */
  lemma TableLists(levels: map<int, int>, memory: int, priority: int)
    requires levels != map[]
    ensures Level(memory, priority) in Table(levels) <==> memory in levels && levels[memory] == priority
  {
    hide Ascending;
    var keys, table := Ascending(levels.Keys), Table(levels);
    assert forall i :: 0 <= i < |keys| ==> keys[i] in keys;
    if memory in levels {
      assert memory in keys;
      var i :| 0 <= i < |keys| && keys[i] == memory;
      assert table[i] == Level(memory, levels[memory]);
    }
  }

  lemma {:induction false} CollectedReadable(levels: map<int, int>, nodes: seq<Node>)
    requires forall k :: k in levels ==> levels[k] != 1001
    ensures Collected(levels, nodes).Some? ==>
      forall k :: k in Collected(levels, nodes).value ==> Collected(levels, nodes).value[k] != 1001
    decreases |nodes|
  {
    if nodes != [] {
      match nodes[0]
      case Comment => CollectedReadable(levels, nodes[1..]);
      case Unknown =>
      case KillLevel(mb, prio) =>
        if prio != 1001 { CollectedReadable(levels[ToKB(mb) := prio], nodes[1..]); }
    }
  }

  /** The threshold is 1001 exactly when no level is above the free memory. */
  lemma NoThresholdIff(nodes: seq<Node>, free: int)
    ensures var table := Table(Parsed(nodes));
      MinPrio(table, free) == 1001 <==> forall i :: 0 <= i < |table| ==> free >= table[i].memory
  {
    hide Table, Collected;
    CollectedReadable(map[], nodes);
    var table, k := Table(Parsed(nodes)), FirstAbove(Table(Parsed(nodes)), free);
    if k < |table| {
      assert table[k] in table;
      if Parsed(nodes) == map[] {
        DefaultThresholds(free);
        DefaultIs();
      } else {
        TableLists(Parsed(nodes), table[k].memory, table[k].priority);
      }
    }
  }

  lemma DefaultIs()
    ensures Table(map[]) == DEFAULT_TABLE
  {
  }

  /** What an event wants: the distance from the free memory to the greatest
      level, if some memory is free and less than that. */
  lemma WantedIs(table: seq<Level>, free: int)
    requires TableRises(table) && table != []
    ensures free > 0 && (exists i :: 0 <= i < |table| && free < table[i].memory) ==>
      (forall i :: 0 <= i < |table| ==> table[i].memory <= free + Wanted(table, free)) &&
      exists i :: 0 <= i < |table| && table[i].memory == free + Wanted(table, free)
    ensures free <= 0 || (forall i :: 0 <= i < |table| ==> free >= table[i].memory) ==> Wanted(table, free) == 0
  {
    var last := |table| - 1;
    assert forall i :: 0 <= i < |table| ==> table[i].memory <= table[last].memory;
  }

  /** The bundles a pressure event may kill, by priority. */
  predicate MayBeKilled(table: seq<Level>, free: int, priority: int) {
    PRIORITY_MIN <= MinPrio(table, free) <= PRIORITY_MAX && priority >= MinPrio(table, free)
  }

  /** Less free memory never takes a bundle out of the reach of the killer. */
  lemma LessMemoryKillsMore(nodes: seq<Node>, free: int, less: int, priority: int)
    requires less <= free && MayBeKilled(Table(Parsed(nodes)), free, priority)
    ensures MayBeKilled(Table(Parsed(nodes)), less, priority)
  {
    var table := Table(Parsed(nodes));
    UsableTableRises(Parsed(nodes));
    var j, k := FirstAbove(table, less), FirstAbove(table, free);
    assert j <= k;
  }

  // ----- one pressure event

  /** Everything an event kills has at least the priority of the first level
      above the free memory. */
  lemma LevelKills(s: State, table: seq<Level>, free: int, k: nat, killed: seq<int>, t: State, i: nat)
    requires Inv(s) && FirstLevel(table, free, k)
    requires KilledFrom(s, MinPrio(table, free), killed, t) && i < |killed|
    ensures killed[i] in s.bundles && s.bundles[killed[i]].priority >= table[k].priority
  {
    hide Inv, KilledFrom, MinPrio;
    ThresholdIs(table, free, k);
    KillsInOrder(s, MinPrio(table, free), killed, t);
    assert Killable(s, killed[i], MinPrio(table, free));
  }

  /** Without a configuration, what an event kills has at least the priority of
      its interval. */
  lemma DefaultKills(s: State, free: int, killed: seq<int>, t: State, i: nat)
    requires Inv(s) && KilledFrom(s, MinPrio(Table(map[]), free), killed, t) && i < |killed|
    ensures killed[i] in s.bundles
    ensures s.bundles[killed[i]].priority >= 0
    ensures free >= 102400 ==> s.bundles[killed[i]].priority >= 100
    ensures free >= 204800 ==> s.bundles[killed[i]].priority >= 200
    ensures free >= 307200 ==> s.bundles[killed[i]].priority >= 300
    ensures free >= 409600 ==> s.bundles[killed[i]].priority >= 400
    ensures free >= 512000 ==> s.bundles[killed[i]].priority >= 1001
  {
    hide Inv, KilledFrom, MinPrio, Table;
    DefaultThresholds(free);
    KillsInOrder(s, MinPrio(Table(map[]), free), killed, t);
    assert Killable(s, killed[i], MinPrio(Table(map[]), free));
  }

  /** The bundles were taken one after the other, each the victim the scan
      returns once those before it are marked; t is what is left. */
  ghost predicate KilledFrom(s: State, minPrio: int, killed: seq<int>, t: State)
    decreases |killed|
  {
    if killed == [] then t == s
    else
      && IndexInMap(s) && Victim(s, minPrio) == Some(killed[0])
      && KilledFrom(HandleMark(s, killed[0]), minPrio, killed[1..], t)
  }

  lemma {:induction false} KilledAppend(s: State, minPrio: int, killed: seq<int>, t: State, u: int)
    requires KilledFrom(s, minPrio, killed, t) && IndexInMap(t) && Victim(t, minPrio) == Some(u)
    ensures KilledFrom(s, minPrio, killed + [u], HandleMark(t, u))
    decreases |killed|
  {
    hide Victim, HandleMark, IndexInMap;
    if killed == [] {
      assert killed + [u] == [u] && [u][1..] == [];
    } else {
      assert (killed + [u])[0] == killed[0] && (killed + [u])[1..] == killed[1..] + [u];
      KilledAppend(HandleMark(s, killed[0]), minPrio, killed[1..], t, u);
    }
  }

  /** Marking takes the victim, and nothing else, out of the killable ones. */
  lemma MarkLeavesRest(s: State, u: int, v: int, minPrio: int)
    requires u in s.bundles
    ensures Killable(HandleMark(s, u), v, minPrio) <==> v != u && Killable(s, v, minPrio)
    ensures v in s.bundles ==> Key(HandleMark(s, u).bundles, v) == Key(s.bundles, v)
  {
  }

  /** The bundles killed by one event are distinct, at least at the threshold,
      and taken in non-increasing priority. */
  lemma {:induction false} KillsInOrder(s: State, minPrio: int, killed: seq<int>, t: State)
    requires Inv(s) && KilledFrom(s, minPrio, killed, t)
    ensures Inv(t) && t.bundles.Keys == s.bundles.Keys
    ensures forall i :: 0 <= i < |killed| ==> Killable(s, killed[i], minPrio)
    ensures forall i, j :: 0 <= i < j < |killed| ==> Less(s.bundles, killed[j], killed[i])
    decreases |killed|
  {
    hide Inv, Victim;
    if killed != [] {
      var u := killed[0];
      VictimIsGreatest(s, minPrio, u);
      var s' := HandleMark(s, u);
      HandleMarkKeeps(s, u);
      KillsInOrder(s', minPrio, killed[1..], t);
      forall i | 0 < i < |killed|
        ensures Killable(s, killed[i], minPrio) && Less(s.bundles, killed[i], u)
      {
        assert killed[1..][i - 1] == killed[i];
        MarkLeavesRest(s, u, killed[i], minPrio);
      }
      forall i, j | 0 < i < j < |killed|
        ensures Less(s.bundles, killed[j], killed[i])
      {
        assert killed[1..][i - 1] == killed[i] && killed[1..][j - 1] == killed[j];
        MarkLeavesRest(s, u, killed[i], minPrio);
        MarkLeavesRest(s, u, killed[j], minPrio);
      }
      assert s'.bundles.Keys == s.bundles.Keys;
    }
  }

  /** What the first n kills freed. */
  function Freed(freed: seq<int>, n: nat): int
    requires n <= |freed|
  {
    if n == 0 then 0 else Freed(freed, n - 1) + freed[n - 1]
  }

  lemma FreedNext(freed: seq<int>, n: nat)
    requires n < |freed|
    ensures Freed(freed, 0) == 0 && Freed(freed, n + 1) == Freed(freed, n) + freed[n]
  {
  }

  /** What the outside answers in each round an event can have: the clock, what
      a kill frees, and what the buffer reads after it; int values each. */
  datatype Outside = Outside(now: seq<int>, freed: seq<int>, avail: seq<int>)

  predicate Rounds(o: Outside) {
    && |o.now| == |o.freed| == |o.avail| == MAX_KILL_CNT_PER_EVENT
    && forall i :: 0 <= i < |o.freed| ==> o.freed[i] <= MAX_BUFFER_KB
  }

  /** After n kills the event has to go on: the last one freed something, the
      buffer could be read and is below its target, and the kills together freed
      less than wanted. */
  predicate GoesOn(o: Outside, target: int, wanted: int, n: nat)
    requires Rounds(o) && 0 < n <= MAX_KILL_CNT_PER_EVENT
  {
    && o.freed[n - 1] > 0 && 0 <= o.avail[n - 1] < MAX_BUFFER_KB && o.avail[n - 1] < target
    && Freed(o.freed, n) < wanted
  }

  /** The scan finds nothing, or a bundle too young to be killed. */
  ghost predicate NothingToKill(t: State, minPrio: int, now: int) {
    IndexInMap(t) && match Victim(t, minPrio)
    case None => true
    case Some(u) => now - t.bundles[u].createTime < NOT_TO_KILL_DURING
  }

  /** Every kill but the first came while the event had to go on, and the last
      one was the last for a reason. */
  ghost predicate RightNumber(o: Outside, minPrio: int, target: int, wanted: int, kills: nat, t: State)
    requires Rounds(o) && kills <= MAX_KILL_CNT_PER_EVENT
  {
    && (forall n :: 0 < n < kills ==> GoesOn(o, target, wanted, n))
    && (|| kills == MAX_KILL_CNT_PER_EVENT
        || (kills > 0 && !GoesOn(o, target, wanted, kills))
        || NothingToKill(t, minPrio, o.now[kills]))
  }

  /** The last kill brought the buffer to its target. */
  predicate Enough(o: Outside, target: int, kills: nat)
    requires Rounds(o) && kills <= MAX_KILL_CNT_PER_EVENT
  {
    kills > 0 && o.freed[kills - 1] > 0 && target <= o.avail[kills - 1] && 0 <= o.avail[kills - 1] < MAX_BUFFER_KB
  }

  /** How much an event wants to free. */
  function Wanted(table: seq<Level>, free: int): int
    requires table != []
  {
    var target := table[|table| - 1].memory;
    if free > 0 && target > free then target - free else 0
  }

  /** The buffer reading as an unsigned int. */
  function Unsigned(raw: int): int { raw % UINT_RANGE }

  class LowMemoryKiller {
    const manager: ReclaimPriorityManager
    const levels: map<int, int>
    var killLevel: int

    constructor (manager: ReclaimPriorityManager, levels: map<int, int>)
    {
      this.manager, this.levels, killLevel := manager, levels, 0;
    }

    method QueryKillMemoryPriorityPair(free: int) returns (minBuf: int, minPrio: int, target: int, level: nat)
      ensures minPrio == MinPrio(Table(levels), free)
      ensures LookedUp(Table(levels), free, minBuf, minPrio, level)
      ensures target == Table(levels)[|Table(levels)| - 1].memory
      ensures level == AtMost(FirstAbove(Table(levels), free) + 1, |Table(levels)|)
    {
      hide LookedUp, FirstAbove, MinPrio, Table;
      var table := Table(levels);
      minBuf, minPrio, level := 0, PRIORITY_UNKNOWN + 1, 0;
      target := table[|table| - 1].memory;
      while level < |table|
        invariant 0 <= level <= |table|
        invariant minBuf == 0 && minPrio == PRIORITY_UNKNOWN + 1
        invariant forall i :: 0 <= i < level ==> free >= table[i].memory
      {
        level := level + 1;
        if free < table[level - 1].memory {
          minBuf, minPrio := table[level - 1].memory, table[level - 1].priority;
          FoundAt(table, free, level - 1);
          return;
        }
      }
      FoundNone(table, free);
    }

    /** KillOneBundleByPrio with no handler between the copy and the mark. freed
        is what the kernel reports for the processes of the bundle. */
    method KillOneBundleByPrio(minPrio: int, now: int, freed: int) returns (freedBuf: int, victim: Option<int>)
      requires manager.Valid()
      modifies manager, manager.Flat().Values
      ensures manager.Valid() && manager.Flat() == old(manager.Flat())
      ensures victim.None? ==> freedBuf == 0 && manager.Abs() == old(manager.Abs())
      ensures victim.None? <==> NothingToKill(old(manager.Abs()), minPrio, now)
      ensures victim.Some? ==> freedBuf == freed && KilledFrom(old(manager.Abs()), minPrio, [victim.value], manager.Abs())
    {
      hide Inv, Victim, HandleMark;
      freedBuf, victim := 0, None;
      ghost var s := manager.Abs();
      InvIndexInMap(s);
      var bundle := manager.GetOneKillableBundle(minPrio);
      if bundle.None? || now - bundle.value.createTime < NOT_TO_KILL_DURING {
        return;
      }
      HandleMarkKeeps(s, bundle.value.uid);
      manager.SetWaiting(bundle.value.uid, manager.Flat());
      freedBuf, victim := freed, Some(bundle.value.uid);
      OneKilled(s, minPrio, bundle.value.uid);
    }

    /** The kill loop of PsiHandlerInner. enough tells that the buffer reached
        its target. */
    method KillLoop(minPrio: int, target: int, wanted: int, o: Outside) returns (killed: seq<int>, enough: bool)
      requires manager.Valid() && Rounds(o)
      modifies manager, manager.Flat().Values
      ensures manager.Valid()
      ensures |killed| <= MAX_KILL_CNT_PER_EVENT
      ensures KilledFrom(old(manager.Abs()), minPrio, killed, manager.Abs())
      ensures RightNumber(o, minPrio, target, wanted, |killed|, manager.Abs())
      ensures enough <==> Enough(o, target, |killed|)
    {
      hide Inv, KilledFrom, NothingToKill, ReclaimPriorityManager.View, Freed;
      killed, enough := [], false;
      ghost var s := manager.Abs();
      NoneKilled(s, minPrio);
      var currKillKb, killCnt := 0, 0;
      FreedNext(o.freed, 0);
      while true
        invariant manager.Valid() && manager.Flat() == old(manager.Flat())
        invariant 0 <= killCnt < MAX_KILL_CNT_PER_EVENT && |killed| == killCnt && !enough
        invariant KilledFrom(s, minPrio, killed, manager.Abs())
        invariant currKillKb == Freed(o.freed, killCnt) && 0 <= currKillKb <= killCnt * MAX_BUFFER_KB
        invariant forall n :: 0 < n <= killCnt ==> GoesOn(o, target, wanted, n)
        decreases MAX_KILL_CNT_PER_EVENT - killCnt
      {
        ghost var t := manager.Abs();
        var freedBuf, victim := KillOneBundleByPrio(minPrio, o.now[killCnt], o.freed[killCnt]);
        if victim.None? {
          assert killCnt > 0 ==> GoesOn(o, target, wanted, killCnt);
          return;
        }
        KilledThen(s, minPrio, killed, t, victim.value, manager.Abs());
        killed := killed + [victim.value];
        if freedBuf <= 0 {
          return;
        }
        FreedNext(o.freed, killCnt);
        currKillKb := (currKillKb + freedBuf) % UINT_RANGE;
        killCnt := killCnt + 1;
        var availBuf := o.avail[killCnt - 1];
        if availBuf < 0 || availBuf >= MAX_BUFFER_KB {
          return;
        }
        if availBuf >= target {
          enough := true;
          return;
        }
        if !(currKillKb < wanted && killCnt < MAX_KILL_CNT_PER_EVENT) {
          return;
        }
      }
    }

    /** PsiHandlerInner with no handler in between. raw is the first buffer
        reading. */
    method PsiHandlerInner(raw: int, o: Outside) returns (killed: seq<int>)
      requires manager.Valid() && Rounds(o)
      modifies this, manager, manager.Flat().Values
      ensures manager.Valid()
      ensures |killed| <= 3
      ensures KilledFrom(old(manager.Abs()), MinPrio(Table(levels), Unsigned(raw)), killed, manager.Abs())
      ensures var table, free := Table(levels), Unsigned(raw);
        if free == MAX_BUFFER_KB || !(PRIORITY_MIN <= MinPrio(table, free) <= PRIORITY_MAX) then killed == []
        else RightNumber(o, MinPrio(table, free), table[|table| - 1].memory, Wanted(table, free), |killed|, manager.Abs())
      ensures var table, free := Table(levels), Unsigned(raw);
        killLevel == if free == MAX_BUFFER_KB then old(killLevel)
                     else if Enough(o, table[|table| - 1].memory, |killed|) then 0
                     else AtMost(FirstAbove(table, free) + 1, |table|)
    {
      hide Inv, KilledFrom, MinPrio, LookedUp, RightNumber, ReclaimPriorityManager.View, Freed, Table;
      killed := [];
      var free := Unsigned(raw);
      NoneKilled(manager.Abs(), MinPrio(Table(levels), free));
      if free == MAX_BUFFER_KB {
        return;
      }
      var minBuf, minPrio, target, level := QueryKillMemoryPriorityPair(free);
      killLevel := level;
      var wanted := if free > 0 && target > free then target - free else 0;
      if minPrio < PRIORITY_MIN || minPrio > PRIORITY_MAX {
        return;
      }
      var enough;
      killed, enough := KillLoop(minPrio, target, wanted, o);
      if enough {
        killLevel := 0;
      }
    }
  }

  lemma InvIndexInMap(s: State)
    requires Inv(s)
    ensures IndexInMap(s)
  {
    IndexKnown(s);
  }

  lemma OneKilled(s: State, minPrio: int, u: int)
    requires IndexInMap(s) && Victim(s, minPrio) == Some(u)
    ensures KilledFrom(s, minPrio, [u], HandleMark(s, u))
  {
    hide Victim, HandleMark;
    assert [u][1..] == [];
  }

  lemma NoneKilled(s: State, minPrio: int)
    ensures KilledFrom(s, minPrio, [], s)
  {
  }

  lemma KilledThen(s: State, minPrio: int, killed: seq<int>, t: State, u: int, t': State)
    requires KilledFrom(s, minPrio, killed, t) && KilledFrom(t, minPrio, [u], t')
    ensures KilledFrom(s, minPrio, killed + [u], t')
  {
    hide Victim, HandleMark;
    assert [u][1..] == [];
    KilledAppend(s, minPrio, killed, t, u);
  }
}
