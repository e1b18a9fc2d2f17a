/** KillConfig: the configured thresholds, from node values already extracted. */
module KillConfiguration {
  import opened Collections
  import opened RegistryTypes

  const MAX_LEVELS := 10
  const KB_PER_MB := 1024
  const UINT_RANGE := 0x1_0000_0000

  /** A child node. A killLevel attribute that cannot be read arrives as 0
      megabytes, or as the priority 1001. */
  datatype Node = Comment | KillLevel(memoryMB: int, minPriority: int) | Unknown

  /** unsigned int arithmetic. */
  function ToKB(memoryMB: int): int { (memoryMB * KB_PER_MB) % UINT_RANGE }

  /** The multiplication by 1024 wraps around from 4 TB on, and the comparison
      with UINT_MAX that is meant to catch it compares the wrapped value. */
  lemma WrapsIff(memoryMB: int)
    requires 0 <= memoryMB < UINT_RANGE
    ensures !(ToKB(memoryMB) > UINT_RANGE - 1)
    ensures ToKB(memoryMB) == memoryMB * KB_PER_MB <==> memoryMB < 0x40_0000
  {
  }

  predicate Rising(levels: map<int, int>) {
    && (forall k :: k in levels ==> levels[k] >= PRIORITY_MIN)
    && (forall j, k :: j in levels && k in levels && j < k ==> levels[j] < levels[k])
  }

  /** Either nothing, or at most ten levels that rise in memory and priority. */
  predicate Usable(levels: map<int, int>) {
    levels == map[] || (|levels| <= MAX_LEVELS && Rising(levels))
  }

  /** The levels the nodes spell out, unless one of them is not acceptable. */
  function Collected(levels: map<int, int>, nodes: seq<Node>): Option<map<int, int>>
    decreases |nodes|
  {
    if nodes == [] then Some(levels)
    else
      match nodes[0]
      case Comment => Collected(levels, nodes[1..])
      case Unknown => None
      case KillLevel(mb, prio) =>
        if mb == 0 || prio == PRIORITY_MAX + 1 || ToKB(mb) in levels then None
        else Collected(levels[ToKB(mb) := prio], nodes[1..])
  }

  /** The outcome of parsing: all levels, or none. */
  function Parsed(nodes: seq<Node>): map<int, int> {
    match Collected(map[], nodes)
    case None => map[]
    case Some(levels) => if |levels| <= MAX_LEVELS && Rising(levels) then levels else map[]
  }

  lemma {:induction false} CollectedGrows(levels: map<int, int>, nodes: seq<Node>)
    requires |levels| > MAX_LEVELS
    ensures Collected(levels, nodes).Some? ==> |Collected(levels, nodes).value| > MAX_LEVELS
    decreases |nodes|
  {
    if nodes != [] {
      match nodes[0]
      case Comment => CollectedGrows(levels, nodes[1..]);
      case Unknown =>
      case KillLevel(mb, prio) =>
        if ToKB(mb) !in levels {
          CollectedGrows(levels[ToKB(mb) := prio], nodes[1..]);
        }
    }
  }

  // ----- what comes out, told by the nodes alone

  function Kilobytes(memoryMB: int): int { (memoryMB * 1024) % 0x1_0000_0000 }

  /** Every node can be read, no two give the same memory, and they are at most
      ten, rising in memory and priority, from -1000 on. */
  ghost predicate Acceptable(nodes: seq<Node>) {
    && (forall i :: 0 <= i < |nodes| ==> !nodes[i].Unknown?)
    && (forall i :: 0 <= i < |nodes| && nodes[i].KillLevel? ==>
          nodes[i].memoryMB != 0 && nodes[i].minPriority != 1001 && nodes[i].minPriority >= -1000)
    && (forall i, j :: 0 <= i < j < |nodes| && nodes[i].KillLevel? && nodes[j].KillLevel? ==>
          var a, b := Kilobytes(nodes[i].memoryMB), Kilobytes(nodes[j].memoryMB);
          a != b && (a < b <==> nodes[i].minPriority < nodes[j].minPriority) && nodes[i].minPriority != nodes[j].minPriority)
    && LevelCount(nodes) <= 10
  }

  function LevelCount(nodes: seq<Node>): nat {
    if nodes == [] then 0 else LevelCount(nodes[1..]) + if nodes[0].KillLevel? then 1 else 0
  }

  /** Some node gives this memory and this priority. */
  predicate Lists(nodes: seq<Node>, kb: int, prio: int) {
    exists i :: 0 <= i < |nodes| && nodes[i].KillLevel? && Kilobytes(nodes[i].memoryMB) == kb && nodes[i].minPriority == prio
  }

  predicate Has(levels: map<int, int>, kb: int, prio: int) { kb in levels && levels[kb] == prio }

  /** The nodes can be collected on top of levels. */
  ghost predicate Fresh(levels: map<int, int>, nodes: seq<Node>) {
    && (forall i :: 0 <= i < |nodes| ==> !nodes[i].Unknown?)
    && (forall i :: 0 <= i < |nodes| && nodes[i].KillLevel? ==>
          nodes[i].memoryMB != 0 && nodes[i].minPriority != 1001 && Kilobytes(nodes[i].memoryMB) !in levels)
    && (forall i, j :: 0 <= i < j < |nodes| && nodes[i].KillLevel? && nodes[j].KillLevel? ==>
          Kilobytes(nodes[i].memoryMB) != Kilobytes(nodes[j].memoryMB))
  }

  lemma ListsFirst(nodes: seq<Node>, kb: int, prio: int)
    requires nodes != []
    ensures Lists(nodes, kb, prio) <==>
      (nodes[0].KillLevel? && Kilobytes(nodes[0].memoryMB) == kb && nodes[0].minPriority == prio) || Lists(nodes[1..], kb, prio)
  {
    var rest := nodes[1..];
    assert forall i :: 0 <= i < |rest| ==> rest[i] == nodes[i + 1];
    if i :| 0 < i < |nodes| && nodes[i].KillLevel? && Kilobytes(nodes[i].memoryMB) == kb && nodes[i].minPriority == prio {
      assert rest[i - 1] == nodes[i];
    }
  }

  lemma FreshFirst(levels: map<int, int>, nodes: seq<Node>)
    requires nodes != []
    ensures Fresh(levels, nodes) <==>
      match nodes[0]
      case Comment => Fresh(levels, nodes[1..])
      case Unknown => false
      case KillLevel(mb, prio) =>
        mb != 0 && prio != 1001 && Kilobytes(mb) !in levels && Fresh(levels[Kilobytes(mb) := prio], nodes[1..])
  {
    var rest := nodes[1..];
    assert forall i :: 0 <= i < |rest| ==> rest[i] == nodes[i + 1];
    assert forall i :: 0 < i < |nodes| ==> nodes[i] == rest[i - 1];
  }

  /** Collecting succeeds exactly on fresh nodes, and then adds their levels. */
  lemma {:induction false} CollectedIs(levels: map<int, int>, nodes: seq<Node>)
    ensures Collected(levels, nodes).Some? <==> Fresh(levels, nodes)
    ensures Fresh(levels, nodes) ==>
      var all := Collected(levels, nodes).value;
      && |all| == |levels| + LevelCount(nodes)
      && forall kb, prio :: Has(all, kb, prio) <==>
           Has(levels, kb, prio) || Lists(nodes, kb, prio)
    decreases |nodes|
  {
    hide Fresh, Lists;
    if nodes == [] {
      NothingListed(levels);
    } else {
      FreshFirst(levels, nodes);
      if Fresh(levels, nodes) {
        var next := if nodes[0].KillLevel? then levels[Kilobytes(nodes[0].memoryMB) := nodes[0].minPriority] else levels;
        CollectedIs(next, nodes[1..]);
        var all := Collected(levels, nodes).value;
        forall kb, prio
          ensures Has(all, kb, prio) <==> Has(levels, kb, prio) || Lists(nodes, kb, prio)
        {
          ListsFirst(nodes, kb, prio);
          assert Has(all, kb, prio) <==> Has(next, kb, prio) || Lists(nodes[1..], kb, prio);
        }
      } else if nodes[0].Comment? {
        CollectedIs(levels, nodes[1..]);
      } else if nodes[0].KillLevel? {
        CollectedIs(levels[Kilobytes(nodes[0].memoryMB) := nodes[0].minPriority], nodes[1..]);
      }
    }
  }

  lemma NothingListed(levels: map<int, int>)
    ensures Fresh(levels, []) && forall kb, prio :: !Lists([], kb, prio)
  {
  }

  /** Acceptable nodes come out as exactly their levels; from any others nothing
      comes out. */
  lemma ParsedIs(nodes: seq<Node>)
    ensures Acceptable(nodes) ==>
      forall kb, prio :: Has(Parsed(nodes), kb, prio) <==> Lists(nodes, kb, prio)
    ensures !Acceptable(nodes) ==> Parsed(nodes) == map[]
  {
    hide Collected;
    CollectedIs(map[], nodes);
    if Fresh(map[], nodes) {
      RisingIff(nodes, Collected(map[], nodes).value);
    }
  }

  lemma RisingIff(nodes: seq<Node>, all: map<int, int>)
    requires Fresh(map[], nodes) && |all| == LevelCount(nodes)
    requires forall kb, prio :: Has(all, kb, prio) <==> Lists(nodes, kb, prio)
    ensures |all| <= 10 && Rising(all) <==> Acceptable(nodes)
  {
    forall i | 0 <= i < |nodes| && nodes[i].KillLevel?
      ensures Kilobytes(nodes[i].memoryMB) in all && all[Kilobytes(nodes[i].memoryMB)] == nodes[i].minPriority
    {
      assert Lists(nodes, Kilobytes(nodes[i].memoryMB), nodes[i].minPriority);
      assert Has(all, Kilobytes(nodes[i].memoryMB), nodes[i].minPriority);
    }
    forall kb | kb in all
      ensures Lists(nodes, kb, all[kb])
    {
      assert Has(all, kb, all[kb]);
    }
  }

  class KillConfig {
    var levels: map<int, int>

    constructor ()
      ensures levels == map[]
    {
      levels := map[];
    }

    method ParseKillLevelNode(node: Node) returns (ok: bool)
      modifies this
      ensures ok <==> Collected(old(levels), [node]).Some?
      ensures levels == if ok then Collected(old(levels), [node]).value else old(levels)
    {
      assert [node][1..] == [];
      match node {
        case Comment => return true;
        case Unknown => return false;
        case KillLevel(mb, prio) =>
          if mb == 0 || prio == PRIORITY_MAX + 1 {
            return false;
          }
          var kb := ToKB(mb);
          if kb > UINT_RANGE - 1 {
            return false;
          }
          if kb in levels {
            return false;
          }
          levels := levels[kb := prio];
          return true;
      }
    }

    /** The first loop of ParseConfig. */
    method CollectNodes(nodes: seq<Node>)
      requires levels == map[]
      modifies this
      ensures levels == match Collected(map[], nodes)
        case None => map[]
        case Some(all) => if |all| <= MAX_LEVELS then all else map[]
    {
      assert nodes[0..] == nodes;
      for i := 0 to |nodes|
        invariant |levels| <= MAX_LEVELS && Collected(levels, nodes[i..]) == Collected(map[], nodes)
      {
        CollectedStep(levels, nodes, i);
        var ok := ParseKillLevelNode(nodes[i]);
        if !ok || |levels| > MAX_LEVELS {
          if ok { CollectedGrows(levels, nodes[i + 1..]); }
          levels := map[];
          return;
        }
      }
    }

    /** The second loop of ParseConfig. */
    method CheckRising()
      modifies this
      ensures levels == if Rising(old(levels)) then old(levels) else map[]
    {
      var lastPriority := PRIORITY_MIN - 1;
      var keys := Ascending(levels.Keys);
      for j := 0 to |keys|
        invariant levels == old(levels)
        invariant j == 0 ==> lastPriority == PRIORITY_MIN - 1
        invariant j > 0 ==> keys[j - 1] in levels && lastPriority == levels[keys[j - 1]] >= PRIORITY_MIN
        invariant forall k :: 0 <= k < j ==> keys[k] in levels && PRIORITY_MIN <= levels[keys[k]] <= lastPriority
        invariant forall k, l :: 0 <= k < l < j ==> levels[keys[k]] < levels[keys[l]]
      {
        assert keys[j] in keys;
        if levels[keys[j]] <= lastPriority {
          levels := map[];
          return;
        }
        lastPriority := levels[keys[j]];
      }
      KeysRise(levels, keys);
    }

    /** ParseConfig of a fresh object. */
    method ParseConfig(nodes: seq<Node>)
      requires levels == map[]
      modifies this
      ensures levels == Parsed(nodes)
      ensures Usable(levels)
    {
      CollectNodes(nodes);
      if levels == map[] {
        return;
      }
      CheckRising();
    }
  }

  /** One node at a time. */
  lemma CollectedStep(levels: map<int, int>, nodes: seq<Node>, i: nat)
    requires i < |nodes|
    ensures Collected(levels, nodes[i..]) == match Collected(levels, [nodes[i]])
      case None => None
      case Some(more) => Collected(more, nodes[i + 1..])
  {
    assert nodes[i..][0] == nodes[i] && nodes[i..][1..] == nodes[i + 1..];
    assert [nodes[i]][1..] == [];
  }

  lemma KeysRise(levels: map<int, int>, keys: seq<int>)
    requires Increasing(keys) && forall k :: k in keys <==> k in levels
    requires forall k :: 0 <= k < |keys| ==> keys[k] in levels && levels[keys[k]] >= PRIORITY_MIN
    requires forall k, l :: 0 <= k < l < |keys| ==> levels[keys[k]] < levels[keys[l]]
    ensures Rising(levels)
  {
    forall j | j in levels
      ensures levels[j] >= PRIORITY_MIN
    {
      assert j in keys;
    }
    forall j, k | j in levels && k in levels && j < k
      ensures levels[j] < levels[k]
    {
      assert j in keys && k in keys;
      var a :| 0 <= a < |keys| && keys[a] == j;
      var b :| 0 <= b < |keys| && keys[b] == k;
      assert a < b;
    }
  }
}
