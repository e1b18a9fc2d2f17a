# Memory manager service: a verified model

The project models the part of the memory manager service that decides which
application is reclaimed or killed first, and the smaller controllers around it.

- **The reclaim-priority registry.** `registry_types.dfy`, `bundle_index.dfy`,
  `bind_graph.dfy` and `registry.dfy` define accounts, bundles, processes, the
  sorted index, the walk over the bind graph and one step per handler.
  `registry_invariant.dfy`, `extension_pass.dfy`, `extension_rule.dfy`,
  `extension_chain.dfy`, `step_frame.dfy`, `start_timers.dfy`,
  `ability_start.dfy`, `system_protection.dfy`, `sweep.dfy`,
  `walk_completion.dfy`, `process_life.dfy` and `process_priority.dfy` prove
  what holds over every run of such steps.
  `bundle_info.dfy` and `reclaim_priority_manager.dfy` hold the registry in its
  own form, bundle objects shared between account maps and index and updated in
  place, and prove that every handler takes the step of the state machine.
- **The low-memory killer.** `killer.dfy` runs it beside the registry with
  handlers in between; `low_memory_killer.dfy` and `kill_config.dfy` hold its
  kill loop, its threshold table and the parsing of its configuration.
- **Account hot switch, NAND swap-out quota, purgeable memory, window
  visibility.** `multi_account_manager.dfy`, `nandlife_controller.dfy`,
  `purgeable_mem.dfy`, `window_visibility.dfy`.

A `Step` relates the registry before and after one handler that runs under
`totalBundlePrioSetLock_`. A `Run` starts from the empty registry. The answers
of `IsKillableSystemApp`, the configured important processes, clocks, kernel
readings, lists of living processes and the success of writes are inputs of the
events, so every statement holds for all of them.

Where the code and its description differ the model follows the code, and a
lemma says how far the description holds:

- The header says that the index is re-sorted whenever a bundle priority
  changes; an account hot switch does not (`HotSwitch.IndexSurvivesIff`,
  `HotSwitch.SwitchLosesBundle`), so hot switches are not steps of a `Run`.
- The died-process sweep does not recompute bundle priorities
  (`DiedProcessSweep.SweepExactIff`, `DiedProcessSweep.SweepCanLeaveStale`).
- README_zh.md line 87 gives an extension its least connector plus 100; on
  chains of extensions the pass does not always reach that
  (`ExtensionRule.RuleIff`, `ExtensionChain.ChainIsNotFixpoint`).
- The walk over the bind graph remembers extensions only and need not end
  (`BindGraph.TerminatesIff`, `WalkCompletion.SystemCycleGetsStuck`).
- The check for overflow in the kill configuration compares a value that has
  already wrapped (`KillConfiguration.WrapsIff`).
- The end of an ability start is meant to restore the priority the flags call
  for; in a bundle below 0 it does not (`AbilityStartWindow.TimerSettles`,
  `AbilityStartWindow.TimerLeavesRaised`).
- The killer marks by uid what it killed as an object
  (`KillOnce.WaitingKilledIff`, `KillOnce.MarkHitsAnother`).
- A new day opens swap-out without looking at the daily quota, which matters
  when that quota is zero (`NandLife.TickSafe`, `NandLife.ZeroQuotaOpens`).

## Model

| member | source | states |
|---|---|---|
| `RegistryInvariant.RunInvariant` | services/memmgrservice/src/reclaim_priority_manager/reclaim_priority_manager.cpp:542-747 | In every state of every run of create, terminate, status, suspend, bind, ability-start, timer, sweep, reset and mark steps, the index holds exactly the registered bundles, strictly ordered by (priority, uid); no bundle is empty; no bundle priority is above the clamped minimum of its processes; bundle objects have distinct identities |
| `RegistryInvariant.RunExact` | services/memmgrservice/src/reclaim_priority_manager/bundle_priority_info.cpp:88-117 | On every run without a sweep, every bundle priority equals the minimum over its non-render processes clamped to [-1000, 1000] |
| `RegistryInvariant.StepKeeps` | services/memmgrservice/src/reclaim_priority_manager/reclaim_priority_manager.cpp:933-981 | One handler run to completion, extension pass included, keeps the invariant, and keeps exactness unless it is a sweep |
| `RegistryInvariant.RemovalSkipsRecompute` | services/memmgrservice/src/reclaim_priority_manager/reclaim_priority_manager.cpp:629-652 | Not recomputing a bundle when the removed process had the greater value gives what recomputing would have given |
| `RegistryInvariant.ResortIndex` | services/memmgrservice/src/reclaim_priority_manager/reclaim_priority_manager.cpp:542-549 | Erase by comparator, recompute, insert: the index agrees with the registry again |
| `BundleIndex.FindsTarget` | services/memmgrservice/src/reclaim_priority_manager/reclaim_priority_manager.cpp:337-342 | In a sorted index the search by comparator stops at its target, whatever else changed |
| `BundleIndex.EraseTarget` | services/memmgrservice/src/reclaim_priority_manager/reclaim_priority_manager.cpp:337-342 | Erasing by comparator removes exactly its target and keeps the order |
| `BundleIndex.InsertAbsent` | services/memmgrservice/src/reclaim_priority_manager/reclaim_priority_manager.cpp:328-335 | Inserting an absent bundle adds exactly it, in order |
| `Manager.PtrLessTransitiveIff` | services/memmgrservice/include/reclaim_priority_manager/reclaim_priority_manager.h:81-98 | Along a chain of two, BundleInfoPtrCmp relates the ends exactly when their uids differ: it is transitive only while uids identify objects |
| `BindGraph.TraversalIsExact` | services/memmgrservice/src/reclaim_priority_manager/reclaim_priority_manager.cpp:803-834 | When the worklist is empty it has collected exactly the extensions reachable through live bind-from-me edges, each once, on any graph, cycles included |
| `BindGraph.TerminatesIff` | services/memmgrservice/src/reclaim_priority_manager/reclaim_priority_manager.cpp:803-834 | The worklist empties if and only if no cycle of processes that are not extensions can be reached |
| `BindGraph.CycleNeverEnds` | services/memmgrservice/src/reclaim_priority_manager/reclaim_priority_manager.cpp:815-818 | Only extensions are remembered, so a reachable cycle of other processes keeps the queue non-empty for ever |
| `BindGraph.ExtensionTargetsTerminate` | services/memmgrservice/src/reclaim_priority_manager/reclaim_priority_manager.cpp:803-834 | The walk ends on every graph in which every live bind target is an extension |
| `BindGraph.TwoPlainProcessesLoop` | services/memmgrservice/src/reclaim_priority_manager/reclaim_priority_manager.cpp:815-829 | Two processes that are not extensions and bind each other: the walk does not end |
| `WalkCompletion.HandleMarkedIff` | services/memmgrservice/src/reclaim_priority_manager/reclaim_priority_manager.cpp:749-801 | A handler leaves every live bind target an extension if and only if the event is tame: a new process is one nobody binds, and a registered target accepts the binding or is an extension already |
| `WalkCompletion.BindMarkedIff` | services/memmgrservice/src/reclaim_priority_manager/reclaim_priority_manager.cpp:749-801 | The caller records its edge before the target may refuse; a refused target that is no extension is exactly what breaks the rule |
| `WalkCompletion.RunCompletes` | services/memmgrservice/src/reclaim_priority_manager/reclaim_priority_manager.cpp:803-834 | On every run of tame events every live bind target is an extension, and every further tame event has an outcome |
| `WalkCompletion.SystemCycleGetsStuck` | services/memmgrservice/src/reclaim_priority_manager/reclaim_priority_manager.cpp:762-766 | A run of six events (two killable system applications bind each other, an ordinary one binds the first) after which the next foreground event of the ordinary one has no outcome |
| `ExtensionPass.StepEnabledIff` | services/memmgrservice/src/reclaim_priority_manager/reclaim_priority_manager.cpp:1001-1012 | An event has an outcome exactly when it starts no walk, or one that reaches no cycle of processes that are not extensions |
| `ExtensionPass.StepDeterministic` | services/memmgrservice/src/reclaim_priority_manager/reclaim_priority_manager.cpp:836-857 | An event has at most one outcome: the order in which the walk met the extensions does not matter |
| `ExtensionPass.PassOrderIff` | services/memmgrservice/src/reclaim_priority_manager/reclaim_priority_manager.cpp:836-857 | The collected extensions can be put in ProcInfoSet order exactly when the walk ends |
| `ExtensionPass.ConnectedAtMost500` | services/memmgrservice/src/reclaim_priority_manager/reclaim_priority_manager.cpp:859-896 | On any graph, every connected extension is at 500 or below after the pass |
| `ExtensionPass.PassValue` | services/memmgrservice/src/reclaim_priority_manager/reclaim_priority_manager.cpp:859-924 | When no connected extension connects another, each one that is not important ends at min(own status priority, 100 + min(400, least connector floored at 0, an unregistered one counting 0)), all at once and whatever the order |
| `ExtensionPass.PassIsFixpoint` | README_zh.md:87 | In particular, when connectors are updated before what they connect to, the documented rule holds for all connected extensions simultaneously in the final state |
| `ExtensionRule.PassValues` | services/memmgrservice/src/reclaim_priority_manager/reclaim_priority_manager.cpp:859-896 | The pass, with its writes into the registry and its re-sorting of the index, gives every connected extension the value of a recursion on priorities alone |
| `ExtensionRule.RuleIff` | README_zh.md:87 | Exact condition, read off the state before the pass: the documented rule holds for an extension if and only if the least of its connectors that are updated with it or later is the same before and after, or is both times not below what its own status and its settled connectors give |
| `ExtensionChain.ChainIsNotFixpoint` | services/memmgrservice/src/reclaim_priority_manager/reclaim_priority_manager.cpp:836-896 | A run of four events (two creations, a binding, an unbinding) after which an extension is at 100 although its only connector is at 500 |
| `ExtensionPass.PassFrame` | services/memmgrservice/src/reclaim_priority_manager/reclaim_priority_manager.cpp:859-896 | The pass changes priorities only, and only of the processes it was given |
| `SystemProtection.SystemBundleStays` | services/memmgrservice/src/reclaim_priority_manager/reclaim_priority_manager.cpp:964-967 | Once a bundle is at or below -800 it is there for the rest of every run without sweep or reset |
| `SystemProtection.GuardStays` | services/memmgrservice/src/reclaim_priority_manager/reclaim_priority_manager.cpp:1041-1046 | The same with sweeps: a process at or below -800 that is no extension stays so, and keeps its bundle there, until a reset comes or a sweep finds the process dead |
| `SystemProtection.GuardExists` | services/memmgrservice/src/reclaim_priority_manager/bundle_priority_info.cpp:88-117 | A bundle at or below -800 owes it to such a process |
| `SystemProtection.StepGuards` | services/memmgrservice/src/reclaim_priority_manager/reclaim_priority_manager.cpp:762-766 | No event reaches the priority of such a process or makes it an extension |
| `StepFrame.StepElsewhere` | services/memmgrservice/src/reclaim_priority_manager/reclaim_priority_manager.cpp:933-981 | A step not addressed to a process that is no extension leaves its priority, flags and start window alone, whatever the pass does |
| `AbilityStartWindow.EarlyStep` | services/memmgrservice/src/reclaim_priority_manager/reclaim_priority_manager.cpp:1192-1213 | A status event stamped before the start records its flags and changes nothing else |
| `AbilityStartWindow.WindowHolds` | services/memmgrservice/src/reclaim_priority_manager/reclaim_priority_manager.cpp:1275-1346 | Throughout a window of early events and events elsewhere, the process keeps its raised priority and its mark while its flags follow every event |
| `AbilityStartWindow.TimerSettles` | services/memmgrservice/src/reclaim_priority_manager/reclaim_priority_manager.cpp:470-489 | When the start timer fires, the process gets the priority its current flags call for if and only if its bundle is at 0 or above or it has that priority already; in a bundle below 0 it stays raised |
| `AbilityStartWindow.TimerLeavesRaised` | services/memmgrservice/src/reclaim_priority_manager/reclaim_priority_manager.cpp:1041-1049 | A run of five events after which a process whose flags call for 400 stays at 0 when its timer has fired, in a bundle that is no system bundle |
| `AbilityStartWindow.WindowEnds` | services/memmgrservice/src/reclaim_priority_manager/reclaim_priority_manager.cpp:436-489 | Start, any number of early events, timer: the final priority is that of the folded flags if and only if the bundle is at 0 or above when the timer fires, or the raised priority happens to be that one |
| `AbilityStartWindow.PlainStretchHolds` | services/memmgrservice/src/reclaim_priority_manager/reclaim_priority_manager.cpp:1041-1084 | Without a start, status events fold the flags and leave the process at the priority they call for |
| `AbilityStartWindow.StartLeavesNoTrace` | services/memmgrservice/src/reclaim_priority_manager/reclaim_priority_manager.cpp:1312-1346 | Take a start and its timer out of a run: while the bundle stays at 0 or above, the run without them ends with the same priority if and only if the process was settled before or a status event reached it in between |
| `StartTimers.RunTimers` | services/memmgrservice/src/reclaim_priority_manager/reclaim_priority_manager.cpp:460-468 | In every state of every run each starting process has exactly one pending timer, its own |
| `StartTimers.StepTimers` | services/memmgrservice/src/reclaim_priority_manager/reclaim_priority_manager.cpp:1287-1335 | Every step keeps that, whether it starts, restarts, finishes early or fires |
| `DiedProcessSweep.SweepLeavesTheLiving` | services/memmgrservice/src/reclaim_priority_manager/reclaim_priority_manager.cpp:659-723 | After a sweep the registered processes are exactly the previous ones alive, every bind-to and bind-from edge ends in the alive set, nothing else in them changed, no bundle is empty, and the index agrees |
| `DiedProcessSweep.SweepExactIff` | services/memmgrservice/src/reclaim_priority_manager/reclaim_priority_manager.cpp:675-690 | The sweep leaves a bundle exact if and only if a process at its clamped minimum survives (or it stands at the maximum) |
| `DiedProcessSweep.SweepCanLeaveStale` | services/memmgrservice/src/reclaim_priority_manager/reclaim_priority_manager.cpp:675-690 | A run of four events whose sweep leaves a bundle, exact before it, below its minimum |
| `KillOnce.VictimIsGreatest` | services/memmgrservice/src/reclaim_priority_manager/reclaim_priority_manager.cpp:261-302 | The reverse scan with its early break returns precisely the (priority, uid)-greatest bundle that is not waiting and at least at minPrio, and nothing exactly when there is none |
| `KillOnce.KilledAtMostOnce` | services/memmgrservice/src/kill_strategy_manager/low_memory_killer.cpp:78-124 | Over every interleaving of pressure events and registry steps, also between the copy and the mark, no bundle object is killed twice |
| `KillOnce.RunKillInv` | services/memmgrservice/src/reclaim_priority_manager/reclaim_priority_manager.cpp:304-317 | A killed bundle that is still registered is waiting, or is the one in the hands of the killer |
| `KillOnce.StepIdentities` | services/memmgrservice/src/reclaim_priority_manager/reclaim_priority_manager.cpp:579-652 | No handler clears the waiting mark or gives a bundle an identity that was used before |
| `KillOnce.WaitingKilledIff` | services/memmgrservice/src/reclaim_priority_manager/reclaim_priority_manager.cpp:304-317 | A step keeps "every waiting bundle was killed" if and only if it is not a mark, made by uid, on a bundle that took the place of the killed one |
| `KillOnce.WaitingIffKilled` | services/memmgrservice/src/kill_strategy_manager/low_memory_killer.cpp:78-124 | On every run without such a mark the registered bundles that were killed are exactly the waiting ones and the one in hand |
| `KillOnce.MarkHitsAnother` | services/memmgrservice/src/kill_strategy_manager/low_memory_killer.cpp:108-117 | A run on which a bundle terminates and is created again between its kill and the mark: the new one waits though it was never killed |
| `KillOnce.SystemBundleNeverKilled` | services/memmgrservice/src/kill_strategy_manager/low_memory_killer.cpp:87-115 | A pressure event with a threshold above -800 does not kill the bundle of a process at or below -800, at any later point of any run |
| `LowMemory.KillsInOrder` | services/memmgrservice/src/kill_strategy_manager/low_memory_killer.cpp:203-223 | The bundles one event kills are distinct, all killable at the threshold to begin with, and taken in strictly decreasing (priority, uid) order |
| `LowMemory.LessMemoryKillsMore` | services/memmgrservice/src/kill_strategy_manager/low_memory_killer.cpp:46-52 | For every configuration and the built-in table: less free memory never takes a bundle out of reach |
| `LowMemory.UsableTableRises` | services/memmgrservice/src/kill_strategy_manager/low_memory_killer.cpp:136-167 | The table in force rises in both columns and starts at -1000 or above |
| `LowMemory.LowMemoryKiller.QueryKillMemoryPriorityPair` | services/memmgrservice/src/kill_strategy_manager/low_memory_killer.cpp:126-170 | The loop with its break finds the first level above the free memory, its ordinal, and the greatest level as target |
| `LowMemory.LowMemoryKiller.KillOneBundleByPrio` | services/memmgrservice/src/kill_strategy_manager/low_memory_killer.cpp:78-124 | Marks and kills the victim of the scan, or nothing exactly when there is none or it is younger than three seconds |
| `LowMemory.LowMemoryKiller.KillLoop` | services/memmgrservice/src/kill_strategy_manager/low_memory_killer.cpp:203-223 | At most three kills; each after the first only while the last freed something, the buffer reads below target and the total freed is below the computed target; and it stops only for one of these reasons |
| `LowMemory.LowMemoryKiller.PsiHandlerInner` | services/memmgrservice/src/kill_strategy_manager/low_memory_killer.cpp:173-230 | One pressure event: no kill when the buffer cannot be read or no level applies, otherwise the right victims in the right number, and the new kill level |
| `KillConfiguration.KillConfig.ParseConfig` | common/src/config/kill_config.cpp:32-64 | For every list of nodes the result is empty or at most ten levels strictly rising in memory and priority, and is exactly the levels given when they are acceptable |
| `KillConfiguration.KillConfig.ParseKillLevelNode` | common/src/config/kill_config.cpp:71-104 | One node adds its level, or is refused and changes nothing |
| `KillConfiguration.WrapsIff` | common/src/config/kill_config.cpp:90-96 | The conversion to KB is exact exactly below 4 TB; the overflow guard never refuses anything |
| `NandLife.TickSafe` | services/memmgrservice/src/nandlife_controller/nandlife_controller.cpp:252-310 | With switch writes that take effect, a tick ends with "enabled implies below both quotas and not closed for good" unless, and only unless, the daily quota is zero and the tick opens a new day |
| `NandLife.ZeroQuotaOpens` | services/memmgrservice/src/nandlife_controller/nandlife_controller.cpp:288-298 | Start-up accepts a zero daily quota beside a positive total; the first tick that completes a saved day then switches swap-out on |
| `NandLife.InitSafe` | services/memmgrservice/src/nandlife_controller/nandlife_controller.cpp:70-129 | After start-up with a quota swap-out is on exactly when handler and configuration are there, parameters and counter could be read, it is not closed for good and both totals are below quota |
| `NandLife.RunSafe` | services/memmgrservice/src/nandlife_controller/nandlife_controller.cpp:225-310 | On every run from such a state with effective switch writes, enabled implies below both quotas and not closed for good at all tick boundaries, if and only if the daily quota is positive or no tick opens a new day |
| `NandLife.RunConserves` | services/memmgrservice/src/nandlife_controller/nandlife_controller.cpp:252-310 | Lifetime total minus last reading is constant over all ticks, failed reads and writes included; permanent closure is absorbing |
| `NandLife.LifetimeBounded` | services/memmgrservice/src/nandlife_controller/nandlife_controller.cpp:252-310 | If the kernel writes at most r per period and only while enabled, the true lifetime total never reaches quota + r |
| `NandLife.NandLifeController.CheckSwapOut` | services/memmgrservice/src/nandlife_controller/nandlife_controller.cpp:252-310 | The controller object takes exactly that tick |
| `NandLife.NandLifeController.Initialize` | services/memmgrservice/src/nandlife_controller/nandlife_controller.cpp:70-129 | The controller object starts as the start-up function says |
| `Purgeable.PurgeableMemManager.PurgHeapOneMemcg` | services/memmgrservice/src/purgeable_mem_manager/purgeable_mem_manager.cpp:422-453 | Asks one cgroup for what it holds or what is missing, whichever is less, and reports whether the target is reached |
| `Purgeable.PurgeableMemManager.PurgHeapMemcgOneByOne` | services/memmgrservice/src/purgeable_mem_manager/purgeable_mem_manager.cpp:455-479 | Users in order, then root: the result is min(target, what the accepting cgroups hold together), and every write is frugal |
| `Purgeable.HeapNeverExceeds` | services/memmgrservice/src/purgeable_mem_manager/purgeable_mem_manager.cpp:515-555 | Heap purging never exceeds its target; when every write is accepted it takes min(target, all unpinned heap) |
| `Purgeable.AllAccepted` | services/memmgrservice/src/purgeable_mem_manager/purgeable_mem_manager.cpp:439-452 | With every write accepted, what can be purged is everything the cgroups hold |
| `Purgeable.PurgeableMemManager.PurgAshmIdOneByOne` | services/memmgrservice/src/purgeable_mem_manager/purgeable_mem_manager.cpp:491-513 | Writes go to white-listed blocks only, in sorted order; what is purged is the shortest prefix of accepted ones that reaches the target, or all |
| `Purgeable.OvershootsByLess` | services/memmgrservice/src/purgeable_mem_manager/purgeable_mem_manager.cpp:506-510 | A target is overshot by less than the size of the block purged last |
| `Purgeable.NoneSkipped` | services/memmgrservice/src/purgeable_mem_manager/purgeable_mem_manager.cpp:481-489 | No block is purged while an accepted white-listed one of higher priority, or of equal priority and greater size, is left, in numbers |
| `Purgeable.BeforeIsStrictWeakOrder` | services/memmgrservice/src/purgeable_mem_manager/purgeable_mem_manager.cpp:481-489 | The comparator is what std::sort demands |
| `Purgeable.PurgeableMemManager.PurgeByTypeAndTarget` | services/memmgrservice/src/purgeable_mem_manager/purgeable_mem_manager.cpp:515-555 | What each type gives up for a target, including the purge of a whole type and the type that never gives anything |
| `Purgeable.PurgeableMemManager.TriggerByPsi` | services/memmgrservice/src/purgeable_mem_manager/purgeable_mem_manager.cpp:578-620 | Heap, then blocks only if heap was not enough; reclaimed plus remaining is the target; subscribers are trimmed exactly when the remainder is positive; nothing happens within ten seconds of the last trigger |
| `Purgeable.TrimmedIff` | services/memmgrservice/src/purgeable_mem_manager/purgeable_mem_manager.cpp:597-619 | With every write accepted, subscribers are trimmed if and only if heap and white-listed blocks fall short of the target, and then all of both is gone |
| `Purgeable.TriggersAreSpaced` | services/memmgrservice/src/purgeable_mem_manager/purgeable_mem_manager.cpp:581-587 | For every sequence of positive clock readings, triggers that go through are at least ten seconds apart |
| `WindowVisibility.RunFaithful` | services/memmgrservice/src/event/window_visibility_observer.cpp:62-129 | After any sequence of batches and deaths a process is in the map exactly when folding its infos since its last death leaves a visible window; its notifications since then alternate, starting with VISIBLE, and the last one matches |
| `WindowVisibility.BatchTurns` | services/memmgrservice/src/event/window_visibility_observer.cpp:104-129 | A batch sends at most one notification about a process, and exactly when it changed sides |
| `WindowVisibility.WindowVisibilityObserver.UpdateWindowVisibilityPriorityInner` | services/memmgrservice/src/event/window_visibility_observer.cpp:62-102 | One batch on the object: the new map and the notifications sent |
| `WindowVisibility.WindowVisibilityObserver.UpdatePriorityForVisible` | services/memmgrservice/src/event/window_visibility_observer.cpp:104-129 | The second loop marks, notifies and deletes |
| `WindowVisibility.WindowVisibilityObserver.CheckMapSize` | services/memmgrservice/src/event/window_visibility_observer.cpp:139-165 | Forgets exactly the processes that are not alive |
| `HotSwitch.ProcessesFollow` | services/memmgrservice/src/reclaim_priority_manager/bundle_priority_info.cpp:139-148 | Over any list of accounts, a hot switch moves every process of a bundle by exactly the change of the bundle |
| `HotSwitch.GapsKept` | services/memmgrservice/src/reclaim_priority_manager/bundle_priority_info.cpp:139-148 | The distance between two processes of a bundle is unchanged |
| `HotSwitch.LeastKept` | services/memmgrservice/src/reclaim_priority_manager/multi_account_manager.cpp:256-282 | "The bundle equals its least process" holds after a hot switch if and only if it held before |
| `HotSwitch.ExactKeptIff` | services/memmgrservice/src/reclaim_priority_manager/multi_account_manager.cpp:272-277 | The clamped form of that rule survives exactly when the bundle equals its least process or does not move |
| `HotSwitch.SwitchedInRange` | services/memmgrservice/src/reclaim_priority_manager/multi_account_manager.cpp:118-139 | Every bundle of an updated account ends in [0, 1000], whatever it was; the others are left alone |
| `HotSwitch.OrderWithinAccount` | services/memmgrservice/src/reclaim_priority_manager/multi_account_manager.cpp:118-139 | Within one account the order of priorities is weakly preserved |
| `HotSwitch.LandsAt` | services/memmgrservice/src/reclaim_priority_manager/multi_account_manager.cpp:118-139 | Closed form of a hot switch over any list of accounts, repetitions included: where every bundle lands |
| `HotSwitch.ChangesSidesIff` | services/memmgrservice/src/reclaim_priority_manager/multi_account_manager.cpp:256-282 | Two bundles of any accounts are in comparator order after a hot switch exactly when they do not cross |
| `HotSwitch.CrossesIff` | services/memmgrservice/src/reclaim_priority_manager/multi_account_manager.cpp:118-139 | For accounts listed once: between the ends of the range two bundles cross exactly when the accounts move towards each other by more than their gap, or by all of it against the order of uids; and what happens at either end |
| `HotSwitch.CrossesOneIff` | services/memmgrservice/src/reclaim_priority_manager/multi_account_manager.cpp:118-139 | The same when only one of the two accounts is listed |
| `HotSwitch.LeftForAnother` | services/memmgrservice/src/reclaim_priority_manager/default_multi_account_priority.cpp:26-52 | Under the default strategy the bundles of the account that is left cross those of the new one that were less than 100 behind, or exactly 100 with the smaller uid |
| `HotSwitch.IndexSurvivesIff` | services/memmgrservice/include/reclaim_priority_manager/reclaim_priority_manager.h:167-171 | The index over all accounts is still sorted after a hot switch of any list of accounts exactly when no two of its bundles, taken in order, cross: a condition on the priorities before it |
| `HotSwitch.OneAccountSurvivesIff` | services/memmgrservice/src/reclaim_priority_manager/multi_account_manager.cpp:118-139 | For an index over one account: exactly when no two priorities merge at an end of the range against the order of uids |
| `HotSwitch.SwitchLosesBundle` | services/memmgrservice/src/reclaim_priority_manager/multi_account_manager.cpp:274 | Two applications of two accounts are created and the user changes from the first account to the second: the index is out of order, and terminating the second application leaves its bundle in the index though it is registered no more |
| `HotSwitch.MultiAccountManager.HandleAccountHotSwitch` | services/memmgrservice/src/reclaim_priority_manager/multi_account_manager.cpp:256-282 | The nested loops over the shared objects compute that switch |
| `ProcessLife.EventsDecide` | services/memmgrservice/src/reclaim_priority_manager/reclaim_priority_manager.cpp:1086-1213 | In every state of every run: a process is registered, has a given flag, is an extension, is connected by or connects a given process, is starting an ability since a given time, or is configured at a given priority, exactly when some event made it so and none after that ended it; which events do is spelled out by reason, refusal, sweep and removal |
| `ProcessLife.StepTells` | services/memmgrservice/src/reclaim_priority_manager/reclaim_priority_manager.cpp:933-981 | The same for one step and one fact: only the events listed for a fact change it |
| `ProcessLife.ReasonFlags` | services/memmgrservice/src/reclaim_priority_manager/reclaim_priority_manager.cpp:1086-1167 | Each of the twelve status reasons raises or lowers its own flag (a foreground or background event also the UI flag) and no other |
| `ProcessLife.BindTells` | services/memmgrservice/src/reclaim_priority_manager/reclaim_priority_manager.cpp:749-801 | A bind or unbind: the edge of the caller whether or not the target refuses; if it does not, the connector at the target added or removed, extension on, foreground off, everything else as it was |
| `ProcessPriority.CreationStep` | services/memmgrservice/src/reclaim_priority_manager/reclaim_priority_manager.cpp:579-614 | A new process has no flags, edges or start; it is at its configured priority or 0, at -800 or below if it is a killable system application; a new bundle is as old as the event; every other process is what it was |
| `ProcessPriority.KillableNeverKilled` | services/memmgrservice/src/reclaim_priority_manager/reclaim_priority_manager.cpp:605-614 | From its creation on, until a reset or its death, no pressure event with a threshold above -800 kills the bundle of a killable system application |
| `ProcessPriority.BundleAge` | services/memmgrservice/src/reclaim_priority_manager/reclaim_priority_manager.cpp:579-604 | In every state of every run the age of a bundle is that of the creation event that found none under its uid |
| `ProcessPriority.TerminationStep` | services/memmgrservice/src/reclaim_priority_manager/reclaim_priority_manager.cpp:629-652 | After an accepted termination exactly that process is gone and every other one is unchanged; the bundle is gone exactly when it was the only one, and is recomputed when it stood at or above the process |
| `ProcessPriority.SuspensionStep` | services/memmgrservice/src/reclaim_priority_manager/reclaim_priority_manager.cpp:735-747 | A suspension puts every process of the bundle, and the bundle, at 800 and changes no other process |
| `ProcessPriority.AbilityStartStep` | services/memmgrservice/src/reclaim_priority_manager/reclaim_priority_manager.cpp:419-458 | A process above 0, or at 0 and already starting, is put at 0 and stamped; in any other case nothing changes |
| `ProcessPriority.StatusStep` | services/memmgrservice/src/reclaim_priority_manager/reclaim_priority_manager.cpp:1041-1084 | A status event of a process that is no extension gives it the priority its flags call for, unless it predates the start in progress or the bundle is below 0 |
| `ProcessPriority.CheckStep` | services/memmgrservice/src/reclaim_priority_manager/reclaim_priority_manager.cpp:551-577 | So does the delayed check after creation |
| `ProcessPriority.FlagPriorityIs` | services/memmgrservice/src/reclaim_priority_manager/reclaim_priority_manager.cpp:1050-1079 | What the flags call for: the least of 400, the number of each raised flag and the configured priority |
| `ProcessPriority.ExtensionStep` | services/memmgrservice/src/reclaim_priority_manager/reclaim_priority_manager.cpp:859-896 | After a status event or binding that refreshes it, an extension with plain connectors is at the least of its flags and 100 more than its least connector, read in the final state |
| `ProcessPriority.UnboundAt500` | services/memmgrservice/src/reclaim_priority_manager/reclaim_priority_manager.cpp:772-775 | Unbinding the only connector of an extension without flags leaves it at 500 |
| `ProcessPriority.StatusPriorityIs` | services/memmgrservice/src/reclaim_priority_manager/reclaim_priority_manager.cpp:898-924 | The status priority is the least number of the raised flags, 1000 without any, or the configured priority of an important process at or above it |
| `ProcessPriority.LeastConnectorIff` | services/memmgrservice/src/reclaim_priority_manager/reclaim_priority_manager.cpp:863-876 | The least connector, characterised: at most 400, a negative or an unregistered connector counting 0 |
| `ProcessPriority.ExtensionPriorityInNumbers` | services/memmgrservice/src/reclaim_priority_manager/reclaim_priority_manager.cpp:884-892 | What the pass gives an extension: the least of its connector plus 100, its flags and its configured priority |
| `ProcessPriority.PassKeyIs` | services/memmgrservice/src/reclaim_priority_manager/reclaim_priority_manager.cpp:836-853 | The sort key: the least of 400 and the connectors, or, if connectors are gone, the least of 0 and those after the last that is gone |
| `ProcessPriority.EarlyEndDropsTimer` | services/memmgrservice/src/reclaim_priority_manager/reclaim_priority_manager.cpp:1287-1340 | A foreground or background event that ends a start early drops the timer of that process and no other |
| `ProcessPriority.BindStatusStep` | services/memmgrservice/src/reclaim_priority_manager/reclaim_priority_manager.cpp:1145-1157 | The bind status after a binding, and after an unbinding that leaves no connector |
| `KillOnce.PickedIff` | services/memmgrservice/src/kill_strategy_manager/low_memory_killer.cpp:91-102 | A pick kills exactly the greatest killable bundle, and only if it was made at least three seconds ago |
| `LowMemory.ThresholdIs` | services/memmgrservice/src/kill_strategy_manager/low_memory_killer.cpp:136-165 | The threshold is the priority of the first level above the free memory, 1001 without one |
| `LowMemory.NoThresholdIff` | services/memmgrservice/src/kill_strategy_manager/low_memory_killer.cpp:130-165 | For every configuration it is 1001 exactly when no level is above the free memory |
| `LowMemory.DefaultThresholds` | services/memmgrservice/src/kill_strategy_manager/low_memory_killer.cpp:46-52 | The five intervals of the built-in table in numbers |
| `LowMemory.TableLists` | services/memmgrservice/src/kill_strategy_manager/low_memory_killer.cpp:152-165 | With a configuration, exactly its levels are in force |
| `LowMemory.WantedIs` | services/memmgrservice/src/kill_strategy_manager/low_memory_killer.cpp:189-194 | An event wants the distance from the free memory to the greatest level, and nothing when there is none above or no reading |
| `LowMemory.LevelKills` | services/memmgrservice/src/kill_strategy_manager/low_memory_killer.cpp:173-223 | Everything an event kills has at least the priority of the first level above the free memory |
| `LowMemory.DefaultKills` | services/memmgrservice/src/kill_strategy_manager/low_memory_killer.cpp:46-52 | The same in numbers for the built-in table |
| `NandLife.TickDecides` | services/memmgrservice/src/nandlife_controller/nandlife_controller.cpp:252-310 | When swap-out is on after a tick (both ways: it stays on below both quotas, and a saved new day opens it), when it is closed for good, and every counter, in numbers |
| `NandLife.InitSets` | services/memmgrservice/src/nandlife_controller/nandlife_controller.cpp:84-129 | What start-up sets: quotas, last reading, switch and mark |
| `Purgeable.GoesThroughIff` | services/memmgrservice/src/purgeable_mem_manager/purgeable_mem_manager.cpp:581-587 | A trigger goes through exactly when it is the first or at least ten seconds have passed since the last one that did |
| `Purgeable.ReadableAdds` | services/memmgrservice/src/purgeable_mem_manager/purgeable_mem_manager.cpp:429-436 | The unpinned heap of a cgroup is the sum over its readable processes |
| `Purgeable.PurgeableAdds` | services/memmgrservice/src/purgeable_mem_manager/purgeable_mem_manager.cpp:455-479 | What can be purged is the sum over the cgroups that accept the write |
| `Purgeable.RefusedGivesNothing` | services/memmgrservice/src/purgeable_mem_manager/purgeable_mem_manager.cpp:515-555 | With every write refused nothing counts as reclaimed |
| `KillConfiguration.ParsedIs` | common/src/config/kill_config.cpp:32-104 | Acceptable nodes (readable, distinct in memory, at most ten, rising) come out as exactly their memory and priority pairs; from any others nothing comes out |
| `WindowVisibility.BatchNamesUid` | services/memmgrservice/src/event/window_visibility_observer.cpp:76-95 | A notification names the uid the process is known under, or that of the first window it shows |
| `BundleObjects.BundleInfo.GetMinProcPriority` | services/memmgrservice/src/reclaim_priority_manager/bundle_priority_info.cpp:88-100 | The least priority of a process that is no renderer, at most 1000 |
| `BundleObjects.BundleInfo.UpdatePriority` | services/memmgrservice/src/reclaim_priority_manager/bundle_priority_info.cpp:107-117 | Sets the clamped minimum |
| `BundleObjects.BundleInfo.IncreaseProcsPriority` | services/memmgrservice/src/reclaim_priority_manager/bundle_priority_info.cpp:139-148 | Moves every process by the same amount |
| `Manager.ReclaimPriorityManager.UpdateBundlePriority` | services/memmgrservice/src/reclaim_priority_manager/reclaim_priority_manager.cpp:542-549 | On shared objects: the erase by comparator, the write through the pointer and the insert are the re-sort of the state machine |
| `Manager.ReclaimPriorityManager.GetConnectedExtensionProc` | services/memmgrservice/src/reclaim_priority_manager/reclaim_priority_manager.cpp:803-834 | The queue loop terminates whenever the walk ends and returns connected extensions, each once, and with unique pids all of them |
| `Manager.ReclaimPriorityManager.CalculateExtensionProcPrio` | services/memmgrservice/src/reclaim_priority_manager/reclaim_priority_manager.cpp:836-857 | Sorts the collected extensions by their computed key |
| `Manager.ReclaimPriorityManager.SetConnectExtensionProcPrio` | services/memmgrservice/src/reclaim_priority_manager/reclaim_priority_manager.cpp:859-896 | Takes the pass over them, re-sorting the index after each |
| `Manager.ReclaimPriorityManager.UpdatePriorityByProcStatus` | services/memmgrservice/src/reclaim_priority_manager/reclaim_priority_manager.cpp:1041-1084 | The status update, and then the pass |
| `Manager.ReclaimPriorityManager.HandleUpdateProcess` | services/memmgrservice/src/reclaim_priority_manager/reclaim_priority_manager.cpp:1192-1213 | Records the reason and updates, unless the event is early |
| `Manager.ReclaimPriorityManager.HandleCreateProcess` | services/memmgrservice/src/reclaim_priority_manager/reclaim_priority_manager.cpp:579-627 | Finds or makes the bundle, adds the process, caps a killable system application at -800 |
| `Manager.ReclaimPriorityManager.HandleTerminateProcess` | services/memmgrservice/src/reclaim_priority_manager/reclaim_priority_manager.cpp:629-652 | Removes the process, its empty bundle and account, or recomputes when needed |
| `Manager.ReclaimPriorityManager.HandleApplicationSuspend` | services/memmgrservice/src/reclaim_priority_manager/reclaim_priority_manager.cpp:735-747 | Puts every process of the bundle at 800 and re-sorts |
| `Manager.ReclaimPriorityManager.HandleExtensionProcess` | services/memmgrservice/src/reclaim_priority_manager/reclaim_priority_manager.cpp:749-801 | Edges on both ends, refusal by system applications, then the update |
| `Manager.ReclaimPriorityManager.AbilityStartHandler` | services/memmgrservice/src/reclaim_priority_manager/reclaim_priority_manager.cpp:436-458 | Raises the process, stamps it and replaces its timer |
| `Manager.ReclaimPriorityManager.CheckAbilityStartCompleted` | services/memmgrservice/src/reclaim_priority_manager/reclaim_priority_manager.cpp:470-489 | Ends the window and updates by status |
| `Manager.ReclaimPriorityManager.FilterDiedProcess` | services/memmgrservice/src/reclaim_priority_manager/reclaim_priority_manager.cpp:659-693 | The iterator-erase loops compute the sweep |
| `Manager.ReclaimPriorityManager.GetOneKillableBundle` | services/memmgrservice/src/reclaim_priority_manager/reclaim_priority_manager.cpp:261-302 | The loop from the end of the index is the scan, and the object it returns is the one the account map holds |
| `Manager.ReclaimPriorityManager.Take` | services/memmgrservice/src/reclaim_priority_manager/reclaim_priority_manager.cpp:933-981 | Any event on the object, registered under accounts uid / 200000: it takes the step of the state machine and is valid again |

## Left out

- IPC, parcels, permission checks, service start-up, dump commands, logging, observers other than window visibility, event loops and retries: plumbing around the modelled logic.
- File, /proc and parameter access, XML node walking and memcg writes: what they return is an input, what they write is an output where a property needs it.
- Cold account switch, `ReclaimConfig`, `AvailBufferManager`, `MemoryLevelManager`, subscriber lists and death recipients: no modelled decision depends on them.
- `UpdatePriorityByProcConnector`: defined but never called.
- Thread interleavings inside a locked handler. `CheckCreateProcPriorityDelay` reads the registry without the lock; it is modelled as one step that may happen at any time.
- Allocation failures and the exception path of `GetOneKillableBundle`; the name, flags and kernel scores of a bundle that no modelled decision reads.
- Requests with pid -1 other than suspend.
- Pids are taken to be unique among live processes only where a lemma says so (`UniqueProcs`, `FreshPid`).
- Render processes: their creation is refused before anything is registered, so no run has one; the priority rules still treat them as the code does.
- ExtensionPass.PassIsFixpoint: a sufficient condition on the order of updates; the exact one is `ExtensionRule.RuleIff`.
- Manager.ReclaimPriorityManager.Take: requires that the walk it starts ends, as a method that runs for ever has no state after it; for which events and states it ends is `ExtensionPass.StepEnabledIff`.
- Manager.ReclaimPriorityManager.UpdatePriorityByProcStatus: requires that the walk it starts ends, as a method that runs for ever has no state after it; for which events and states it ends is `ExtensionPass.StepEnabledIff`.
- Manager.ReclaimPriorityManager.HandleUpdateProcess: requires that the walk it starts ends, as a method that runs for ever has no state after it; for which events and states it ends is `ExtensionPass.StepEnabledIff`.
- Manager.ReclaimPriorityManager.HandleExtensionProcess: requires that the walk it starts ends, as a method that runs for ever has no state after it; for which events and states it ends is `ExtensionPass.StepEnabledIff`.
- Manager.ReclaimPriorityManager.CheckAbilityStartCompleted: requires that the walk it starts ends, as a method that runs for ever has no state after it; for which events and states it ends is `ExtensionPass.StepEnabledIff`.
- Manager.ReclaimPriorityManager.GetConnectedExtensionProc: requires that the walk ends, which is `BindGraph.TerminatesIff`. The queue holds process names instead of copies; the registry does not change during the walk.
- NandLife.RunSafe: switch writes take effect; a write that fails leaves the kernel switch as it was, whatever the controller decided.
- NandLife.NandLifeController.CheckSwapOut: counters are unbounded; 64-bit wrap-around is not modelled.
- AbilityStartWindow.StartLeavesNoTrace: the run without the start is given, with its timers renumbered, and its bundle stays at 0 or above, because a bundle below 0 refuses status updates.
- LowMemory.LowMemoryKiller.KillOneBundleByPrio: no registry step between the copy and the mark; those interleavings are in `KillOnce.KilledAtMostOnce` and `KillOnce.WaitingKilledIff`.
- LowMemory.LowMemoryKiller.PsiHandlerInner: no registry step between its rounds; interleavings are in `KillOnce.KilledAtMostOnce`.
- LowMemory.LowMemoryKiller.QueryKillMemoryPriorityPair: one loop over the table in force stands for the two loops over the built-in and the configured table.
- Purgeable.PurgeableMemManager.TriggerByPsi: sums of kilobytes are unbounded; only the subtraction that gives the target is modelled in 32 bits. A missing configuration object is not modelled.
- Purgeable.PurgeableMemManager.PurgAshmIdOneByOne: sorted by insertion instead of std::sort; the contract allows any arrangement of equal blocks.
