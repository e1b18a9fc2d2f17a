/** WindowVisibilityObserver: an index of visible windows per process, and the
    notifications sent when a process gains its first or loses its last one. */
module WindowVisibility {
  import opened Collections
  import opened RegistryTypes

  /** MemMgrWindowInfo; a null pointer in a batch is None. */
  datatype WindowInfo = WindowInfo(pid: int, uid: int, windowId: int, visible: bool)

  /** ProcessWindowVisibilityInfo. */
  datatype Entry = Entry(uid: int, visible: bool, ids: set<int>)

  /** A request to the registry: VISIBLE or UN_VISIBLE. */
  datatype Note = Note(pid: int, uid: int, visible: bool)

  type Windows = map<int, Entry>

  // ----- one batch

  /** The first loop, for one info. */
  function Applied(m: Windows, info: Option<WindowInfo>): Windows {
    match info
    case None => m
    case Some(w) =>
      if w.visible then
        if w.pid in m then m[w.pid := m[w.pid].(ids := m[w.pid].ids + {w.windowId})]
        else m[w.pid := Entry(w.uid, false, {w.windowId})]
      else if w.pid in m then m[w.pid := m[w.pid].(ids := m[w.pid].ids - {w.windowId})]
      else m
  }

  function AllApplied(m: Windows, batch: seq<Option<WindowInfo>>): Windows {
    if batch == [] then m else Applied(AllApplied(m, batch[..|batch| - 1]), batch[|batch| - 1])
  }

  /** The second loop, for one entry. */
  function NoteFor(pid: int, e: Entry): seq<Note> {
    if e.ids != {} && !e.visible then [Note(pid, e.uid, true)]
    else if e.ids == {} && e.visible then [Note(pid, e.uid, false)]
    else []
  }

  function NotesFor(m: Windows, pids: seq<int>): seq<Note>
    requires forall i :: 0 <= i < |pids| ==> pids[i] in m
  {
    if pids == [] then []
    else NotesFor(m, pids[..|pids| - 1]) + NoteFor(pids[|pids| - 1], m[pids[|pids| - 1]])
  }

  function Notes(m: Windows): seq<Note> {
    var pids := Ascending(m.Keys);
    assert forall i :: 0 <= i < |pids| ==> pids[i] in pids;
    NotesFor(m, pids)
  }

  /** The entries left after the second loop. */
  function Kept(m: Windows): Windows {
    map pid | pid in m && m[pid].ids != {} :: m[pid].(visible := true)
  }

  function AfterBatch(m: Windows, batch: seq<Option<WindowInfo>>): Windows { Kept(AllApplied(m, batch)) }

  function BatchNotes(m: Windows, batch: seq<Option<WindowInfo>>): seq<Note> { Notes(AllApplied(m, batch)) }

  // ----- what a process should see

  /** The visible windows of pid, folding the infos of a batch over those before. */
  function Folded(ids: set<int>, batch: seq<Option<WindowInfo>>, pid: int): set<int> {
    if batch == [] then ids
    else
      var before := Folded(ids, batch[..|batch| - 1], pid);
      match batch[|batch| - 1]
      case None => before
      case Some(w) =>
        if w.pid != pid then before
        else if w.visible then before + {w.windowId} else before - {w.windowId}
  }

  /** What was sent about pid. */
  function About(notes: seq<Note>, pid: int): seq<bool> {
    if notes == [] then []
    else About(notes[..|notes| - 1], pid) + if notes[|notes| - 1].pid == pid then [notes[|notes| - 1].visible] else []
  }

  datatype Event = Batch(infos: seq<Option<WindowInfo>>) | Died(pids: set<int>)

  /** A state of the observer together with everything sent so far. */
  function Next(m: Windows, e: Event): Windows {
    match e
    case Batch(infos) => AfterBatch(m, infos)
    case Died(pids) => m - pids
  }

  /** The history of one process since its last death: its visible windows by
      plain folding, and the notifications sent about it. */
  datatype History = History(ids: set<int>, sent: seq<bool>)

  function Followed(h: History, m: Windows, e: Event, pid: int): History {
    match e
    case Batch(infos) => History(Folded(h.ids, infos, pid), h.sent + About(BatchNotes(m, infos), pid))
    case Died(pids) => if pid in pids then History({}, []) else h
  }

  /** Strictly alternating, starting with VISIBLE. */
  predicate Alternates(sent: seq<bool>) {
    forall i :: 0 <= i < |sent| ==> sent[i] == (i % 2 == 0)
  }

  /** The observer knows a process exactly while it has a visible window, with
      the right windows, and the last notification says so. */
  predicate Faithful(m: Windows, h: History, pid: int) {
    && (pid in m <==> h.ids != {})
    && (pid in m ==> m[pid].ids == h.ids && m[pid].visible)
    && Alternates(h.sent)
    && (|h.sent| % 2 == 1 <==> h.ids != {})
  }

  // ----- proofs

  /** Halfway through a batch the entry may be new, or empty. */
  lemma {:induction false} AppliedFolds(m: Windows, batch: seq<Option<WindowInfo>>, pid: int, ids: set<int>)
    requires pid in m <==> ids != {}
    requires pid in m ==> m[pid].ids == ids && m[pid].visible
    ensures var a, f := AllApplied(m, batch), Folded(ids, batch, pid);
      && (pid in a ==> a[pid].ids == f && a[pid].visible == (ids != {}))
      && (pid !in a ==> f == {} && ids == {})
    decreases |batch|
  {
    if batch != [] {
      AppliedFolds(m, batch[..|batch| - 1], pid, ids);
    }
  }

  /** The info at k is the first of its batch that shows a window of pid. */
  predicate FirstShown(batch: seq<Option<WindowInfo>>, k: nat, pid: int) {
    && k < |batch| && Shows(batch[k], pid)
    && forall i :: 0 <= i < k ==> !Shows(batch[i], pid)
  }

  predicate Shows(info: Option<WindowInfo>, pid: int) { info.Some? && info.value.pid == pid && info.value.visible }

  /** A process keeps the uid it is known under; a new one is entered under the
      uid of the first window it shows. */
  lemma {:induction false} UidOfFirst(m: Windows, batch: seq<Option<WindowInfo>>, pid: int)
    ensures var a := AllApplied(m, batch);
      && (pid in m ==> pid in a && a[pid].uid == m[pid].uid)
      && (pid !in m ==> (pid in a <==> exists k: nat :: FirstShown(batch, k, pid)))
      && (pid !in m && pid in a ==> forall k: nat :: FirstShown(batch, k, pid) ==> a[pid].uid == batch[k].value.uid)
    decreases |batch|
  {
    if batch != [] {
      var init, n := batch[..|batch| - 1], |batch| - 1;
      UidOfFirst(m, init, pid);
      assert forall k: nat :: k < n ==> (FirstShown(batch, k, pid) <==> FirstShown(init, k, pid));
      if pid !in m && pid !in AllApplied(m, init) && Shows(batch[n], pid) {
        NoneShownBefore(init, pid);
        assert FirstShown(batch, n, pid);
      }
    }
  }

  lemma NoneShownBefore(batch: seq<Option<WindowInfo>>, pid: int)
    requires !exists k: nat :: FirstShown(batch, k, pid)
    ensures forall i :: 0 <= i < |batch| ==> !Shows(batch[i], pid)
  {
    NoneShownUpTo(batch, |batch|, pid);
  }

  lemma {:induction false} NoneShownUpTo(batch: seq<Option<WindowInfo>>, n: nat, pid: int)
    requires n <= |batch| && !exists k: nat :: FirstShown(batch, k, pid)
    ensures forall i :: 0 <= i < n ==> !Shows(batch[i], pid)
  {
    if n > 0 {
      NoneShownUpTo(batch, n - 1, pid);
      assert !FirstShown(batch, n - 1, pid);
    }
  }

  /** Every notification names the uid its process is known under. */
  lemma {:induction false} NotesNameUid(m: Windows, pids: seq<int>, note: Note)
    requires forall i :: 0 <= i < |pids| ==> pids[i] in m
    requires note in NotesFor(m, pids)
    ensures note.pid in m && note.uid == m[note.pid].uid
    decreases |pids|
  {
    var init, last := pids[..|pids| - 1], pids[|pids| - 1];
    if note !in NoteFor(last, m[last]) { NotesNameUid(m, init, note); }
  }

  /** So a batch notifies under the uid of the entry, or of the first window
      shown by a process without one. */
  lemma BatchNamesUid(m: Windows, batch: seq<Option<WindowInfo>>, note: Note)
    requires note in BatchNotes(m, batch)
    ensures note.pid in m ==> note.uid == m[note.pid].uid
    ensures note.pid !in m ==> exists k: nat :: FirstShown(batch, k, note.pid) && note.uid == batch[k].value.uid
  {
    hide AllApplied, NotesFor, Ascending, FirstShown;
    var a := AllApplied(m, batch);
    var pids := Ascending(a.Keys);
    assert forall i :: 0 <= i < |pids| ==> pids[i] in pids;
    NotesNameUid(a, pids, note);
    UidOfFirst(m, batch, note.pid);
    if note.pid !in m {
      var k: nat :| FirstShown(batch, k, note.pid);
    }
  }

  lemma {:induction false} AboutAppend(a: seq<Note>, b: seq<Note>, pid: int)
    ensures About(a + b, pid) == About(a, pid) + About(b, pid)
    decreases |b|
  {
    if b == [] {
      assert a + b == a;
    } else {
      var init, last := b[..|b| - 1], b[|b| - 1];
      var tail := if last.pid == pid then [last.visible] else [];
      assert (a + b)[..|a + b| - 1] == a + init && (a + b)[|a + b| - 1] == last;
      AboutAppend(a, init, pid);
      assert (About(a, pid) + About(init, pid)) + tail == About(a, pid) + (About(init, pid) + tail);
    }
  }

  lemma AboutOne(e: Entry, other: int, pid: int)
    ensures About(NoteFor(other, e), pid) ==
            if other != pid then []
            else if e.ids != {} && !e.visible then [true]
            else if e.ids == {} && e.visible then [false] else []
  {
    var notes := NoteFor(other, e);
    if |notes| == 1 {
      assert notes[..0] == [];
      assert About(notes[..0], pid) == [];
    }
  }

  /** The second loop sends at most one notification about a process. */
  lemma {:induction false} AboutNotes(m: Windows, pids: seq<int>, pid: int)
    requires Increasing(pids) && forall i :: 0 <= i < |pids| ==> pids[i] in m
    ensures About(NotesFor(m, pids), pid) == if pid in pids then About(NoteFor(pid, m[pid]), pid) else []
    decreases |pids|
  {
    hide NoteFor;
    if pids != [] {
      var init, last := pids[..|pids| - 1], pids[|pids| - 1];
      assert pids == init + [last];
      AboutNotes(m, init, pid);
      AboutAppend(NotesFor(m, init), NoteFor(last, m[last]), pid);
      AboutOne(m[last], last, pid);
      assert last !in init;
    }
  }

  /** What one batch sends about a process: whether it changed sides. */
  function Turn(before: bool, after: bool): seq<bool> { if before == after then [] else [after] }

  lemma BatchTurns(m: Windows, ids: set<int>, infos: seq<Option<WindowInfo>>, pid: int)
    requires pid in m <==> ids != {}
    requires pid in m ==> m[pid].ids == ids && m[pid].visible
    ensures About(BatchNotes(m, infos), pid) == Turn(ids != {}, Folded(ids, infos, pid) != {})
  {
    hide AllApplied, Folded, NotesFor, Ascending, About, NoteFor;
    AppliedFolds(m, infos, pid, ids);
    var a := AllApplied(m, infos);
    var pids := Ascending(a.Keys);
    assert forall i :: 0 <= i < |pids| ==> pids[i] in pids;
    assert pid in a <==> pid in pids;
    AboutNotes(a, pids, pid);
    if pid in a { AboutOne(a[pid], pid, pid); }
  }

  lemma TurnAlternates(sent: seq<bool>, before: bool, after: bool)
    requires Alternates(sent) && (|sent| % 2 == 1 <==> before)
    ensures var more := sent + Turn(before, after); Alternates(more) && (|more| % 2 == 1 <==> after)
  {
  }

  lemma BatchFaithful(m: Windows, h: History, infos: seq<Option<WindowInfo>>, pid: int)
    requires Faithful(m, h, pid)
    ensures Faithful(Next(m, Batch(infos)), Followed(h, m, Batch(infos), pid), pid)
  {
    hide AllApplied, Folded, BatchNotes, About, Alternates, Turn;
    AppliedFolds(m, infos, pid, h.ids);
    BatchTurns(m, h.ids, infos, pid);
    TurnAlternates(h.sent, h.ids != {}, Folded(h.ids, infos, pid) != {});
  }

  lemma NextFaithful(m: Windows, h: History, e: Event, pid: int)
    requires Faithful(m, h, pid)
    ensures Faithful(Next(m, e), Followed(h, m, e, pid), pid)
  {
    hide AfterBatch, BatchNotes;
    match e
    case Batch(infos) => BatchFaithful(m, h, infos, pid);
    case Died(_) =>
  }

  predicate ObserverRun(ms: seq<Windows>, events: seq<Event>) {
    && |ms| == |events| + 1 && ms[0] == map[]
    && forall i {:trigger events[i]} :: 0 <= i < |events| ==> ms[i + 1] == Next(ms[i], events[i])
  }

  /** The history of pid after the first i events. */
  function HistoryAt(ms: seq<Windows>, events: seq<Event>, i: nat, pid: int): History
    requires |ms| == |events| + 1 && i < |ms|
  {
    if i == 0 then History({}, []) else Followed(HistoryAt(ms, events, i - 1, pid), ms[i - 1], events[i - 1], pid)
  }

  /** After any sequence of batches and deaths, for every process. */
  lemma {:induction false} RunFaithful(ms: seq<Windows>, events: seq<Event>, i: nat, pid: int)
    requires ObserverRun(ms, events) && i < |ms|
    ensures Faithful(ms[i], HistoryAt(ms, events, i, pid), pid)
  {
    hide Next, Followed, Faithful;
    if i == 0 {
      NothingYet(pid);
    } else {
      RunFaithful(ms, events, i - 1, pid);
      NextFaithful(ms[i - 1], HistoryAt(ms, events, i - 1, pid), events[i - 1], pid);
    }
  }

  lemma NothingYet(pid: int)
    ensures Faithful(map[], History({}, []), pid)
  {
  }

  // ----- the second loop, halfway

  /** The map once the second loop has seen the processes in pids. */
  ghost function Settled(m: Windows, pids: seq<int>): Windows {
    map pid | pid in m :: if pid in pids then m[pid].(visible := m[pid].ids != {}) else m[pid]
  }

  /** Those of them that are to be deleted. */
  ghost function Closing(m: Windows, pids: seq<int>): set<int> {
    set pid | pid in pids && pid in m && m[pid].ids == {}
  }

  lemma SettledNone(m: Windows)
    ensures Settled(m, []) == m && Closing(m, []) == {} && NotesFor(m, []) == []
  {
    MapEqual(Settled(m, []), m);
  }

  lemma SettledNext(m: Windows, pids: seq<int>, pid: int)
    requires pid in m && pid !in pids
    requires forall i :: 0 <= i < |pids| ==> pids[i] in m
    ensures Settled(m, pids).Keys == m.Keys && Settled(m, pids)[pid] == m[pid]
    ensures Settled(m, pids + [pid]) ==
            if m[pid].ids != {} && !m[pid].visible then Settled(m, pids)[pid := m[pid].(visible := true)]
            else if m[pid].ids == {} && m[pid].visible then Settled(m, pids)[pid := m[pid].(visible := false)]
            else Settled(m, pids)
    ensures Closing(m, pids + [pid]) == Closing(m, pids) + if m[pid].ids == {} then {pid} else {}
    ensures NotesFor(m, pids + [pid]) == NotesFor(m, pids) + NoteFor(pid, m[pid])
  {
    assert (pids + [pid])[..|pids|] == pids;
    assert forall x :: x in pids + [pid] <==> x in pids || x == pid;
    var e := m[pid];
    var a := Settled(m, pids);
    assert e.(visible := e.visible) == e;
    MapEqual(Settled(m, pids + [pid]), a[pid := e.(visible := e.ids != {})]);
    if e.visible == (e.ids != {}) { MapEqual(a[pid := e], a); }
  }

  lemma SettledAll(m: Windows, pids: seq<int>)
    requires forall pid :: pid in m <==> pid in pids
    ensures Settled(m, pids) - Closing(m, pids) == Kept(m)
  {
    var a, b := Settled(m, pids) - Closing(m, pids), Kept(m);
    forall pid
      ensures pid in a <==> pid in b
      ensures pid in a ==> a[pid] == b[pid]
    {
      assert pid in m ==> (pid in Closing(m, pids) <==> m[pid].ids == {});
    }
    MapEqual(a, b);
  }

  // ----- the object

  class WindowVisibilityObserver {
    var windows: Windows

    constructor ()
      ensures windows == map[]
    {
      windows := map[];
    }

    method OnProcessDied(pid: int)
      modifies this
      ensures windows == Next(old(windows), Died({pid}))
    {
      windows := windows - {pid};
    }

    /** CheckMapSize with the kernel's list of living processes. */
    method CheckMapSize(alive: set<int>)
      modifies this
      ensures windows == Next(old(windows), Died(old(windows).Keys - alive))
    {
      var pids := Ascending(windows.Keys);
      var dead: set<int> := {};
      for i := 0 to |pids|
        invariant windows == old(windows)
        invariant forall x :: x in dead <==> x in pids[..i] && x !in alive
      {
        NextAscending(pids, i);
        if pids[i] !in alive {
          dead := dead + {pids[i]};
        }
      }
      assert pids[..|pids|] == pids;
      windows := windows - dead;
      MapEqual(windows, old(windows) - (old(windows).Keys - alive));
    }

    /** UpdateWindowVisibilityPriorityInner. */
    method UpdateWindowVisibilityPriorityInner(infos: seq<Option<WindowInfo>>) returns (sent: seq<Note>)
      modifies this
      ensures windows == Next(old(windows), Batch(infos))
      ensures sent == BatchNotes(old(windows), infos)
    {
      hide Kept, Notes;
      for i := 0 to |infos|
        invariant windows == AllApplied(old(windows), infos[..i])
      {
        assert infos[..i + 1][..i] == infos[..i];
        if infos[i].Some? {
          var w := infos[i].value;
          if w.visible {
            if w.pid in windows {
              windows := windows[w.pid := windows[w.pid].(ids := windows[w.pid].ids + {w.windowId})];
            } else {
              windows := windows[w.pid := Entry(w.uid, false, {w.windowId})];
            }
          } else if w.pid in windows {
            windows := windows[w.pid := windows[w.pid].(ids := windows[w.pid].ids - {w.windowId})];
          }
        }
      }
      assert infos[..|infos|] == infos;
      sent := UpdatePriorityForVisible();
    }

    /** UpdatePriorityForVisible. */
    method UpdatePriorityForVisible() returns (sent: seq<Note>)
      modifies this
      ensures windows == Kept(old(windows))
      ensures sent == Notes(old(windows))
    {
      hide Ascending, Increasing, Kept, Settled, NotesFor, Closing;
      ghost var m := windows;
      var pids := Ascending(windows.Keys);
      assert forall i :: 0 <= i < |pids| ==> pids[i] in pids;
      sent := [];
      var toBeDeleted: set<int> := {};
      SettledNone(m);
      for i := 0 to |pids|
        invariant sent == NotesFor(m, pids[..i])
        invariant windows == Settled(m, pids[..i])
        invariant toBeDeleted == Closing(m, pids[..i])
      {
        var pid := pids[i];
        NextAscending(pids, i);
        SettledNext(m, pids[..i], pid);
        assert pids[..i + 1] == pids[..i] + [pid];
        var e := windows[pid];
        if e.ids != {} && !e.visible {
          windows := windows[pid := e.(visible := true)];
          sent := sent + [Note(pid, e.uid, true)];
        } else if e.ids == {} {
          if e.visible {
            windows := windows[pid := e.(visible := false)];
            sent := sent + [Note(pid, e.uid, false)];
          }
          toBeDeleted := toBeDeleted + {pid};
        }
      }
      assert pids[..|pids|] == pids;
      windows := windows - toBeDeleted;
      SettledAll(m, pids);
    }
  }
}
