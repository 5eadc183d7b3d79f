/**
 * Commits, snapshots, compaction, crashes and recovery as a state machine.
 * A state holds what is on disk (snapshot and journal), what is in memory, and what was committed so far.
 */
module Recovery {
  import opened Bytes
  import opened Wrappers
  import opened Ids
  import opened SortedIds
  import opened LiveTracker

  type Data = seq<Byte>

  datatype Write = Write(id: Id, data: Data)

  /** Contents of the data file: records by id, and the list each tracker stands for. */
  datatype Snap = Snap(records: map<Id, Data>, lists: map<Key, seq<Id>>)

  datatype Phase = Down | Replaying(next: nat) | Rebuilding(todo: set<Key>) | Saved | Up

  /**
   * `inflight`: writes in the journal but not yet in memory. `unindexed`: in memory but not yet in their tracker.
   * `committed`: the last bytes journalled for each id since the store was created.
   */
  datatype State = State(disk: Snap, journal: seq<Write>, phase: Phase, mem: Snap,
                         inflight: map<Id, Data>, unindexed: set<Id>, committed: map<Id, Data>)

  function KeyOf(id: Id): Key {
    (StructId(id), Tenant(id))
  }

  function ListOf(lists: map<Key, seq<Id>>, k: Key): seq<Id> {
    if k in lists then lists[k] else []
  }

  function Look(records: map<Id, Data>, id: Id): Option<Data> {
    if id in records then Some(records[id]) else None
  }

  // ----- Replay -----

  /** The journal's writes put into `records`, in order. */
  function Replay(records: map<Id, Data>, journal: seq<Write>): map<Id, Data> {
    if journal == [] then records
    else
      var w := journal[|journal| - 1];
      Replay(records, journal[..|journal| - 1])[w.id := w.data]
  }

  /** Ids replayed for tracker `k`, in order. Segments are never journalled; the guard is the source's. */
  function IdsOf(journal: seq<Write>, k: Key): seq<Id> {
    if journal == [] then []
    else
      var id := journal[|journal| - 1].id;
      IdsOf(journal[..|journal| - 1], k) + if KeyOf(id) == k && Shard(id) != TRACKER_SHARD then [id] else []
  }

  function TouchedKeys(journal: seq<Write>): set<Key> {
    set w <- journal | Shard(w.id) != TRACKER_SHARD :: KeyOf(w.id)
  }

  /** Bytes of the last write to `id` in the journal. */
  function Last(journal: seq<Write>, id: Id): Option<Data> {
    if journal == [] then None
    else if journal[|journal| - 1].id == id then Some(journal[|journal| - 1].data)
    else Last(journal[..|journal| - 1], id)
  }

  lemma {:induction false} ReplayLook(records: map<Id, Data>, journal: seq<Write>, id: Id)
    ensures Look(Replay(records, journal), id)
         == if Last(journal, id).Some? then Last(journal, id) else Look(records, id)
  {
    if journal != [] {
      ReplayLook(records, journal[..|journal| - 1], id);
    }
  }

  lemma {:induction false} SameLooks(a: map<Id, Data>, b: map<Id, Data>)
    requires forall id :: Look(a, id) == Look(b, id)
    ensures a == b
  {
    forall id ensures (id in a <==> id in b) && (id in a ==> a[id] == b[id]) {
      assert Look(a, id) == Look(b, id);
    }
    assert a.Keys == b.Keys;
  }

  /** A journal may be replayed over any part of itself: the result is that of replaying it once. */
  lemma {:induction false} ReplayIdempotent(records: map<Id, Data>, journal: seq<Write>, n: nat)
    requires n <= |journal|
    ensures Replay(Replay(records, journal[..n]), journal) == Replay(records, journal)
  {
    var partial := Replay(records, journal[..n]);
    forall id ensures Look(Replay(partial, journal), id) == Look(Replay(records, journal), id) {
      ReplayLook(partial, journal, id);
      ReplayLook(records, journal, id);
      ReplayLook(records, journal[..n], id);
      LastPrefix(journal, n, id);
    }
    SameLooks(Replay(partial, journal), Replay(records, journal));
  }

  lemma {:induction false} LastPrefix(journal: seq<Write>, n: nat, id: Id)
    requires n <= |journal|
    ensures Last(journal[..n], id).Some? ==> Last(journal, id).Some?
    decreases |journal|
  {
    if n < |journal| {
      assert journal[..|journal| - 1][..n] == journal[..n];
      LastPrefix(journal[..|journal| - 1], n, id);
    } else {
      assert journal[..n] == journal;
    }
  }

  // ----- Steps -----

  datatype Action =
    | Commit(w: Write)                // journal append and flush
    | ApplyRecord(id: Id)             // the journalled write reaches the data file
    | Index(id: Id, unique: bool)     // the tracker learns of it
    | Delete(id: Id, at: nat)         // one occurrence leaves its tracker; not journalled
    | Snapshot                        // data file flushed
    | Truncate                        // journal emptied
    | Compact                         // both, with no commit under way
    | Crash
    | Load                            // reopen: memory is the snapshot
    | ReplayOne
    | StartRebuild
    | Rebuild(k: Key)
    | SaveRecovered                   // the recovered state is flushed
    | FinishRecovery                  // the journal is emptied

  predicate Enabled(s: State, a: Action) {
    match a
    case Commit(w) => s.phase.Up? && w.id !in s.inflight && w.id !in s.unindexed && Shard(w.id) != TRACKER_SHARD
    case ApplyRecord(id) => s.phase.Up? && id in s.inflight
    case Index(id, unique) => s.phase.Up? && id in s.unindexed
    case Delete(id, at) => s.phase.Up? && at < |ListOf(s.mem.lists, KeyOf(id))| && ListOf(s.mem.lists, KeyOf(id))[at] == id
    case Snapshot => s.phase.Up?
    case Truncate => s.phase.Up?
    case Compact => s.phase.Up? && s.inflight == map[] && s.unindexed == {}
    case Crash => true
    case Load => s.phase.Down?
    case ReplayOne => s.phase.Replaying? && s.phase.next < |s.journal|
    case StartRebuild => s.phase.Replaying? && s.phase.next == |s.journal|
    case Rebuild(k) => s.phase.Rebuilding? && k in s.phase.todo
    case SaveRecovered => s.phase.Rebuilding? && s.phase.todo == {}
    case FinishRecovery => s.phase.Saved?
  }

  function Do(s: State, a: Action): State
    requires Enabled(s, a)
  {
    match a
    case Commit(w) =>
      s.(journal := s.journal + [w], inflight := s.inflight[w.id := w.data], committed := s.committed[w.id := w.data])
    case ApplyRecord(id) =>
      s.(mem := s.mem.(records := s.mem.records[id := s.inflight[id]]), inflight := s.inflight - {id},
         unindexed := s.unindexed + {id})
    case Index(id, unique) =>
      var list := ListOf(s.mem.lists, KeyOf(id));
      s.(mem := s.mem.(lists := s.mem.lists[KeyOf(id) := if unique then [id] else list + [id]]),
         unindexed := s.unindexed - {id})
    case Delete(id, at) =>
      var list := ListOf(s.mem.lists, KeyOf(id));
      s.(mem := s.mem.(lists := s.mem.lists[KeyOf(id) := list[..at] + list[at + 1..]]))
    case Snapshot => s.(disk := s.mem)
    case Truncate => s.(journal := [])
    case Compact => s.(disk := s.mem, journal := [])
    case Crash => s.(phase := Down, mem := Snap(map[], map[]), inflight := map[], unindexed := {})
    case Load => s.(phase := Replaying(0), mem := s.disk)
    case ReplayOne =>
      var w := s.journal[s.phase.next];
      s.(phase := Replaying(s.phase.next + 1), mem := s.mem.(records := s.mem.records[w.id := w.data]))
    case StartRebuild => s.(phase := Rebuilding(TouchedKeys(s.journal)))
    case Rebuild(k) =>
      var union := SortedUnion(ListOf(s.mem.lists, k) + IdsOf(s.journal, k));
      s.(phase := Rebuilding(s.phase.todo - {k}), mem := s.mem.(lists := s.mem.lists[k := union]))
    case SaveRecovered => s.(phase := Saved, disk := s.mem)
    case FinishRecovery => s.(phase := Up, journal := [])
  }

  /** The state after a run of steps, if each was possible. */
  function Exec(s: State, acts: seq<Action>): Option<State> {
    if acts == [] then Some(s)
    else
      var before := Exec(s, acts[..|acts| - 1]);
      if before.Some? && Enabled(before.value, acts[|acts| - 1]) then Some(Do(before.value, acts[|acts| - 1])) else None
  }

  const EMPTY: State := State(Snap(map[], map[]), [], Down, Snap(map[], map[]), map[], {}, map[])

  // ----- Records survive -----

  /** What reopening recovers is what was committed; memory holds it except for writes under way. */
  ghost predicate Safe(s: State) {
    && Replay(s.disk.records, s.journal) == s.committed
    && (!s.phase.Up? ==> s.inflight == map[] && s.unindexed == {})
    && (match s.phase
        case Down => true
        case Replaying(n) => n <= |s.journal| && s.mem.records == Replay(s.disk.records, s.journal[..n])
        case Rebuilding(_) => s.mem.records == s.committed
        case Saved => s.mem.records == s.committed && s.disk.records == s.committed
        case Up => InMemory(s))
  }

  ghost predicate InMemory(s: State) {
    && (forall id :: id !in s.inflight ==> Look(s.mem.records, id) == Look(s.committed, id))
    && (forall id <- s.inflight :: Last(s.journal, id).Some?)
    && (forall id <- s.inflight :: Look(s.committed, id) == Some(s.inflight[id]))
  }

  /** Every step but a bare truncation keeps records safe. */
  lemma {:induction false} StepSafe(s: State, a: Action)
    requires Safe(s) && Enabled(s, a) && !a.Truncate?
    ensures Safe(Do(s, a))
  {
    var t := Do(s, a);
    match a
    case Commit(w) => CommitSafe(s, w);
    case ApplyRecord(id) =>
    case Index(id, unique) =>
    case Delete(id, at) =>
    case Snapshot => FlushSafe(s);
    case Truncate =>
    case Compact => FlushSafe(s); QuietMemory(s);
    case Crash =>
    case Load => assert s.journal[..0] == [];
    case ReplayOne => assert s.journal[..s.phase.next + 1][..s.phase.next] == s.journal[..s.phase.next];
    case StartRebuild => assert s.journal[..s.phase.next] == s.journal;
    case Rebuild(k) =>
    case SaveRecovered => ReplayAgain(s);
    case FinishRecovery =>
  }

  lemma {:induction false} CommitSafe(s: State, w: Write)
    requires Safe(s) && Enabled(s, Commit(w))
    ensures Safe(Do(s, Commit(w)))
  {
    var t := Do(s, Commit(w));
    assert t.journal[..|t.journal| - 1] == s.journal;
  }

  /** Journal over memory: the committed records. */
  lemma {:induction false} FlushSafe(s: State)
    requires Safe(s) && s.phase.Up?
    ensures Replay(s.mem.records, s.journal) == s.committed
  {
    forall id ensures Look(Replay(s.mem.records, s.journal), id) == Look(s.committed, id) {
      ReplayLook(s.mem.records, s.journal, id);
      ReplayLook(s.disk.records, s.journal, id);
    }
    SameLooks(Replay(s.mem.records, s.journal), s.committed);
  }

  lemma {:induction false} QuietMemory(s: State)
    requires Safe(s) && s.phase.Up? && s.inflight == map[]
    ensures s.mem.records == s.committed
  {
    forall id ensures Look(s.mem.records, id) == Look(s.committed, id) {}
    SameLooks(s.mem.records, s.committed);
  }

  lemma {:induction false} ReplayAgain(s: State)
    requires Safe(s) && s.phase.Rebuilding?
    ensures Replay(s.mem.records, s.journal) == s.committed
  {
    assert s.journal[..|s.journal|] == s.journal;
    ReplayIdempotent(s.disk.records, s.journal, |s.journal|);
  }

  /** No bare truncation in a run. */
  predicate Atomic(acts: seq<Action>) {
    forall i :: 0 <= i < |acts| ==> !acts[i].Truncate?
  }

  /** Bytes of the last commit of `id` in a run. */
  function LastCommit(acts: seq<Action>, id: Id): Option<Data> {
    if acts == [] then None
    else
      var a := acts[|acts| - 1];
      if a.Commit? && a.w.id == id then Some(a.w.data) else LastCommit(acts[..|acts| - 1], id)
  }

  lemma {:induction false} RunSafe(acts: seq<Action>, id: Id)
    requires Atomic(acts) && Exec(EMPTY, acts).Some?
    ensures Safe(Exec(EMPTY, acts).value)
    ensures Look(Exec(EMPTY, acts).value.committed, id) == LastCommit(acts, id)
  {
    if acts != [] {
      var init := acts[..|acts| - 1];
      RunSafe(init, id);
      StepSafe(Exec(EMPTY, init).value, acts[|acts| - 1]);
    }
  }

  /**
   * In every run of commits, snapshots, compactions, crashes (also part-way through recovery) and reopens:
   * while the store is up, every id not just being written reads as its last committed bytes, or as absent if never committed;
   * and what a reopen would recover at any moment is the last committed bytes of every id.
   */
  lemma {:induction false} CommittedSurvives(acts: seq<Action>, id: Id)
    requires Atomic(acts) && Exec(EMPTY, acts).Some?
    ensures var s := Exec(EMPTY, acts).value;
            && Look(Replay(s.disk.records, s.journal), id) == LastCommit(acts, id)
            && (s.phase.Up? && id !in s.inflight ==> Look(s.mem.records, id) == LastCommit(acts, id))
  {
    RunSafe(acts, id);
  }

  // ----- Compaction in two halves -----

  /** Steps of clients while a compaction is between its flush and its truncation. */
  predicate ClientStep(a: Action) {
    a.Commit? || a.ApplyRecord? || a.Index? || a.Delete?
  }

  /** Each commit of the run is to an id never committed before. */
  ghost predicate FreshCommits(s: State, acts: seq<Action>) {
    forall i :: 0 <= i < |acts| && acts[i].Commit? && Exec(s, acts[..i]).Some?
            ==> acts[i].w.id !in Exec(s, acts[..i]).value.committed
  }

  predicate NoCommit(acts: seq<Action>) {
    forall i :: 0 <= i < |acts| ==> !acts[i].Commit?
  }

  /**
   * A compaction that flushes, lets clients run, and then truncates loses nothing
   * if and only if no write was under way at the flush and none was journalled before the truncation.
   */
  lemma {:induction false} SplitCompaction(s: State, acts: seq<Action>)
    requires Safe(s) && s.phase.Up?
    requires forall id <- s.inflight :: id !in s.mem.records
    requires forall i :: 0 <= i < |acts| ==> ClientStep(acts[i])
    requires FreshCommits(Do(s, Snapshot), acts) && Exec(Do(s, Snapshot), acts).Some?
    ensures var t := Exec(Do(s, Snapshot), acts).value;
            && t.phase.Up?
            && (Replay(Do(t, Truncate).disk.records, []) == t.committed <==> s.inflight == map[] && NoCommit(acts))
  {
    var t := Exec(Do(s, Snapshot), acts).value;
    ClientRun(Do(s, Snapshot), acts);
    if s.inflight == map[] && NoCommit(acts) {
      QuietMemory(s);
    } else if s.inflight != map[] {
      var id :| id in s.inflight;
      assert Look(s.committed, id).Some?;
      assert id in s.committed && id in t.committed;
    } else {
      var i :| 0 <= i < |acts| && acts[i].Commit?;
      CommitKept(Do(s, Snapshot), acts, i);
      ExecPrefix(Do(s, Snapshot), acts, i);
      ClientRun(Do(s, Snapshot), acts[..i]);
      assert acts[i].w.id !in s.committed;
      assert Look(s.mem.records, acts[i].w.id) == Look(s.committed, acts[i].w.id);
    }
  }

  predicate Commits(acts: seq<Action>, id: Id) {
    exists a <- acts :: a.Commit? && a.w.id == id
  }

  /**
   * With ids written again as well: the split loses nothing if and only if each id that was under way at the flush or
   * committed since had its last bytes in memory at the flush already.
   */
  lemma {:induction false} SplitCompactionOfRewrites(s: State, acts: seq<Action>)
    requires Safe(s) && s.phase.Up?
    requires (forall i :: 0 <= i < |acts| ==> ClientStep(acts[i])) && Exec(Do(s, Snapshot), acts).Some?
    ensures var t := Exec(Do(s, Snapshot), acts).value;
            && t.phase.Up?
            && (Replay(Do(t, Truncate).disk.records, []) == t.committed <==>
                forall id :: id in s.inflight || Commits(acts, id) ==> Look(s.mem.records, id) == Look(t.committed, id))
  {
    var t := Exec(Do(s, Snapshot), acts).value;
    ClientRun(Do(s, Snapshot), acts);
    forall id | id !in s.inflight && !Commits(acts, id) ensures Look(s.mem.records, id) == Look(t.committed, id) {
      Unwritten(Do(s, Snapshot), acts, id);
    }
    if forall id :: id in s.inflight || Commits(acts, id) ==> Look(s.mem.records, id) == Look(t.committed, id) {
      forall id ensures Look(s.mem.records, id) == Look(t.committed, id) {
      }
      SameLooks(s.mem.records, t.committed);
    }
  }

  lemma {:induction false} Unwritten(s: State, acts: seq<Action>, id: Id)
    requires s.phase.Up? && Exec(s, acts).Some? && (forall i :: 0 <= i < |acts| ==> ClientStep(acts[i])) && !Commits(acts, id)
    ensures Look(Exec(s, acts).value.committed, id) == Look(s.committed, id)
  {
    if acts != [] {
      var init := acts[..|acts| - 1];
      assert forall i :: 0 <= i < |init| ==> init[i] == acts[i];
      assert acts[|acts| - 1] in acts && forall a <- init :: a in acts;
      Unwritten(s, init, id);
    }
  }

  /** Client steps leave the disk snapshot; committed ids stay committed, and without commits nothing new is. */
  lemma {:induction false} ClientRun(s: State, acts: seq<Action>)
    requires s.phase.Up? && Exec(s, acts).Some? && forall i :: 0 <= i < |acts| ==> ClientStep(acts[i])
    ensures var t := Exec(s, acts).value;
            && t.phase.Up? && t.disk == s.disk && s.committed.Keys <= t.committed.Keys
            && (NoCommit(acts) ==> t.committed == s.committed)
  {
    if acts != [] {
      ClientRun(s, acts[..|acts| - 1]);
    }
  }

  lemma {:induction false} CommitKept(s: State, acts: seq<Action>, i: nat)
    requires s.phase.Up? && Exec(s, acts).Some? && forall j :: 0 <= j < |acts| ==> ClientStep(acts[j])
    requires i < |acts| && acts[i].Commit?
    ensures acts[i].w.id in Exec(s, acts).value.committed
  {
    var init := acts[..|acts| - 1];
    if i < |acts| - 1 {
      CommitKept(s, init, i);
    }
  }

  lemma {:induction false} ExecPrefix(s: State, acts: seq<Action>, n: nat)
    requires Exec(s, acts).Some? && n <= |acts|
    ensures Exec(s, acts[..n]).Some?
  {
    if n < |acts| {
      var init := acts[..|acts| - 1];
      ExecPrefix(s, init, n);
      assert init[..n] == acts[..n];
    } else {
      assert acts[..n] == acts;
    }
  }

  lemma {:induction false} OneMore(s0: State, acts: seq<Action>, s: State, a: Action)
    requires Exec(s0, acts) == Some(s) && Enabled(s, a)
    ensures Exec(s0, acts + [a]) == Some(Do(s, a))
  {
    assert (acts + [a])[..|acts|] == acts;
  }

  /** Opening a store with an empty journal. */
  lemma {:induction false} Boots(s0: State, acts: seq<Action>, s: State)
    requires Exec(s0, acts) == Some(s) && s.phase.Down? && s.journal == []
    ensures Exec(s0, acts + BOOT) == Some(s.(phase := Up, mem := s.disk))
  {
    hide Exec;
    assert TouchedKeys([]) == {};
    var s1 := Do(s, Load);
    OneMore(s0, acts, s, Load);
    OneMore(s0, acts + [Load], s1, StartRebuild);
    var s2 := Do(s1, StartRebuild);
    OneMore(s0, acts + [Load] + [StartRebuild], s2, SaveRecovered);
    OneMore(s0, acts + [Load] + [StartRebuild] + [SaveRecovered], Do(s2, SaveRecovered), FinishRecovery);
    assert acts + BOOT == acts + [Load] + [StartRebuild] + [SaveRecovered] + [FinishRecovery];
  }

  const BOOT: seq<Action> := [Load, StartRebuild, SaveRecovered, FinishRecovery]

  /** A run in which the split loses an acknowledged write: it is journalled, applied and indexed after the flush. */
  lemma {:induction false} SplitCompactionLoses()
    ensures var acts := BOOT + [Snapshot, Commit(Write(0, [7])), ApplyRecord(0), Index(0, false), Truncate, Crash] + BOOT;
            && Exec(EMPTY, acts).Some?
            && Exec(EMPTY, acts).value.phase.Up?
            && 0 in Exec(EMPTY, acts).value.committed
            && 0 !in Exec(EMPTY, acts).value.mem.records
  {
    hide Exec;
    var acts := BOOT + [Snapshot, Commit(Write(0, [7])), ApplyRecord(0), Index(0, false), Truncate, Crash];
    assert Exec(EMPTY, []) == Some(EMPTY) by { Nothing(EMPTY); }
    Boots(EMPTY, [], EMPTY);
    assert [] + BOOT == BOOT;
    var s0 := EMPTY.(phase := Up);
    OneMore(EMPTY, BOOT, s0, Snapshot);
    var r1, s1 := BOOT + [Snapshot], Do(s0, Snapshot);
    OneMore(EMPTY, r1, s1, Commit(Write(0, [7])));
    var r2, s2 := r1 + [Commit(Write(0, [7]))], Do(s1, Commit(Write(0, [7])));
    OneMore(EMPTY, r2, s2, ApplyRecord(0));
    var r3, s3 := r2 + [ApplyRecord(0)], Do(s2, ApplyRecord(0));
    OneMore(EMPTY, r3, s3, Index(0, false));
    var r4, s4 := r3 + [Index(0, false)], Do(s3, Index(0, false));
    OneMore(EMPTY, r4, s4, Truncate);
    var r5, s5 := r4 + [Truncate], Do(s4, Truncate);
    OneMore(EMPTY, r5, s5, Crash);
    assert r5 + [Crash] == acts;
    Boots(EMPTY, acts, Do(s5, Crash));
  }

  lemma {:induction false} Nothing(s: State)
    ensures Exec(s, []) == Some(s)
  {
  }
}
