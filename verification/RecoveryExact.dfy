/** Delete-free runs in any order of commits and tracker updates: exactly when a crash leaves a tracker as it was. */
module RecoveryExact {
  import opened Wrappers
  import opened Ids
  import opened Lists
  import opened SortedIds
  import opened LiveTracker
  import opened Recovery
  import opened RecoveryLists
  import opened RecoveryOrder

  /** No delete, no truncation apart from a compaction; with `appendOnly`, no Unique tracker. */
  predicate Plain(a: Action, appendOnly: bool) {
    !a.Delete? && !a.Truncate? && (appendOnly && a.Index? ==> !a.unique)
  }

  /**
   * What such runs keep for tracker `k` while the store is up: what is listed is on disk or journalled, in append-only runs
   * along with what is pending all of it; and a tracker the journal does not touch is as on disk.
   */
  ghost predicate Kept(s: State, k: Key, appendOnly: bool) {
    && ListInPhase(s, k)
    && (!s.phase.Up? ==> s.inflight == map[] && s.unindexed == {})
    && s.inflight.Keys !! s.unindexed
    && (s.phase.Up? ==>
          Listed(ListOf(s.mem.lists, k), ListOf(s.disk.lists, k), Journalled(s, k), PendingOf(s, k), appendOnly))
  }

  ghost predicate Listed(list: seq<Id>, disk: seq<Id>, journalled: set<Id>, pending: set<Id>, appendOnly: bool) {
    && pending <= journalled
    && (journalled == {} ==> list == disk)
    && Members(list) <= Members(disk) + journalled
    && (journalled != {} ==> list != [] || pending != {})
    && (appendOnly ==> Members(list) + pending == Members(disk) + journalled)
  }

  lemma {:induction false} ListedMore(list: seq<Id>, disk: seq<Id>, journalled: set<Id>, pending: set<Id>, appendOnly: bool, id: Id, unique: bool)
    requires Listed(list, disk, journalled, pending, appendOnly) && id in pending && (appendOnly ==> !unique)
    ensures Listed(if unique then [id] else list + [id], disk, journalled, pending - {id}, appendOnly)
  {
    BothMembers(list, [id]);
    assert Members([id]) == {id};
  }

  lemma {:induction false} StepKept(s: State, a: Action, k: Key, appendOnly: bool)
    requires Kept(s, k, appendOnly) && Enabled(s, a) && Plain(a, appendOnly)
    ensures Kept(Do(s, a), k, appendOnly)
  {
    hide Listed, ListInPhase, SortedUnion, IdsOf, TouchedKeys;
    StepListInPhase(s, a, k);
    match a
    case Commit(w) => CommitListed(s, w, k, appendOnly);
    case ApplyRecord(id) => assert PendingOf(Do(s, a), k) == PendingOf(s, k);
    case Index(id, unique) => IndexListed(s, id, unique, k, appendOnly);
    case Snapshot => SnapshotListed(s, k, appendOnly);
    case Compact => FreshlyListed(Do(s, Compact), k, appendOnly);
    case FinishRecovery => FinishListed(s, k, appendOnly);
    case _ =>
  }

  lemma {:induction false} CommitListed(s: State, w: Write, k: Key, appendOnly: bool)
    requires Kept(s, k, appendOnly) && Enabled(s, Commit(w)) && ListInPhase(Do(s, Commit(w)), k)
    ensures Kept(Do(s, Commit(w)), k, appendOnly)
  {
    hide ListInPhase, IdsOf, KeyOf;
    JournalledMore(s, w, k);
  }

  lemma {:induction false} IndexListed(s: State, id: Id, unique: bool, k: Key, appendOnly: bool)
    requires Kept(s, k, appendOnly) && Enabled(s, Index(id, unique)) && Plain(Index(id, unique), appendOnly)
    requires ListInPhase(Do(s, Index(id, unique)), k)
    ensures Kept(Do(s, Index(id, unique)), k, appendOnly)
  {
    hide ListInPhase, Listed, IdsOf;
    var d := Do(s, Index(id, unique));
    if KeyOf(id) == k {
      assert PendingOf(d, k) == PendingOf(s, k) - {id};
      ListedMore(ListOf(s.mem.lists, k), ListOf(s.disk.lists, k), Journalled(s, k), PendingOf(s, k), appendOnly, id, unique);
    } else {
      assert PendingOf(d, k) == PendingOf(s, k);
    }
  }

  lemma {:induction false} SnapshotListed(s: State, k: Key, appendOnly: bool)
    requires Kept(s, k, appendOnly) && Enabled(s, Snapshot) && ListInPhase(Do(s, Snapshot), k)
    ensures Kept(Do(s, Snapshot), k, appendOnly)
  {
    hide ListInPhase, IdsOf;
    assert PendingOf(Do(s, Snapshot), k) == PendingOf(s, k);
  }

  /** With an empty journal and nothing pending, disk and memory agree. */
  lemma {:induction false} FreshlyListed(d: State, k: Key, appendOnly: bool)
    requires d.journal == [] && d.inflight == map[] && d.unindexed == {} && ListInPhase(d, k)
    requires ListOf(d.mem.lists, k) == ListOf(d.disk.lists, k)
    ensures Kept(d, k, appendOnly)
  {
    hide ListInPhase;
    assert IdsOf([], k) == [] && Members<Id>([]) == {};
    assert PendingOf(d, k) == {};
  }

  lemma {:induction false} FinishListed(s: State, k: Key, appendOnly: bool)
    requires Kept(s, k, appendOnly) && Enabled(s, FinishRecovery) && ListInPhase(Do(s, FinishRecovery), k)
    ensures Kept(Do(s, FinishRecovery), k, appendOnly)
  {
    hide IdsOf, TouchedKeys, SortedUnion;
    FreshlyListed(Do(s, FinishRecovery), k, appendOnly);
  }

  lemma {:induction false} RunKept(acts: seq<Action>, k: Key, appendOnly: bool)
    requires Exec(EMPTY, acts).Some? && forall a <- acts :: Plain(a, appendOnly)
    ensures Kept(Exec(EMPTY, acts).value, k, appendOnly)
  {
    hide Kept, Enabled;
    if acts == [] {
      assert Kept(EMPTY, k, appendOnly) by { EmptyKept(k, appendOnly); }
    } else {
      var init := acts[..|acts| - 1];
      assert acts[|acts| - 1] in acts && forall a <- init :: a in acts;
      RunKept(init, k, appendOnly);
      StepKept(Exec(EMPTY, init).value, acts[|acts| - 1], k, appendOnly);
    }
  }

  lemma {:induction false} EmptyKept(k: Key, appendOnly: bool)
    ensures Kept(EMPTY, k, appendOnly)
  {
  }

  // ----- Main results -----

  lemma {:induction false} TouchedHasOne(journal: seq<Write>, k: Key)
    ensures k in TouchedKeys(journal) <==> Members(IdsOf(journal, k)) != {}
  {
    if k in TouchedKeys(journal) {
      var w :| w in journal && Shard(w.id) != TRACKER_SHARD && KeyOf(w.id) == k;
      WrittenHasLast(journal, w);
      IdsOfMembers(journal, k, w.id);
      assert w.id in Members(IdsOf(journal, k));
    } else {
      UntouchedHasNone(journal, k);
    }
  }

  lemma {:induction false} WrittenHasLast(journal: seq<Write>, w: Write)
    requires w in journal
    ensures Last(journal, w.id).Some?
  {
    if journal[|journal| - 1].id != w.id {
      assert journal == journal[..|journal| - 1] + [journal[|journal| - 1]];
      WrittenHasLast(journal[..|journal| - 1], w);
    }
  }

  /** The recovered list after a crash, in terms of the state before it. */
  lemma {:induction false} AfterCrash(s: State, recovery: seq<Action>, k: Key)
    requires AllRecovery(recovery) && Exec(Do(s, Crash), recovery).Some? && Exec(Do(s, Crash), recovery).value.phase.Up?
    ensures var after := ListOf(Exec(Do(s, Crash), recovery).value.mem.lists, k);
            if k in TouchedKeys(s.journal) then StrictlyOrdered(after) && Members(after) == Members(ListOf(s.disk.lists, k)) + Journalled(s, k)
            else after == ListOf(s.disk.lists, k)
  {
    hide Exec, StrictlyOrdered, IdsOf, TouchedKeys;
    RecoveredList(Do(s, Crash), recovery, k);
  }

  /**
   * In every delete-free run of appends, whatever the order of ticks and of tracker updates, a crash and a reopen give a quiet
   * tracker back exactly if and only if the journal does not touch it or its list is in strict order.
   */
  lemma {:induction false} SameListIff(acts: seq<Action>, recovery: seq<Action>, k: Key)
    requires Exec(EMPTY, acts).Some? && (forall a <- acts :: Plain(a, true)) && Quiet(Exec(EMPTY, acts).value, k)
    requires var c := Exec(Do(Exec(EMPTY, acts).value, Crash), recovery); AllRecovery(recovery) && c.Some? && c.value.phase.Up?
    ensures var s := Exec(EMPTY, acts).value;
            var before := ListOf(s.mem.lists, k);
            ListOf(Exec(Do(s, Crash), recovery).value.mem.lists, k) == before
            <==> k !in TouchedKeys(s.journal) || StrictlyOrdered(before)
  {
    hide Exec, ListInPhase, TouchedKeys, IdsOf, StrictlyOrdered, Do;
    var s := Exec(EMPTY, acts).value;
    var before, after := ListOf(s.mem.lists, k), ListOf(Exec(Do(s, Crash), recovery).value.mem.lists, k);
    RunKept(acts, k, true);
    AfterCrash(s, recovery, k);
    TouchedHasOne(s.journal, k);
    assert PendingOf(s, k) == {};
    if k in TouchedKeys(s.journal) && StrictlyOrdered(before) {
      assert Members(before) == Members(before) + {};
      OneOrderedList(before, after);
    }
  }

  /** A nonempty strictly ordered list ends with the newest of its ids, and there is only one. */
  lemma {:induction false} LastIsTheNewest(list: seq<Id>, m: Id)
    requires StrictlyOrdered(list) && list != [] && m in Members(list)
    ensures Newest(m, Members(list)) <==> m == list[|list| - 1]
  {
    var last := list[|list| - 1];
    assert last in Members(list);
    assert Newest(last, Members(list));
  }

  /**
   * In every delete-free run, with Unique trackers as well, the id a quiet tracker serves is the same after a crash and a
   * reopen if and only if the journal does not touch the tracker or that id is the newest of those on disk and journalled.
   */
  lemma {:induction false} SameServedIff(acts: seq<Action>, recovery: seq<Action>, k: Key)
    requires Exec(EMPTY, acts).Some? && (forall a <- acts :: Plain(a, false)) && Quiet(Exec(EMPTY, acts).value, k)
    requires var c := Exec(Do(Exec(EMPTY, acts).value, Crash), recovery); AllRecovery(recovery) && c.Some? && c.value.phase.Up?
    ensures var s := Exec(EMPTY, acts).value;
            var before, after := ListOf(s.mem.lists, k), ListOf(Exec(Do(s, Crash), recovery).value.mem.lists, k);
            && (before == [] <==> after == [])
            && (before != [] ==>
                  (after[|after| - 1] == before[|before| - 1] <==>
                   k !in TouchedKeys(s.journal) || Newest(before[|before| - 1], Members(ListOf(s.disk.lists, k)) + Journalled(s, k))))
  {
    hide Exec, ListInPhase, TouchedKeys, IdsOf, StrictlyOrdered, Do, Newest;
    var s := Exec(EMPTY, acts).value;
    var before, after := ListOf(s.mem.lists, k), ListOf(Exec(Do(s, Crash), recovery).value.mem.lists, k);
    RunKept(acts, k, false);
    AfterCrash(s, recovery, k);
    TouchedHasOne(s.journal, k);
    assert PendingOf(s, k) == {};
    if k in TouchedKeys(s.journal) {
      assert after != [] by { assert Members(after) != {}; }
      assert before[|before| - 1] in Members(before);
      LastIsTheNewest(after, before[|before| - 1]);
    }
  }

  // ----- Recovery always gets through -----

  function Rank(s: State): nat {
    match s.phase
    case Down => 4
    case Replaying(_) => 3
    case Rebuilding(_) => 2
    case Saved => 1
    case Up => 0
  }

  function Left(s: State): nat {
    match s.phase
    case Replaying(n) => if n <= |s.journal| then |s.journal| - n else 0
    case Rebuilding(todo) => |todo|
    case _ => 0
  }

  lemma {:induction false} FinishFrom(s0: State, acts: seq<Action>, s: State) returns (all: seq<Action>)
    requires Exec(s0, acts) == Some(s) && AllRecovery(acts) && (s.phase.Replaying? ==> s.phase.next <= |s.journal|)
    ensures AllRecovery(all) && Exec(s0, all).Some? && Exec(s0, all).value.phase.Up?
    decreases Rank(s), Left(s)
  {
    hide Exec, SortedUnion, IdsOf, TouchedKeys;
    if s.phase.Up? {
      all := acts;
      return;
    }
    var a;
    match s.phase {
      case Down => a := Load;
      case Replaying(n) => a := if n < |s.journal| then ReplayOne else StartRebuild;
      case Rebuilding(todo) =>
        if todo == {} {
          a := SaveRecovered;
        } else {
          var k :| k in todo;
          a := Rebuild(k);
        }
      case Saved => a := FinishRecovery;
    }
    OneMore(s0, acts, s, a);
    all := FinishFrom(s0, acts + [a], Do(s, a));
  }

  /** From every store that is down some run of recovery steps brings it up. */
  lemma {:induction false} CanRecover(s: State) returns (recovery: seq<Action>)
    requires s.phase.Down?
    ensures AllRecovery(recovery) && Exec(s, recovery).Some? && Exec(s, recovery).value.phase.Up?
  {
    hide Exec;
    Nothing(s);
    recovery := FinishFrom(s, [], s);
  }

  // ----- Two commits indexed the other way round -----

  const TWO_COMMITS: seq<Action> := [Commit(Write(0, [7])), Commit(Write(1, [8])), ApplyRecord(0), ApplyRecord(1)]

  /** The tracker ends with the older id before the crash and with the newer one after it, Unique or not. */
  lemma {:induction false} IndexedOutOfOrder(unique: bool) returns (recovery: seq<Action>)
    ensures var acts := BOOT + TWO_COMMITS + [Index(1, unique)] + [Index(0, unique)];
            var c := Exec(EMPTY, acts);
            && c.Some? && Quiet(c.value, (0, 0))
            && ListOf(c.value.mem.lists, (0, 0)) == (if unique then [0] else [1, 0])
            && AllRecovery(recovery) && Exec(Do(c.value, Crash), recovery).Some? && Exec(Do(c.value, Crash), recovery).value.phase.Up?
            && ListOf(Exec(Do(c.value, Crash), recovery).value.mem.lists, (0, 0)) == [0, 1]
  {
    hide Exec, StrictlyOrdered, AllRecovery;
    var acts := BOOT + TWO_COMMITS;
    var s := TwoCommits();
    OneMore(EMPTY, acts, s, Index(1, unique));
    var s1 := Do(s, Index(1, unique));
    assert KeyOf(0) == KeyOf(1) == (0, 0);
    assert ListOf(s1.mem.lists, (0, 0)) == [1];
    OneMore(EMPTY, acts + [Index(1, unique)], s1, Index(0, unique));
    var s2 := Do(s1, Index(0, unique));
    assert PendingOf(s2, (0, 0)) == {};
    recovery := CanRecover(Do(s2, Crash));
    AfterCrash(s2, recovery, (0, 0));
    BothJournalled(s2.journal);
    OneOrderedList(ListOf(Exec(Do(s2, Crash), recovery).value.mem.lists, (0, 0)), [0, 1]);
  }

  lemma {:induction false} TwoCommits() returns (s: State)
    ensures Exec(EMPTY, BOOT + TWO_COMMITS) == Some(s)
    ensures s.phase.Up? && s.journal == [Write(0, [7]), Write(1, [8])] && s.disk == Snap(map[], map[]) && s.mem.lists == map[]
    ensures s.inflight == map[] && s.unindexed == {0, 1}
  {
    hide Exec;
    Nothing(EMPTY);
    Boots(EMPTY, [], EMPTY);
    assert [] + BOOT == BOOT;
    var up := EMPTY.(phase := Up);
    OneMore(EMPTY, BOOT, up, Commit(Write(0, [7])));
    var s1, r1 := Do(up, Commit(Write(0, [7]))), BOOT + [Commit(Write(0, [7]))];
    OneMore(EMPTY, r1, s1, Commit(Write(1, [8])));
    var s2, r2 := Do(s1, Commit(Write(1, [8]))), r1 + [Commit(Write(1, [8]))];
    OneMore(EMPTY, r2, s2, ApplyRecord(0));
    var s3 := Do(s2, ApplyRecord(0));
    OneMore(EMPTY, r2 + [ApplyRecord(0)], s3, ApplyRecord(1));
    s := Do(s3, ApplyRecord(1));
    assert BOOT + TWO_COMMITS == r2 + [ApplyRecord(0)] + [ApplyRecord(1)];
  }

  lemma {:induction false} BothJournalled(journal: seq<Write>)
    requires journal == [Write(0, [7]), Write(1, [8])]
    ensures (0, 0) in TouchedKeys(journal) && Members(IdsOf(journal, (0, 0))) == {0, 1}
    ensures Members<Id>([]) + {0, 1} == Members([0, 1]) && StrictlyOrdered([0, 1])
  {
    assert journal[0] in journal;
    assert journal[..1] == [Write(0, [7])] && [Write(0, [7])][..0] == [];
    assert IdsOf([Write(0, [7])], (0, 0)) == [0];
    assert IdsOf(journal, (0, 0)) == [0, 1];
  }
}
