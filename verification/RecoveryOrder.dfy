/** Runs without deletes whose creation ticks increase: what a crash does to the order of a tracker. */
module RecoveryOrder {
  import opened Ids
  import opened Lists
  import opened SortedIds
  import opened LiveTracker
  import opened Recovery
  import opened RecoveryLists

  /** Ids committed for tracker `k`. */
  ghost function CommittedOf(s: State, k: Key): set<Id> {
    set id | id in s.committed && KeyOf(id) == k
  }

  /** Ids of tracker `k` journalled but not yet in it. */
  ghost function PendingOf(s: State, k: Key): set<Id> {
    set id | id in s.inflight.Keys + s.unindexed && KeyOf(id) == k
  }

  ghost function Journalled(s: State, k: Key): set<Id> {
    Members(IdsOf(s.journal, k))
  }

  /**
   * A step of an ordered run: ids are committed in increasing order, trackers learn of them in that order,
   * nothing is deleted. With `appendOnly`, no tracker is a Unique one.
   */
  ghost predicate InOrder(s: State, a: Action, appendOnly: bool) {
    match a
    case Commit(w) => forall id <- CommittedOf(s, KeyOf(w.id)) :: Before(id, w.id)
    case Index(id, unique) => (appendOnly ==> !unique) && forall y <- PendingOf(s, KeyOf(id)) :: y == id || Before(id, y)
    case Delete(_, _) => false
    case Truncate => false
    case _ => true
  }

  // ----- One tracker, as lists and sets of ids -----

  ghost predicate Newest(m: Id, ids: set<Id>) {
    forall x <- ids :: x == m || Before(x, m)
  }

  lemma {:induction false} HasNewest(ids: set<Id>) returns (m: Id)
    requires ids != {}
    ensures m in ids && Newest(m, ids)
    decreases ids
  {
    var first :| first in ids;
    m := first;
    if ids != {first} {
      var other := HasNewest(ids - {first});
      m := if Before(first, other) then other else first;
      forall x <- ids ensures x == m || Before(x, m) {
        assert x == first || x in ids - {first};
      }
    }
  }

  /** The newest id of `big` is in `small`. */
  ghost predicate Covers(small: set<Id>, big: set<Id>) {
    big != {} ==> exists m <- small :: Newest(m, big)
  }

  /** On disk: ids committed, the newest among them, and all of them if nothing was rotated out. */
  ghost predicate DiskHolds(list: seq<Id>, journalled: set<Id>, all: set<Id>, appendOnly: bool) {
    var kept := Members(list) + journalled;
    && StrictlyOrdered(list)
    && kept <= all
    && Covers(kept, all)
    && (appendOnly ==> kept == all)
  }

  /** In memory: the same of the ids not pending; those pending are newer and still in the journal. */
  ghost predicate TrackerHolds(list: seq<Id>, journalled: set<Id>, all: set<Id>, pending: set<Id>, appendOnly: bool) {
    && DiskHolds(list, {}, all - pending, appendOnly)
    && (forall x <- all - pending, y <- pending :: Before(x, y))
    && pending <= journalled && pending <= all
  }

  lemma {:induction false} NewestPending(list: seq<Id>, journalled: set<Id>, all: set<Id>, pending: set<Id>, appendOnly: bool, id: Id)
    requires TrackerHolds(list, journalled, all, pending, appendOnly) && forall x <- all :: Before(x, id)
    ensures TrackerHolds(list, journalled + {id}, all + {id}, pending + {id}, appendOnly)
  {
    assert id !in all;
    assert all + {id} - (pending + {id}) == all - pending;
  }

  lemma {:induction false} NewestJournalled(list: seq<Id>, journalled: set<Id>, all: set<Id>, appendOnly: bool, id: Id)
    requires DiskHolds(list, journalled, all, appendOnly) && forall x <- all :: Before(x, id)
    ensures DiskHolds(list, journalled + {id}, all + {id}, appendOnly)
  {
    assert id in Members(list) + (journalled + {id}) && Newest(id, all + {id});
  }

  /** The oldest pending id reaches its tracker, at the end of the list or as all of it. */
  lemma {:induction false} OldestListed(list: seq<Id>, journalled: set<Id>, all: set<Id>, pending: set<Id>, appendOnly: bool,
                                        id: Id, unique: bool)
    requires TrackerHolds(list, journalled, all, pending, appendOnly) && id in pending && (appendOnly ==> !unique)
    requires forall y <- pending :: y == id || Before(id, y)
    ensures TrackerHolds(if unique then [id] else list + [id], journalled, all, pending - {id}, appendOnly)
  {
    var now := if unique then [id] else list + [id];
    var done := all - (pending - {id});
    assert done == all - pending + {id};
    BothMembers(list, [id]);
    assert Members([id]) == {id};
    forall i | 0 <= i < |list| ensures Before(list[i], id) {
      assert list[i] in Members(list);
    }
    assert StrictlyOrdered(now);
    assert id in Members(now) + {} && Newest(id, done);
  }

  /** Flushing memory: what is on disk then holds, with the journal still there. */
  lemma {:induction false} Flushed(list: seq<Id>, journalled: set<Id>, all: set<Id>, pending: set<Id>, appendOnly: bool)
    requires TrackerHolds(list, journalled, all, pending, appendOnly) && journalled <= all
    ensures DiskHolds(list, journalled, all, appendOnly)
    ensures pending == {} ==> DiskHolds(list, {}, all, appendOnly)
  {
    var kept := Members(list) + journalled;
    if pending != {} {
      var m := HasNewest(pending);
      assert m in kept && Newest(m, all);
    } else {
      assert all - pending == all;
      if all != {} {
        var m :| m in Members(list) + {} && Newest(m, all);
        assert m in kept;
      }
    }
  }

  /** A rebuilt list holds what the old one and the journal held. */
  lemma {:induction false} RebuiltHolds(list: seq<Id>, ids: seq<Id>, all: set<Id>, appendOnly: bool)
    requires DiskHolds(list, Members(ids), all, appendOnly)
    ensures DiskHolds(SortedUnion(list + ids), {}, all, appendOnly)
    ensures DiskHolds(SortedUnion(list + ids), Members(ids), all, appendOnly)
    ensures Members(ids) <= Members(SortedUnion(list + ids))
  {
    hide SortedUnion, StrictlyOrdered;
    UnionIsSorted(list + ids);
    BothMembers(list, ids);
    assert Members(SortedUnion(list + ids)) + Members(ids) == Members(list) + Members(ids);
    assert Members(SortedUnion(list + ids)) + {} == Members(list) + Members(ids);
  }

  // ----- Whole runs -----

  ghost predicate OrderInv(s: State, k: Key, appendOnly: bool) {
    && DiskHolds(ListOf(s.disk.lists, k), Journalled(s, k), CommittedOf(s, k), appendOnly)
    && ListInPhase(s, k)
    && (s.phase.Saved? ==> Journalled(s, k) <= Members(ListOf(s.disk.lists, k)))
    && (s.phase.Up? ==>
          TrackerHolds(ListOf(s.mem.lists, k), Journalled(s, k), CommittedOf(s, k), PendingOf(s, k), appendOnly))
    && (!s.phase.Up? ==> s.inflight == map[] && s.unindexed == {})
    && s.inflight.Keys !! s.unindexed
  }

  lemma {:induction false} StepOrder(s: State, a: Action, k: Key, appendOnly: bool)
    requires OrderInv(s, k, appendOnly) && Enabled(s, a) && InOrder(s, a, appendOnly)
    ensures OrderInv(Do(s, a), k, appendOnly)
  {
    hide DiskHolds, TrackerHolds, ListInPhase, SortedUnion, IdsOf, TouchedKeys;
    StepListInPhase(s, a, k);
    match a
    case Commit(w) => CommitOrder(s, w, k, appendOnly);
    case ApplyRecord(id) => assert PendingOf(Do(s, a), k) == PendingOf(s, k);
    case Index(id, unique) => IndexOrder(s, id, unique, k, appendOnly);
    case Snapshot => FlushOrder(s, k, appendOnly);
    case Compact => CompactOrder(s, k, appendOnly);
    case SaveRecovered => SaveOrder(s, k, appendOnly);
    case FinishRecovery => FinishOrder(s, k, appendOnly);
    case Delete(_, _) =>
    case Truncate =>
    case _ =>
  }

  lemma {:induction false} CommitOrder(s: State, w: Write, k: Key, appendOnly: bool)
    requires OrderInv(s, k, appendOnly) && Enabled(s, Commit(w)) && InOrder(s, Commit(w), appendOnly)
    requires ListInPhase(Do(s, Commit(w)), k)
    ensures OrderInv(Do(s, Commit(w)), k, appendOnly)
  {
    hide DiskHolds, TrackerHolds, ListInPhase, IdsOf, KeyOf;
    var t := Do(s, Commit(w));
    var list, disk, id := ListOf(s.mem.lists, k), ListOf(s.disk.lists, k), w.id;
    JournalledMore(s, w, k);
    if KeyOf(id) == k {
      assert CommittedOf(t, k) == CommittedOf(s, k) + {id};
      NewestPending(list, Journalled(s, k), CommittedOf(s, k), PendingOf(s, k), appendOnly, id);
      NewestJournalled(disk, Journalled(s, k), CommittedOf(s, k), appendOnly, id);
    } else {
      assert CommittedOf(t, k) == CommittedOf(s, k);
      assert Journalled(t, k) == Journalled(s, k) && PendingOf(t, k) == PendingOf(s, k);
    }
  }

  /** A commit adds its id to those journalled and pending of its tracker. */
  lemma {:induction false} JournalledMore(s: State, w: Write, k: Key)
    requires Enabled(s, Commit(w))
    ensures var d := Do(s, Commit(w));
            var more := if KeyOf(w.id) == k then {w.id} else {};
            Journalled(d, k) == Journalled(s, k) + more && PendingOf(d, k) == PendingOf(s, k) + more
  {
    var d := Do(s, Commit(w));
    assert d.journal[..|s.journal|] == s.journal;
    if KeyOf(w.id) == k {
      BothMembers(IdsOf(s.journal, k), [w.id]);
      assert Members([w.id]) == {w.id};
    } else {
      assert IdsOf(d.journal, k) == IdsOf(s.journal, k);
    }
  }

  lemma {:induction false} IndexOrder(s: State, id: Id, unique: bool, k: Key, appendOnly: bool)
    requires OrderInv(s, k, appendOnly) && Enabled(s, Index(id, unique)) && InOrder(s, Index(id, unique), appendOnly)
    requires ListInPhase(Do(s, Index(id, unique)), k)
    ensures OrderInv(Do(s, Index(id, unique)), k, appendOnly)
  {
    hide DiskHolds, TrackerHolds, ListInPhase, IdsOf;
    var t := Do(s, Index(id, unique));
    if KeyOf(id) == k {
      assert PendingOf(t, k) == PendingOf(s, k) - {id};
      OldestListed(ListOf(s.mem.lists, k), Journalled(s, k), CommittedOf(s, k), PendingOf(s, k), appendOnly, id, unique);
    } else {
      assert PendingOf(t, k) == PendingOf(s, k);
    }
  }

  lemma {:induction false} FlushOrder(s: State, k: Key, appendOnly: bool)
    requires OrderInv(s, k, appendOnly) && s.phase.Up?
    ensures DiskHolds(ListOf(s.mem.lists, k), Journalled(s, k), CommittedOf(s, k), appendOnly)
    ensures PendingOf(s, k) == {} ==> DiskHolds(ListOf(s.mem.lists, k), {}, CommittedOf(s, k), appendOnly)
  {
    hide TrackerHolds, ListInPhase, IdsOf, StrictlyOrdered, Covers;
    Flushed(ListOf(s.mem.lists, k), Journalled(s, k), CommittedOf(s, k), PendingOf(s, k), appendOnly);
  }

  lemma {:induction false} CompactOrder(s: State, k: Key, appendOnly: bool)
    requires OrderInv(s, k, appendOnly) && Enabled(s, Compact)
    requires ListInPhase(Do(s, Compact), k)
    ensures OrderInv(Do(s, Compact), k, appendOnly)
  {
    hide DiskHolds, ListInPhase;
    FlushOrder(s, k, appendOnly);
    var t := Do(s, Compact);
    assert PendingOf(s, k) == {} && PendingOf(t, k) == {};
    assert IdsOf([], k) == [] && Members<Id>([]) == {};
  }

  lemma {:induction false} SaveOrder(s: State, k: Key, appendOnly: bool)
    requires OrderInv(s, k, appendOnly) && Enabled(s, SaveRecovered)
    requires ListInPhase(Do(s, SaveRecovered), k)
    ensures OrderInv(Do(s, SaveRecovered), k, appendOnly)
  {
    hide DiskHolds, SortedUnion, IdsOf, TouchedKeys;
    var t := Do(s, SaveRecovered);
    RebuiltHolds(ListOf(s.disk.lists, k), IdsOf(s.journal, k), CommittedOf(s, k), appendOnly);
    if k !in TouchedKeys(s.journal) {
      UntouchedHasNone(s.journal, k);
      assert Members<Id>([]) == {};
    }
  }

  lemma {:induction false} FinishOrder(s: State, k: Key, appendOnly: bool)
    requires OrderInv(s, k, appendOnly) && Enabled(s, FinishRecovery)
    requires ListInPhase(Do(s, FinishRecovery), k)
    ensures OrderInv(Do(s, FinishRecovery), k, appendOnly)
  {
    var t := Do(s, FinishRecovery);
    var list := ListOf(s.disk.lists, k);
    assert IdsOf([], k) == [] && Members<Id>([]) == {};
    assert PendingOf(t, k) == {};
    assert Members(list) + {} == Members(list) + Journalled(s, k);
    assert CommittedOf(t, k) - {} == CommittedOf(t, k);
  }

  /** Every step of the run is in order. */
  ghost predicate OrderedRun(acts: seq<Action>, appendOnly: bool) {
    forall i :: 0 <= i < |acts| && Exec(EMPTY, acts[..i]).Some? ==> InOrder(Exec(EMPTY, acts[..i]).value, acts[i], appendOnly)
  }

  lemma {:induction false} RunOrder(acts: seq<Action>, k: Key, appendOnly: bool)
    requires Exec(EMPTY, acts).Some? && OrderedRun(acts, appendOnly)
    ensures OrderInv(Exec(EMPTY, acts).value, k, appendOnly)
  {
    hide OrderInv, InOrder, Enabled;
    if acts == [] {
      EmptyOrder(k, appendOnly);
    } else {
      var init := acts[..|acts| - 1];
      forall i | 0 <= i < |init| && Exec(EMPTY, init[..i]).Some?
        ensures InOrder(Exec(EMPTY, init[..i]).value, init[i], appendOnly)
      {
        assert init[..i] == acts[..i];
      }
      RunOrder(init, k, appendOnly);
      StepOrder(Exec(EMPTY, init).value, acts[|acts| - 1], k, appendOnly);
    }
  }

  lemma {:induction false} EmptyOrder(k: Key, appendOnly: bool)
    ensures OrderInv(EMPTY, k, appendOnly)
  {
    assert Members<Id>([]) == {};
    assert CommittedOf(EMPTY, k) == {};
  }

  /** Recovery neither commits nor forgets, and its steps are in order. */
  lemma {:induction false} RecoveryOrdered(s: State, acts: seq<Action>, k: Key, appendOnly: bool)
    requires OrderInv(s, k, appendOnly) && AllRecovery(acts) && Exec(s, acts).Some?
    ensures var t := Exec(s, acts).value;
            OrderInv(t, k, appendOnly) && CommittedOf(t, k) == CommittedOf(s, k) && PendingOf(t, k) <= PendingOf(s, k)
  {
    hide OrderInv;
    if acts != [] {
      RecoveryOrdered(s, acts[..|acts| - 1], k, appendOnly);
      StepOrder(Exec(s, acts[..|acts| - 1]).value, acts[|acts| - 1], k, appendOnly);
    }
  }

  /** A quiet tracker: the store is up and no write to it is under way. */
  ghost predicate Quiet(s: State, k: Key) {
    s.phase.Up? && PendingOf(s, k) == {}
  }

  /**
   * In an ordered run of appends, a crash and a reopen (however often recovery itself crashes)
   * give a quiet tracker back exactly: the same ids in the same order.
   */
  lemma {:induction false} SameListAfterCrash(acts: seq<Action>, recovery: seq<Action>, k: Key)
    requires Exec(EMPTY, acts).Some? && OrderedRun(acts, true) && Quiet(Exec(EMPTY, acts).value, k)
    requires AllRecovery(recovery) && Exec(Exec(EMPTY, acts).value, recovery).Some?
    requires Exec(Exec(EMPTY, acts).value, recovery).value.phase.Up?
    ensures ListOf(Exec(Exec(EMPTY, acts).value, recovery).value.mem.lists, k)
         == ListOf(Exec(EMPTY, acts).value.mem.lists, k)
  {
    hide Exec, ListInPhase;
    var s := Exec(EMPTY, acts).value;
    var t := Exec(s, recovery).value;
    RunOrder(acts, k, true);
    RecoveryOrdered(s, recovery, k, true);
    OneOrderedList(ListOf(t.mem.lists, k), ListOf(s.mem.lists, k));
  }

  /**
   * In every ordered run, with Unique trackers rotating as well, the last id of a quiet tracker (the one served)
   * is the newest committed one, and is the same after a crash and a reopen.
   */
  lemma {:induction false} SameServedAfterCrash(acts: seq<Action>, recovery: seq<Action>, k: Key)
    requires Exec(EMPTY, acts).Some? && OrderedRun(acts, false) && Quiet(Exec(EMPTY, acts).value, k)
    requires AllRecovery(recovery) && Exec(Exec(EMPTY, acts).value, recovery).Some?
    requires Exec(Exec(EMPTY, acts).value, recovery).value.phase.Up?
    ensures var s := Exec(EMPTY, acts).value;
            var before := ListOf(s.mem.lists, k);
            var after := ListOf(Exec(s, recovery).value.mem.lists, k);
            if CommittedOf(s, k) == {} then before == after == []
            else && before != [] && after != []
                 && before[|before| - 1] == after[|after| - 1]
                 && before[|before| - 1] in CommittedOf(s, k)
                 && Newest(before[|before| - 1], CommittedOf(s, k))
  {
    hide Exec, ListInPhase;
    var s := Exec(EMPTY, acts).value;
    var t := Exec(s, recovery).value;
    RunOrder(acts, k, false);
    RecoveryOrdered(s, recovery, k, false);
    LastIsNewest(ListOf(s.mem.lists, k), CommittedOf(s, k));
    LastIsNewest(ListOf(t.mem.lists, k), CommittedOf(s, k));
  }

  lemma {:induction false} LastIsNewest(list: seq<Id>, all: set<Id>)
    requires DiskHolds(list, {}, all - {}, false)
    ensures if all == {} then list == [] else list != [] && list[|list| - 1] in all && Newest(list[|list| - 1], all)
  {
    assert all - {} == all && Members(list) + {} == Members(list);
    assert list != [] ==> list[|list| - 1] in Members(list);
    if all != {} {
      var m :| m in Members(list) && Newest(m, all);
      var i :| 0 <= i < |list| && list[i] == m;
      assert i == |list| - 1;
    }
  }
}
