/** What crashes and recovery do to the live trackers. */
module RecoveryLists {
  import opened Wrappers
  import opened Ids
  import opened Lists
  import opened SortedIds
  import opened LiveTracker
  import opened Recovery

  /** The list a reopen gives tracker `k`: snapshot and replayed ids, sorted, if any was replayed. */
  function Target(s: State, k: Key): seq<Id> {
    if k in TouchedKeys(s.journal) then SortedUnion(ListOf(s.disk.lists, k) + IdsOf(s.journal, k))
    else ListOf(s.disk.lists, k)
  }

  lemma {:induction false} IdsOfMembers(journal: seq<Write>, k: Key, id: Id)
    ensures id in IdsOf(journal, k) <==> KeyOf(id) == k && Shard(id) != TRACKER_SHARD && Last(journal, id).Some?
  {
    if journal != [] {
      IdsOfMembers(journal[..|journal| - 1], k, id);
    }
  }

  lemma {:induction false} UntouchedHasNone(journal: seq<Write>, k: Key)
    requires k !in TouchedKeys(journal)
    ensures IdsOf(journal, k) == []
  {
    if journal != [] {
      var init, w := journal[..|journal| - 1], journal[|journal| - 1];
      assert w in journal;
      assert forall x <- init :: x in journal;
      UntouchedHasNone(init, k);
    }
  }

  // ----- Recovery reaches the target -----

  /** How the list in memory stands while a store is being recovered. */
  ghost predicate ListInPhase(s: State, k: Key) {
    match s.phase
    case Down => true
    case Replaying(_) => ListOf(s.mem.lists, k) == ListOf(s.disk.lists, k)
    case Rebuilding(todo) =>
      && todo <= TouchedKeys(s.journal)
      && ListOf(s.mem.lists, k) == if k in todo then ListOf(s.disk.lists, k) else Target(s, k)
    case Saved => ListOf(s.mem.lists, k) == ListOf(s.disk.lists, k) == Target(s, k)
    case Up => true
  }

  lemma {:induction false} StepListInPhase(s: State, a: Action, k: Key)
    requires ListInPhase(s, k) && Enabled(s, a)
    ensures ListInPhase(Do(s, a), k)
  {
    hide SortedUnion, TouchedKeys, IdsOf;
    if a.SaveRecovered? {
      TargetOfTarget(s, k);
    }
  }

  /** Rebuilding a rebuilt list changes nothing. */
  lemma {:induction false} TargetOfTarget(s: State, k: Key)
    ensures k in TouchedKeys(s.journal) ==> SortedUnion(Target(s, k) + IdsOf(s.journal, k)) == Target(s, k)
  {
    hide SortedUnion, TouchedKeys, IdsOf;
    if k in TouchedKeys(s.journal) {
      var list, ids := ListOf(s.disk.lists, k), IdsOf(s.journal, k);
      UnionIsSorted(list + ids);
      assert forall x <- ids :: x in list + ids;
      assert Members(ids) <= Members(list + ids);
      UnionOfOrdered(SortedUnion(list + ids), ids);
    }
  }

  predicate RecoveryStep(a: Action) {
    a.Crash? || a.Load? || a.ReplayOne? || a.StartRebuild? || a.Rebuild? || a.SaveRecovered? || a.FinishRecovery?
  }

  lemma {:induction false} StepTarget(s: State, a: Action, k: Key)
    requires ListInPhase(s, k) && Enabled(s, a) && RecoveryStep(a)
    ensures Target(Do(s, a), k) == Target(s, k)
    ensures a.FinishRecovery? ==> ListOf(Do(s, a).mem.lists, k) == Target(s, k)
  {
    hide SortedUnion, IdsOf;
    if a.SaveRecovered? {
      TargetOfTarget(s, k);
    }
    if a.FinishRecovery? {
      assert TouchedKeys([]) == {};
    }
  }

  ghost predicate AllRecovery(acts: seq<Action>) {
    forall i :: 0 <= i < |acts| ==> RecoveryStep(acts[i])
  }

  lemma {:induction false} RecoveryKeepsTarget(s: State, acts: seq<Action>, k: Key)
    requires s.phase.Down? && AllRecovery(acts) && Exec(s, acts).Some?
    ensures var t := Exec(s, acts).value;
            && ListInPhase(t, k) && Target(t, k) == Target(s, k)
            && (t.phase.Up? ==> ListOf(t.mem.lists, k) == Target(s, k))
  {
    hide Target, ListInPhase, Enabled;
    if acts == [] {
      assert ListInPhase(s, k) by { DownInPhase(s, k); }
    } else {
      var init, a := acts[..|acts| - 1], acts[|acts| - 1];
      RecoveryKeepsTarget(s, init, k);
      var m := Exec(s, init).value;
      StepListInPhase(m, a, k);
      StepTarget(m, a, k);
      UpAfter(m, a);
    }
  }

  lemma {:induction false} DownInPhase(s: State, k: Key)
    requires s.phase.Down?
    ensures ListInPhase(s, k)
  {
  }

  lemma {:induction false} UpAfter(s: State, a: Action)
    requires Enabled(s, a) && RecoveryStep(a)
    ensures Do(s, a).phase.Up? ==> a.FinishRecovery?
  {
  }

  /**
   * However often recovery crashes and starts again, once it is through, each touched tracker is exactly
   * the sorted union of its list in the snapshot and the ids replayed, and every other is its list in the snapshot.
   */
  lemma {:induction false} RecoveredList(s: State, acts: seq<Action>, k: Key)
    requires s.phase.Down? && AllRecovery(acts) && Exec(s, acts).Some? && Exec(s, acts).value.phase.Up?
    ensures var list := ListOf(Exec(s, acts).value.mem.lists, k);
            && (k in TouchedKeys(s.journal) ==>
                  && StrictlyOrdered(list)
                  && Members(list) == Members(ListOf(s.disk.lists, k)) + Members(IdsOf(s.journal, k)))
            && (k !in TouchedKeys(s.journal) ==> list == ListOf(s.disk.lists, k))
  {
    hide TouchedKeys, IdsOf, SortedUnion, StrictlyOrdered, Exec;
    RecoveryKeepsTarget(s, acts, k);
    UnionIsSorted(ListOf(s.disk.lists, k) + IdsOf(s.journal, k));
    BothMembers(ListOf(s.disk.lists, k), IdsOf(s.journal, k));
  }

  lemma {:induction false} BothMembers(a: seq<Id>, b: seq<Id>)
    ensures Members(a + b) == Members(a) + Members(b)
  {
    assert forall x :: x in a + b <==> x in a || x in b;
  }

  // ----- Deletes -----

  /** After recovery an id is listed exactly if the snapshot listed it or the journal still holds a write of it. */
  lemma {:induction false} ListedAfterRecovery(s: State, acts: seq<Action>, id: Id)
    requires s.phase.Down? && AllRecovery(acts) && Exec(s, acts).Some? && Exec(s, acts).value.phase.Up?
    requires Shard(id) != TRACKER_SHARD
    ensures id in ListOf(Exec(s, acts).value.mem.lists, KeyOf(id))
       <==> id in ListOf(s.disk.lists, KeyOf(id)) || Last(s.journal, id).Some?
  {
    hide TouchedKeys, IdsOf, StrictlyOrdered, Exec, Last;
    var k := KeyOf(id);
    var list := ListOf(Exec(s, acts).value.mem.lists, k);
    RecoveredList(s, acts, k);
    IdsOfMembers(s.journal, k, id);
    if k !in TouchedKeys(s.journal) {
      UntouchedHasNone(s.journal, k);
    }
    assert id in list <==> id in Members(list);
    assert id in IdsOf(s.journal, k) <==> id in Members(IdsOf(s.journal, k));
    assert id in ListOf(s.disk.lists, k) <==> id in Members(ListOf(s.disk.lists, k));
  }

  /** Nothing in memory, on disk or under way lists or writes `id`. */
  ghost predicate Gone(s: State, id: Id) {
    && id !in ListOf(s.mem.lists, KeyOf(id))
    && id !in ListOf(s.disk.lists, KeyOf(id))
    && Last(s.journal, id).None?
    && id !in s.inflight && id !in s.unindexed
  }

  lemma {:induction false} StepGone(s: State, a: Action, id: Id)
    requires Gone(s, id) && Enabled(s, a) && !(a.Commit? && a.w.id == id)
    ensures Gone(Do(s, a), id)
  {
    hide SortedUnion, IdsOf, TouchedKeys;
    var k := KeyOf(id);
    match a
    case Commit(w) => assert (s.journal + [w])[..|s.journal|] == s.journal;
    case Rebuild(l) =>
      var list := ListOf(s.mem.lists, l) + IdsOf(s.journal, l);
      UnionIsSorted(list);
      IdsOfMembers(s.journal, l, id);
      assert id in SortedUnion(list) <==> id in Members(SortedUnion(list));
    case _ =>
  }

  predicate NeverCommits(acts: seq<Action>, id: Id) {
    forall i :: 0 <= i < |acts| && acts[i].Commit? ==> acts[i].w.id != id
  }

  /** An id deleted before a compaction stays deleted through every later crash and reopen, until it is written again. */
  lemma {:induction false} DeletedStays(s: State, acts: seq<Action>, id: Id)
    requires Enabled(s, Compact) && id !in ListOf(s.mem.lists, KeyOf(id))
    requires NeverCommits(acts, id) && Exec(Do(s, Compact), acts).Some?
    ensures id !in ListOf(Exec(Do(s, Compact), acts).value.mem.lists, KeyOf(id))
  {
    StaysGone(Do(s, Compact), acts, id);
  }

  lemma {:induction false} StaysGone(s: State, acts: seq<Action>, id: Id)
    requires Gone(s, id) && NeverCommits(acts, id) && Exec(s, acts).Some?
    ensures Gone(Exec(s, acts).value, id)
  {
    hide Gone, Enabled;
    if acts != [] {
      StaysGone(s, acts[..|acts| - 1], id);
      StepGone(Exec(s, acts[..|acts| - 1]).value, acts[|acts| - 1], id);
    }
  }

  /** Without a compaction a deleted id comes back, even after a snapshot: its write is still in the journal. */
  lemma {:induction false} DeletedComesBack()
    ensures var acts := BOOT + WRITE_AND_DELETE;
            && Exec(EMPTY, acts).Some? && Exec(EMPTY, acts + REOPEN).Some?
            && 0 !in ListOf(Exec(EMPTY, acts).value.disk.lists, (0, 0))
            && 0 in ListOf(Exec(EMPTY, acts + REOPEN).value.mem.lists, (0, 0))
  {
    hide Exec, Do, Enabled, Last;
    Nothing(EMPTY);
    Boots(EMPTY, [], EMPTY);
    assert [] + BOOT == BOOT;
    var up := EMPTY.(phase := Up);
    WritesAndDeletes(EMPTY, BOOT, up);
    var s := Exec(EMPTY, BOOT + WRITE_AND_DELETE).value;
    Reopens(EMPTY, BOOT + WRITE_AND_DELETE, s, Write(0, [7]));
  }

  const WRITE_AND_DELETE: seq<Action> :=
    [Commit(Write(0, [7])), ApplyRecord(0), Index(0, false), Delete(0, 0), Snapshot, Crash]

  const REOPEN: seq<Action> := [Load, ReplayOne, StartRebuild, Rebuild((0, 0)), SaveRecovered, FinishRecovery]

  lemma {:induction false} WritesAndDeletes(s0: State, acts: seq<Action>, s: State)
    requires Exec(s0, acts) == Some(s) && s == EMPTY.(phase := Up)
    ensures var t := Exec(s0, acts + WRITE_AND_DELETE);
            && t.Some? && t.value.phase.Down? && t.value.journal == [Write(0, [7])]
            && ListOf(t.value.disk.lists, (0, 0)) == []
  {
    hide Exec;
    var w := Write(0, [7]);
    OneMore(s0, acts, s, Commit(w));
    var s1 := State(s.disk, [w], Up, s.mem, map[0 := [7]], {}, map[0 := [7]]);
    assert Do(s, Commit(w)) == s1;
    var r1 := acts + [Commit(w)];
    OneMore(s0, r1, s1, ApplyRecord(0));
    var s2 := s1.(mem := Snap(map[0 := [7]], map[]), inflight := map[], unindexed := {0});
    assert Do(s1, ApplyRecord(0)) == s2;
    var r2 := r1 + [ApplyRecord(0)];
    OneMore(s0, r2, s2, Index(0, false));
    var s3 := s2.(mem := Snap(map[0 := [7]], map[(0, 0) := [0]]), unindexed := {});
    assert KeyOf(0) == (0, 0) && s2.unindexed - {0} == {};
    assert ListOf(s2.mem.lists, (0, 0)) + [0] == [0];
    assert s2.mem.lists[(0, 0) := [0]] == map[(0, 0) := [0]];
    assert Do(s2, Index(0, false)) == s3;
    var r3 := r2 + [Index(0, false)];
    DeletesIt(s0, r3, s3);
    assert acts + WRITE_AND_DELETE == r3 + [Delete(0, 0)] + [Snapshot] + [Crash];
  }

  lemma {:induction false} DeletesIt(s0: State, acts: seq<Action>, s: State)
    requires Exec(s0, acts) == Some(s) && s.phase.Up? && s.mem.lists == map[(0, 0) := [0]]
    ensures var t := Exec(s0, acts + [Delete(0, 0)] + [Snapshot] + [Crash]);
            && t.Some? && t.value.phase.Down? && t.value.journal == s.journal
            && ListOf(t.value.disk.lists, (0, 0)) == []
  {
    hide Exec;
    OneMore(s0, acts, s, Delete(0, 0));
    var s4 := Do(s, Delete(0, 0));
    assert ListOf(s4.mem.lists, (0, 0)) == [];
    OneMore(s0, acts + [Delete(0, 0)], s4, Snapshot);
    OneMore(s0, acts + [Delete(0, 0)] + [Snapshot], Do(s4, Snapshot), Crash);
  }

  lemma {:induction false} Reopens(s0: State, acts: seq<Action>, s: State, w: Write)
    requires Exec(s0, acts) == Some(s) && s.phase.Down? && s.journal == [w] && w.id == 0
    ensures Exec(s0, acts + REOPEN).Some?
    ensures 0 in ListOf(Exec(s0, acts + REOPEN).value.mem.lists, (0, 0))
  {
    hide Exec, SortedUnion;
    var s1 := s.(phase := Replaying(0), mem := s.disk);
    OneMore(s0, acts, s, Load);
    var r1 := acts + [Load];
    OneMore(s0, r1, s1, ReplayOne);
    var r2, s2 := r1 + [ReplayOne], s1.(phase := Replaying(1), mem := Do(s1, ReplayOne).mem);
    OneMore(s0, r2, s2, StartRebuild);
    assert w in s.journal;
    assert TouchedKeys(s.journal) == {(0, 0)};
    var r3, s3 := r2 + [StartRebuild], s2.(phase := Rebuilding({(0, 0)}));
    Rebuilds(s0, r3, s3, w);
    assert acts + REOPEN == r3 + [Rebuild((0, 0))] + [SaveRecovered] + [FinishRecovery];
  }

  lemma {:induction false} Rebuilds(s0: State, acts: seq<Action>, s: State, w: Write)
    requires Exec(s0, acts) == Some(s) && s.phase == Rebuilding({(0, 0)}) && s.journal == [w] && w.id == 0
    ensures var t := Exec(s0, acts + [Rebuild((0, 0))] + [SaveRecovered] + [FinishRecovery]);
            t.Some? && 0 in ListOf(t.value.mem.lists, (0, 0))
  {
    hide Exec, SortedUnion;
    OneMore(s0, acts, s, Rebuild((0, 0)));
    var s4 := Do(s, Rebuild((0, 0)));
    OneMore(s0, acts + [Rebuild((0, 0))], s4, SaveRecovered);
    OneMore(s0, acts + [Rebuild((0, 0))] + [SaveRecovered], Do(s4, SaveRecovered), FinishRecovery);
    var list := ListOf(s.mem.lists, (0, 0)) + IdsOf(s.journal, (0, 0));
    IdsOfMembers(s.journal, (0, 0), 0);
    UnionIsSorted(list);
    assert 0 in list && 0 in Members(list);
  }
}
