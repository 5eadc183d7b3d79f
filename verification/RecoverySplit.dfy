/** A compaction whose flush and truncation are separated by client steps: what it does to the trackers. */
module RecoverySplit {
  import opened Wrappers
  import opened Ids
  import opened Lists
  import opened SortedIds
  import opened LiveTracker
  import opened Recovery
  import opened RecoveryLists

  /** The id is in its tracker. */
  predicate Served(s: State, id: Id) {
    id in ListOf(s.mem.lists, KeyOf(id))
  }

  /** The id is journalled and on its way into its tracker. */
  predicate UnderWay(s: State, id: Id) {
    id in s.inflight || id in s.unindexed
  }

  /** The id is served, or will be without anything further from a client. */
  predicate Expected(s: State, id: Id) {
    Served(s, id) || UnderWay(s, id)
  }

  // ----- Runs that write each id once -----

  /** What such runs keep for tracker `k`: lists without repetition, of committed ids, apart from those under way. */
  ghost predicate Neat(s: State, k: Key) {
    && ListInPhase(s, k)
    && NeatList(s, ListOf(s.disk.lists, k), k)
    && (forall x <- IdsOf(s.journal, k) :: x in s.committed)
    && (s.phase.Up? ==> NeatList(s, ListOf(s.mem.lists, k), k) && forall x <- ListOf(s.mem.lists, k) :: !UnderWay(s, x))
    && (forall x: Id :: UnderWay(s, x) ==> x in s.committed)
    && s.inflight.Keys !! s.unindexed
    && (!s.phase.Up? ==> s.inflight == map[] && s.unindexed == {})
  }

  ghost predicate NeatList(s: State, list: seq<Id>, k: Key) {
    Distinct(list) && forall x <- list :: x in s.committed && KeyOf(x) == k
  }

  lemma {:induction false} OrderedIsDistinct(list: seq<Id>)
    requires StrictlyOrdered(list)
    ensures Distinct(list)
  {
  }

  lemma {:induction false} NeatTarget(s: State, k: Key)
    requires Neat(s, k)
    ensures NeatList(s, Target(s, k), k)
  {
    hide SortedUnion, IdsOf, TouchedKeys, ListInPhase, StrictlyOrdered;
    if k in TouchedKeys(s.journal) {
      var list, ids := ListOf(s.disk.lists, k), IdsOf(s.journal, k);
      UnionIsSorted(list + ids);
      OrderedIsDistinct(SortedUnion(list + ids));
      forall x <- SortedUnion(list + ids) ensures x in s.committed && KeyOf(x) == k {
        assert x in Members(SortedUnion(list + ids));
        IdsOfMembers(s.journal, k, x);
      }
    }
  }

  lemma {:induction false} StepNeat(s: State, a: Action, k: Key)
    requires Neat(s, k) && Enabled(s, a) && (a.Commit? ==> a.w.id !in s.committed)
    ensures Neat(Do(s, a), k)
  {
    hide SortedUnion, IdsOf, TouchedKeys, ListInPhase;
    StepListInPhase(s, a, k);
    match a
    case Commit(w) => CommitNeat(s, w, k);
    case Index(id, unique) => IndexNeat(s, id, unique, k);
    case Delete(id, at) => DeleteNeat(s, id, at, k);
    case Truncate => NoIds(k);
    case Compact => NoIds(k);
    case SaveRecovered => SaveNeat(s, k);
    case FinishRecovery => FinishNeat(s, k);
    case _ =>
  }

  lemma {:induction false} NoIds(k: Key)
    ensures IdsOf([], k) == []
  {
  }

  lemma {:induction false} CommitNeat(s: State, w: Write, k: Key)
    requires Neat(s, k) && Enabled(s, Commit(w)) && w.id !in s.committed && ListInPhase(Do(s, Commit(w)), k)
    ensures Neat(Do(s, Commit(w)), k)
  {
    hide ListInPhase;
    var d := Do(s, Commit(w));
    assert d.journal[..|s.journal|] == s.journal;
    assert forall x <- IdsOf(d.journal, k) :: x in IdsOf(s.journal, k) || x == w.id;
  }

  lemma {:induction false} IndexNeat(s: State, id: Id, unique: bool, k: Key)
    requires Neat(s, k) && Enabled(s, Index(id, unique)) && ListInPhase(Do(s, Index(id, unique)), k)
    ensures Neat(Do(s, Index(id, unique)), k)
  {
    hide ListInPhase, IdsOf;
    if KeyOf(id) == k {
      assert UnderWay(s, id);
    }
  }

  lemma {:induction false} DeleteNeat(s: State, id: Id, at: nat, k: Key)
    requires Neat(s, k) && Enabled(s, Delete(id, at)) && ListInPhase(Do(s, Delete(id, at)), k)
    ensures Neat(Do(s, Delete(id, at)), k)
  {
    hide ListInPhase, IdsOf;
    if KeyOf(id) == k {
      hide Distinct;
      DistinctDrop(ListOf(s.mem.lists, k), at);
    }
  }

  /** Taking one place out of a list without repetition takes out just that id. */
  lemma {:induction false} DistinctDrop(list: seq<Id>, at: nat)
    requires Distinct(list) && at < |list|
    ensures var left := list[..at] + list[at + 1..];
            Distinct(left) && forall x :: x in left <==> x in list && x != list[at]
  {
    var left := list[..at] + list[at + 1..];
    assert forall i :: 0 <= i < |left| ==> left[i] == list[if i < at then i else i + 1];
    forall x | x in list && x != list[at] ensures x in left {
      var i :| 0 <= i < |list| && list[i] == x;
      assert left[if i < at then i else i - 1] == x;
    }
  }

  lemma {:induction false} SaveNeat(s: State, k: Key)
    requires Neat(s, k) && Enabled(s, SaveRecovered) && ListInPhase(Do(s, SaveRecovered), k)
    ensures Neat(Do(s, SaveRecovered), k)
  {
    hide IdsOf, Target, Distinct;
    NeatTarget(s, k);
  }

  lemma {:induction false} FinishNeat(s: State, k: Key)
    requires Neat(s, k) && Enabled(s, FinishRecovery) && ListInPhase(Do(s, FinishRecovery), k)
    ensures Neat(Do(s, FinishRecovery), k)
  {
    hide Target, Distinct;
  }

  /** Every run from an empty store that writes each id once is neat. */
  lemma {:induction false} RunNeat(acts: seq<Action>, k: Key)
    requires Exec(EMPTY, acts).Some? && FreshCommits(EMPTY, acts)
    ensures Neat(Exec(EMPTY, acts).value, k)
  {
    hide Neat, Enabled;
    if acts == [] {
      assert Neat(EMPTY, k) by { EmptyNeat(k); }
    } else {
      FreshPrefix(EMPTY, acts);
      RunNeat(acts[..|acts| - 1], k);
      StepNeat(Exec(EMPTY, acts[..|acts| - 1]).value, acts[|acts| - 1], k);
    }
  }

  lemma {:induction false} EmptyNeat(k: Key)
    ensures Neat(EMPTY, k)
  {
  }

  lemma {:induction false} FreshPrefix(s: State, acts: seq<Action>)
    requires FreshCommits(s, acts) && acts != []
    ensures FreshCommits(s, acts[..|acts| - 1])
    ensures var a := acts[|acts| - 1];
            var before := Exec(s, acts[..|acts| - 1]);
            a.Commit? && before.Some? ==> a.w.id !in before.value.committed
  {
    hide Exec;
    var init := acts[..|acts| - 1];
    forall i | 0 <= i < |init| && init[i].Commit? && Exec(s, init[..i]).Some?
      ensures init[i].w.id !in Exec(s, init[..i]).value.committed
    {
      assert init[..i] == acts[..i];
    }
  }

  // ----- Client steps -----

  predicate Deletes(acts: seq<Action>, id: Id) {
    exists a <- acts :: a.Delete? && a.id == id
  }

  /** Client steps that rotate no Unique tracker. */
  predicate Appending(acts: seq<Action>) {
    forall a <- acts :: ClientStep(a) && !(a.Index? && a.unique)
  }

  lemma {:induction false} LastAct(acts: seq<Action>, id: Id)
    requires acts != []
    ensures var init, a := acts[..|acts| - 1], acts[|acts| - 1];
            && (Commits(acts, id) <==> Commits(init, id) || (a.Commit? && a.w.id == id))
            && (Deletes(acts, id) <==> Deletes(init, id) || (a.Delete? && a.id == id))
            && (Appending(acts) ==> Appending(init) && ClientStep(a) && !(a.Index? && a.unique))
  {
    var init, a := acts[..|acts| - 1], acts[|acts| - 1];
    assert acts == init + [a];
    assert forall x :: x in acts <==> x in init || x == a;
  }

  /** Who is expected after client steps: those expected before and those committed, unless deleted. */
  lemma {:induction false} ExpectedAfter(s: State, acts: seq<Action>, id: Id)
    requires s.phase.Up? && Neat(s, KeyOf(id)) && Appending(acts) && FreshCommits(s, acts) && Exec(s, acts).Some?
    ensures var t := Exec(s, acts).value;
            && t.phase.Up? && t.disk == s.disk && Neat(t, KeyOf(id))
            && (Deletes(acts, id) ==> id in t.committed)
            && (Expected(t, id) <==> (Expected(s, id) || Commits(acts, id)) && !Deletes(acts, id))
  {
    hide Neat, Expected, Enabled, Do, Commits, Deletes, Appending;
    if acts == [] {
      assert !Commits(acts, id) && !Deletes(acts, id) by { NoActs(id); }
    } else {
      var init, a := acts[..|acts| - 1], acts[|acts| - 1];
      LastAct(acts, id);
      FreshPrefix(s, acts);
      ExpectedAfter(s, init, id);
      var m := Exec(s, init).value;
      StepNeat(m, a, KeyOf(id));
      StepExpected(m, a, id);
    }
  }

  lemma {:induction false} NoActs(id: Id)
    ensures !Commits([], id) && !Deletes([], id)
  {
  }

  lemma {:induction false} StepExpected(s: State, a: Action, id: Id)
    requires s.phase.Up? && Neat(s, KeyOf(id)) && Enabled(s, a) && ClientStep(a) && !(a.Index? && a.unique)
    requires a.Commit? ==> a.w.id !in s.committed
    ensures var d := Do(s, a);
            && d.phase.Up? && d.disk == s.disk && s.committed.Keys <= d.committed.Keys
            && (Expected(s, id) || (a.Delete? && a.id == id) ==> id in s.committed)
            && (Expected(d, id) <==> if a.Commit? && a.w.id == id then true
                                     else if a.Delete? && a.id == id then false else Expected(s, id))
  {
    hide ListInPhase, IdsOf, Distinct;
    match a
    case Commit(w) =>
    case ApplyRecord(i) =>
    case Index(i, unique) =>
    case Delete(i, at) => DeleteExpected(s, i, at, id);
    case _ =>
  }

  lemma {:induction false} DeleteExpected(s: State, x: Id, at: nat, id: Id)
    requires s.phase.Up? && Neat(s, KeyOf(id)) && Enabled(s, Delete(x, at))
    ensures Expected(Do(s, Delete(x, at)), id) <==> id != x && Expected(s, id)
    ensures id == x ==> id in s.committed
  {
    hide ListInPhase, IdsOf, Distinct;
    var d := Do(s, Delete(x, at));
    var list := ListOf(s.mem.lists, KeyOf(id));
    if KeyOf(x) == KeyOf(id) {
      DistinctDrop(list, at);
      assert list[at] == x;
      assert x in list;
      assert ListOf(d.mem.lists, KeyOf(id)) == list[..at] + list[at + 1..];
    } else {
      assert ListOf(d.mem.lists, KeyOf(id)) == list;
    }
  }

  // ----- The split -----

  /** Flush, client steps, truncation, crash. */
  function SplitAndCrash(s: State, acts: seq<Action>): State
    requires s.phase.Up? && Exec(Do(s, Snapshot), acts).Some? && Exec(Do(s, Snapshot), acts).value.phase.Up?
  {
    Do(Do(Exec(Do(s, Snapshot), acts).value, Truncate), Crash)
  }

  /** Whatever happened between the halves, a reopen gives every tracker back as it stood at the flush. */
  lemma {:induction false} SplitReopensAtFlush(s: State, acts: seq<Action>, recovery: seq<Action>, k: Key)
    requires s.phase.Up? && (forall i :: 0 <= i < |acts| ==> ClientStep(acts[i])) && Exec(Do(s, Snapshot), acts).Some?
    requires Exec(Do(s, Snapshot), acts).value.phase.Up?
    requires AllRecovery(recovery) && Exec(SplitAndCrash(s, acts), recovery).Some?
    requires Exec(SplitAndCrash(s, acts), recovery).value.phase.Up?
    ensures ListOf(Exec(SplitAndCrash(s, acts), recovery).value.mem.lists, k) == ListOf(s.mem.lists, k)
  {
    hide Exec, TouchedKeys, SortedUnion;
    ClientRun(Do(s, Snapshot), acts);
    RecoveryKeepsTarget(SplitAndCrash(s, acts), recovery, k);
    assert TouchedKeys([]) == {} by { NothingTouched(); }
  }

  lemma {:induction false} NothingTouched()
    ensures TouchedKeys([]) == {}
  {
  }

  /**
   * For each id: after the split a reopen lists it if and only if it was listed at the flush, while it is expected
   * if and only if it was listed or under way at the flush or committed since, and not deleted since.
   */
  lemma {:induction false} SplitListing(s: State, acts: seq<Action>, recovery: seq<Action>, id: Id)
    requires s.phase.Up? && Neat(s, KeyOf(id)) && Appending(acts)
    requires FreshCommits(Do(s, Snapshot), acts) && Exec(Do(s, Snapshot), acts).Some?
    ensures Exec(Do(s, Snapshot), acts).value.phase.Up?
    ensures Expected(Exec(Do(s, Snapshot), acts).value, id)
       <==> (Served(s, id) || UnderWay(s, id) || Commits(acts, id)) && !Deletes(acts, id)
    ensures AllRecovery(recovery) && Exec(SplitAndCrash(s, acts), recovery).Some?
              && Exec(SplitAndCrash(s, acts), recovery).value.phase.Up?
            ==> (Served(Exec(SplitAndCrash(s, acts), recovery).value, id) <==> Served(s, id))
  {
    hide Exec, Neat, AllRecovery, FreshCommits;
    StepNeat(s, Snapshot, KeyOf(id));
    ExpectedAfter(Do(s, Snapshot), acts, id);
    assert forall i :: 0 <= i < |acts| ==> acts[i] in acts;
    if AllRecovery(recovery) && Exec(SplitAndCrash(s, acts), recovery).Some?
       && Exec(SplitAndCrash(s, acts), recovery).value.phase.Up? {
      SplitReopensAtFlush(s, acts, recovery, KeyOf(id));
    }
  }

  /** Every id that should be listed after the split is, and no other. */
  ghost predicate ListingKept(t: State, u: State) {
    forall id: Id :: Served(u, id) <==> Expected(t, id)
  }

  /**
   * In runs that write each id once and rotate no Unique tracker between the halves, the split keeps every listing
   * if and only if each id under way at the flush or committed since was deleted since, and no id listed at the flush was.
   */
  lemma {:induction false} SplitCompactionLists(s: State, acts: seq<Action>, recovery: seq<Action>)
    requires s.phase.Up? && (forall k: Key :: Neat(s, k)) && Appending(acts)
    requires FreshCommits(Do(s, Snapshot), acts) && Exec(Do(s, Snapshot), acts).Some?
    requires Exec(Do(s, Snapshot), acts).value.phase.Up?
    requires AllRecovery(recovery) && Exec(SplitAndCrash(s, acts), recovery).Some?
    requires Exec(SplitAndCrash(s, acts), recovery).value.phase.Up?
    ensures ListingKept(Exec(Do(s, Snapshot), acts).value, Exec(SplitAndCrash(s, acts), recovery).value)
       <==> && (forall id: Id :: UnderWay(s, id) || Commits(acts, id) ==> Deletes(acts, id))
            && (forall id: Id :: Served(s, id) ==> !Deletes(acts, id))
  {
    hide Exec, Neat, FreshCommits, Appending, AllRecovery, Commits, Deletes, Served, SplitAndCrash, Do;
    var t, u := Exec(Do(s, Snapshot), acts).value, Exec(SplitAndCrash(s, acts), recovery).value;
    forall id: Id ensures
        && (Served(u, id) <==> Served(s, id))
        && (Expected(t, id) <==> (Served(s, id) || UnderWay(s, id) || Commits(acts, id)) && !Deletes(acts, id))
        && (UnderWay(s, id) || Commits(acts, id) ==> !Served(s, id))
    {
      SplitListing(s, acts, recovery, id);
      AppendingIsClient(acts);
      NewIsUnlisted(s, acts, id);
    }
  }

  /** Ids under way or committed since the flush were not listed at the flush. */
  lemma {:induction false} NewIsUnlisted(s: State, acts: seq<Action>, id: Id)
    requires s.phase.Up? && Neat(s, KeyOf(id)) && (forall a <- acts :: ClientStep(a))
    requires FreshCommits(Do(s, Snapshot), acts) && Exec(Do(s, Snapshot), acts).Some?
    ensures UnderWay(s, id) || Commits(acts, id) ==> !Served(s, id)
  {
    if Commits(acts, id) {
      var a :| a in acts && a.Commit? && a.w.id == id;
      var i :| 0 <= i < |acts| && acts[i] == a;
      CommitIsNew(Do(s, Snapshot), acts, i);
    }
  }

  lemma {:induction false} CommitIsNew(s: State, acts: seq<Action>, i: nat)
    requires s.phase.Up? && (forall a <- acts :: ClientStep(a)) && FreshCommits(s, acts) && Exec(s, acts).Some?
    requires i < |acts| && acts[i].Commit?
    ensures acts[i].w.id !in s.committed
  {
    hide Exec;
    ExecPrefix(s, acts, i);
    assert forall j :: 0 <= j < i ==> acts[..i][j] in acts;
    ClientRun(s, acts[..i]);
  }

  lemma {:induction false} AppendingIsClient(acts: seq<Action>)
    requires Appending(acts)
    ensures forall a <- acts :: ClientStep(a)
  {
  }

  lemma {:induction false} ExpectedFrom(s: State, acts: seq<Action>, id: Id)
    requires s.phase.Up? && (forall a <- acts :: ClientStep(a)) && Exec(s, acts).Some?
    ensures Expected(Exec(s, acts).value, id) ==> Expected(s, id) || Commits(acts, id)
  {
    if acts != [] {
      hide Commits, Deletes;
      var init, a := acts[..|acts| - 1], acts[|acts| - 1];
      LastAct(acts, id);
      assert forall x <- init :: x in acts;
      assert a in acts;
      ExpectedFrom(s, init, id);
    }
  }

  /**
   * Whatever clients do between the halves, rotations of Unique trackers included, the ids that drop out of the listing
   * are exactly those expected at the truncation that were under way at the flush or committed since.
   */
  lemma {:induction false} SplitDrops(s: State, acts: seq<Action>, recovery: seq<Action>, id: Id)
    requires s.phase.Up? && Neat(s, KeyOf(id)) && (forall a <- acts :: ClientStep(a))
    requires FreshCommits(Do(s, Snapshot), acts) && Exec(Do(s, Snapshot), acts).Some?
    requires Exec(Do(s, Snapshot), acts).value.phase.Up?
    requires AllRecovery(recovery) && Exec(SplitAndCrash(s, acts), recovery).Some?
    requires Exec(SplitAndCrash(s, acts), recovery).value.phase.Up?
    ensures var t, u := Exec(Do(s, Snapshot), acts).value, Exec(SplitAndCrash(s, acts), recovery).value;
            Expected(t, id) && !Served(u, id) <==> Expected(t, id) && (UnderWay(s, id) || Commits(acts, id))
  {
    hide Exec, Neat, FreshCommits, Commits, SplitAndCrash;
    assert forall i :: 0 <= i < |acts| ==> acts[i] in acts;
    SplitReopensAtFlush(s, acts, recovery, KeyOf(id));
    ExpectedFrom(Do(s, Snapshot), acts, id);
    NewIsUnlisted(s, acts, id);
  }

  /** Without deletes the condition is the one of the records, and that nothing waits to be indexed. */
  lemma {:induction false} SplitKeepsListsIffQuiet(s: State, acts: seq<Action>, recovery: seq<Action>)
    requires s.phase.Up? && (forall k: Key :: Neat(s, k)) && Appending(acts) && (forall a <- acts :: !a.Delete?)
    requires FreshCommits(Do(s, Snapshot), acts) && Exec(Do(s, Snapshot), acts).Some?
    requires Exec(Do(s, Snapshot), acts).value.phase.Up?
    requires AllRecovery(recovery) && Exec(SplitAndCrash(s, acts), recovery).Some?
    requires Exec(SplitAndCrash(s, acts), recovery).value.phase.Up?
    ensures ListingKept(Exec(Do(s, Snapshot), acts).value, Exec(SplitAndCrash(s, acts), recovery).value)
       <==> s.inflight == map[] && s.unindexed == {} && NoCommit(acts)
  {
    hide Exec, Neat, FreshCommits, Appending, AllRecovery, Served, SplitAndCrash, Do, ListingKept;
    SplitCompactionLists(s, acts, recovery);
    assert forall id :: !Deletes(acts, id);
    if s.inflight != map[] {
      var id :| id in s.inflight;
      assert UnderWay(s, id);
    } else if s.unindexed != {} {
      var id :| id in s.unindexed;
      assert UnderWay(s, id);
    } else if !NoCommit(acts) {
      var i :| 0 <= i < |acts| && acts[i].Commit?;
      assert acts[i] in acts && Commits(acts, acts[i].w.id);
    } else {
      assert forall id :: !Commits(acts, id);
    }
  }

  /** A run in which the record survives the split but its listing does not: it is indexed between the halves. */
  lemma {:induction false} SplitLosesListing()
    ensures var acts := BOOT + [Commit(Write(0, [7])), ApplyRecord(0), Snapshot, Index(0, false), Truncate, Crash] + BOOT;
            && Exec(EMPTY, acts).Some?
            && Exec(EMPTY, acts).value.phase.Up?
            && 0 in Exec(EMPTY, acts).value.mem.records
            && !Served(Exec(EMPTY, acts).value, 0)
  {
    hide Exec;
    var w := Write(0, [7]);
    Nothing(EMPTY);
    Boots(EMPTY, [], EMPTY);
    assert [] + BOOT == BOOT;
    var s0 := EMPTY.(phase := Up);
    OneMore(EMPTY, BOOT, s0, Commit(w));
    var s1 := State(s0.disk, [w], Up, s0.mem, map[0 := [7]], {}, map[0 := [7]]);
    assert Do(s0, Commit(w)) == s1;
    var r1 := BOOT + [Commit(w)];
    OneMore(EMPTY, r1, s1, ApplyRecord(0));
    var s2 := s1.(mem := Snap(map[0 := [7]], map[]), inflight := map[], unindexed := {0});
    assert Do(s1, ApplyRecord(0)) == s2;
    FlushIndexTruncate(r1 + [ApplyRecord(0)], s2);
    assert r1 + [ApplyRecord(0)] + [Snapshot] + [Index(0, false)] + [Truncate] + [Crash]
        == BOOT + [Commit(w), ApplyRecord(0), Snapshot, Index(0, false), Truncate, Crash];
  }

  lemma {:induction false} FlushIndexTruncate(acts: seq<Action>, s: State)
    requires Exec(EMPTY, acts) == Some(s) && s.phase.Up? && s.mem == Snap(map[0 := [7]], map[]) && 0 in s.unindexed
    ensures var r := Exec(EMPTY, acts + [Snapshot] + [Index(0, false)] + [Truncate] + [Crash] + BOOT);
            r.Some? && r.value.phase.Up? && 0 in r.value.mem.records && !Served(r.value, 0)
  {
    hide Exec;
    OneMore(EMPTY, acts, s, Snapshot);
    var r1, s1 := acts + [Snapshot], s.(disk := s.mem);
    OneMore(EMPTY, r1, s1, Index(0, false));
    var r2, s2 := r1 + [Index(0, false)], Do(s1, Index(0, false));
    OneMore(EMPTY, r2, s2, Truncate);
    var r3, s3 := r2 + [Truncate], Do(s2, Truncate);
    OneMore(EMPTY, r3, s3, Crash);
    Boots(EMPTY, r3 + [Crash], Do(s3, Crash));
  }
}
