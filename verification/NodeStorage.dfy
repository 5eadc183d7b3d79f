/** The storage bundle of one node: data file, snapshot on disk and journal, driven step by step. */
module NodeStorage {
  import opened Wrappers
  import opened Ids
  import opened SortedIds
  import opened LiveTracker
  import opened Recovery
  import opened RecoveryLists

  datatype JournalEntry = WriteVersioned(w: Write) | Bookkeeping

  /** The writes among the entries. */
  function Writes(entries: seq<JournalEntry>): seq<Write> {
    if entries == [] then []
    else
      var e := entries[|entries| - 1];
      Writes(entries[..|entries| - 1]) + if e.WriteVersioned? then [e.w] else []
  }

  lemma {:induction false} WritesAppend(entries: seq<JournalEntry>, e: JournalEntry)
    ensures Writes(entries + [e]) == Writes(entries) + if e.WriteVersioned? then [e.w] else []
  {
    assert (entries + [e])[..|entries|] == entries;
  }

  function PlainLook(records: map<Id, Record>, id: Id): Option<Data> {
    if id in records && records[id].Plain? then Some(records[id].data) else None
  }

  /** A data file holds a snapshot's records and lists. */
  ghost predicate Mirrors(snap: Snap, heads: map<Key, Head>, records: map<Id, Record>) {
    && (forall id: Id :: Shard(id) != TRACKER_SHARD ==> Look(snap.records, id) == PlainLook(records, id))
    && (forall k: Key :: ListOf(snap.lists, k) == Contents(heads, records, k))
  }

  /** A client record written beside the tracker segments. */
  lemma {:induction false} RecordWritten(snap: Snap, heads: map<Key, Head>, records: map<Id, Record>, id: Id, data: Data)
    requires Mirrors(snap, heads, records) && Bounded(heads) && Shard(id) != TRACKER_SHARD
    ensures Mirrors(snap.(records := snap.records[id := data]), heads, records[id := Plain(data)])
  {
    hide Segments, Shard;
    forall k: Key ensures Contents(heads, records[id := Plain(data)], k) == Contents(heads, records, k) {
      PlainFrame(records, id, data, k, HeadOf(heads, k).sealed);
    }
  }

  lemma {:induction false} PlainFrame(records: map<Id, Record>, id: Id, data: Data, k: Key, n: nat)
    requires Shard(id) != TRACKER_SHARD && n <= TICKS
    ensures Segments(records[id := Plain(data)], k, n) == Segments(records, k, n)
  {
    hide SegmentId, Shard;
    if n > 0 {
      PlainFrame(records, id, data, k, n - 1);
      SegmentIdsDiffer(k, n - 1, k, n - 1);
    }
  }

  /** One tracker changed, and nothing else. */
  lemma {:induction false} ListWritten(snap: Snap, heads0: map<Key, Head>, records0: map<Id, Record>, k: Key, list: seq<Id>,
                                       heads: map<Key, Head>, records: map<Id, Record>)
    requires Mirrors(snap, heads0, records0) && Only(k, heads0, records0, heads, records)
    requires Contents(heads, records, k) == list
    ensures Mirrors(snap.(lists := snap.lists[k := list]), heads, records)
  {
    hide Contents, Shard;
    forall id: Id | Shard(id) != TRACKER_SHARD ensures PlainLook(records, id) == PlainLook(records0, id) {
      assert SameRecord(records0, records, id);
    }
  }

  class NodeStorage {
    const data: DataFile
    var diskHeads: map<Key, Head>
    var diskRecords: map<Id, Record>
    var journal: seq<JournalEntry>
    /** The state of the machine this bundle is in. */
    ghost var model: State

    ghost predicate Valid()
      reads this, data
    {
      && data.Valid() && Bounded(diskHeads)
      && model.journal == Writes(journal)
      && (forall w <- model.journal :: Shard(w.id) != TRACKER_SHARD)
      && Mirrors(model.disk, diskHeads, diskRecords)
      && (!model.phase.Down? ==> Mirrors(model.mem, data.heads, data.records))
    }

    /** Open the files a stopped node left: the data file starts as the snapshot. */
    constructor (heads: map<Key, Head>, records: map<Id, Record>, entries: seq<JournalEntry>, ghost left: State)
      requires left.phase.Down? && Bounded(heads) && Mirrors(left.disk, heads, records)
      requires left.journal == Writes(entries) && forall w <- left.journal :: Shard(w.id) != TRACKER_SHARD
      ensures Valid() && fresh(data) && model == Do(left, Load) && journal == entries
    {
      hide Mirrors, Shard;
      diskHeads, diskRecords, journal := heads, records, entries;
      model := Do(left, Load);
      data := new DataFile();
      new;
      data.heads, data.records := heads, records;
    }

    /** The next journalled write reaches the data file. */
    method ReplayWrite(w: Write)
      requires Valid() && model.phase.Replaying? && model.phase.next < |model.journal|
      requires w == model.journal[model.phase.next]
      modifies this`model, data
      ensures Valid() && Enabled(old(model), ReplayOne) && model == Do(old(model), ReplayOne)
      ensures model.phase == Replaying(old(model).phase.next + 1) && model.mem.lists == old(model).mem.lists
      ensures model.disk == old(model).disk && model.journal == old(model).journal
    {
      hide Mirrors, Shard;
      RecordWritten(model.mem, data.heads, data.records, w.id, w.data);
      data.records := data.records[w.id := Plain(w.data)];
      model := Do(model, ReplayOne);
    }

    /** Put every journalled write into the data file; collect the replayed ids of each tracker. */
    method ReplayEntries(ghost s0: State) returns (touched: map<Key, seq<Id>>, replayed: nat, ghost acts: seq<Action>)
      requires Valid() && model.phase == Replaying(0) && s0 == model
      modifies this`model, data
      ensures Valid() && model.phase == Replaying(|model.journal|)
      ensures model.disk == s0.disk && model.journal == s0.journal && model.mem.lists == s0.mem.lists
      ensures replayed == |model.journal| && Collected(touched, model.journal)
      ensures replayed == 0 ==> model.mem == s0.mem
      ensures AllRecovery(acts) && Exec(s0, acts) == Some(model)
    {
      hide Mirrors, Shard, Exec, Do, Enabled, Collected, Writes, AllRecovery;
      Nothing(model);
      touched, replayed, acts := map[], 0, [];
      NoneYet();
      assert journal[..0] == [];
      var i := 0;
      while i < |journal|
        invariant i <= |journal| && Valid() && replayed == |Writes(journal[..i])|
        invariant model.phase == Replaying(replayed)
        invariant model.disk == s0.disk && model.journal == s0.journal && model.mem.lists == s0.mem.lists
        invariant Collected(touched, Writes(journal[..i]))
        invariant replayed == 0 ==> model.mem == s0.mem
        invariant AllRecovery(acts) && Exec(s0, acts) == Some(model)
      {
        var e := journal[i];
        WritesPrefix(journal, i);
        if e.WriteVersioned? {
          assert model.journal[replayed] == e.w;
          assert e.w in model.journal;
          ghost var before := model;
          ReplayWrite(e.w);
          OneMore(s0, acts, before, ReplayOne);
          RecoveryMore(acts, ReplayOne);
          acts := acts + [ReplayOne];
          replayed := replayed + 1;
          if Shard(e.w.id) != TRACKER_SHARD {
            CollectedOne(touched, Writes(journal[..i]), e.w);
            var k := KeyOf(e.w.id);
            touched := touched[k := (if k in touched then touched[k] else []) + [e.w.id]];
          }
        } else {
          assert Writes(journal[..i]) + [] == Writes(journal[..i]);
        }
        i := i + 1;
      }
      assert journal[..i] == journal;
    }

    /** Rebuild every touched tracker; the order does not matter. */
    method RebuildTouched(touched: map<Key, seq<Id>>, ghost s0: State, ghost acts0: seq<Action>)
      returns (ghost acts: seq<Action>)
      requires Valid() && model.phase == Replaying(|model.journal|)
      requires Collected(touched, model.journal)
      requires forall k <- touched :: |ListOf(model.mem.lists, k)| + |touched[k]| < TICKS
      requires AllRecovery(acts0) && Exec(s0, acts0) == Some(model)
      modifies this`model, data
      ensures Valid() && model.phase == Rebuilding({}) && model.journal == old(model).journal
      ensures touched == map[] ==> model.mem == old(model).mem
      ensures AllRecovery(acts) && Exec(s0, acts) == Some(model)
    {
      hide Mirrors, Shard, Exec, Do, Enabled, Contents, Only, AllRecovery, SortedUnion, IdsOf, TouchedKeys;
      ghost var before := model;
      StartsRebuild(before);
      OneMore(s0, acts0, before, StartRebuild);
      RecoveryMore(acts0, StartRebuild);
      model := Do(model, StartRebuild);
      acts := acts0 + [StartRebuild];
      var todo := touched.Keys;
      while todo != {}
        invariant Valid() && model.phase == Rebuilding(todo) && todo <= touched.Keys
        invariant model.journal == old(model).journal
        invariant todo == touched.Keys ==> model.mem == old(model).mem
        invariant forall k <- todo :: |ListOf(model.mem.lists, k)| + |touched[k]| < TICKS
        invariant AllRecovery(acts) && Exec(s0, acts) == Some(model)
        decreases |todo|
      {
        var k :| k in todo;
        before := model;
        RebuildOne(k, touched[k]);
        OneMore(s0, acts, before, Rebuild(k));
        RecoveryMore(acts, Rebuild(k));
        acts := acts + [Rebuild(k)];
        todo := todo - {k};
      }
    }

    method RebuildOne(k: Key, ids: seq<Id>)
      requires Valid() && model.phase.Rebuilding? && k in model.phase.todo && ids == IdsOf(model.journal, k)
      requires |ListOf(model.mem.lists, k)| + |ids| < TICKS
      modifies this`model, data
      ensures Valid() && Enabled(old(model), Rebuild(k)) && model == Do(old(model), Rebuild(k))
      ensures model.phase == Rebuilding(old(model).phase.todo - {k}) && model.journal == old(model).journal
      ensures forall l: Key :: l != k ==> ListOf(model.mem.lists, l) == ListOf(old(model).mem.lists, l)
    {
      hide Mirrors, Shard, Contents, Only, SortedUnion, IdsOf, TouchedKeys;
      ghost var heads0, records0 := data.heads, data.records;
      MirrorList(model.mem, heads0, records0, k);
      data.LiveRebuild(k, ids);
      ListWritten(model.mem, heads0, records0, k, SortedUnion(ListOf(model.mem.lists, k) + ids), data.heads, data.records);
      model := Do(model, Rebuild(k));
    }

    /** Replay the journal into the data file, rebuild every tracker it touched, flush, and empty the journal. */
    method RecoverFromJournal() returns (ghost acts: seq<Action>)
      requires Valid() && model.phase == Replaying(0) && model.mem == model.disk
      requires forall k: Key :: |ListOf(model.mem.lists, k)| + |journal| < TICKS
      modifies this, data
      ensures Valid() && model.phase.Up?
      ensures AllRecovery(acts) && Exec(old(model), acts) == Some(model)
    {
      hide Mirrors, Shard, Exec, Collected, AllRecovery, Contents, Writes, Do, Enabled, RecoveryStep;
      ghost var s0 := model;
      var touched, replayed;
      touched, replayed, acts := ReplayEntries(s0);
      TouchedShort(touched, journal);
      if replayed == 0 { NothingTouched(touched); }
      acts := RebuildTouched(touched, s0, acts);
      Finishes(s0, acts, model);
      acts := acts + [SaveRecovered] + [FinishRecovery];
      if replayed > 0 {
        diskHeads, diskRecords := data.heads, data.records;
        journal := [];
        NoneYet();
      }
      model := model.(phase := Up, disk := model.mem, journal := []);
    }

    /** Journal the record, then put it into the data file. */
    method CommitVersionedWrite(w: Write)
      requires Valid() && Enabled(model, Commit(w))
      modifies this`journal, this`model, data
      ensures Valid()
      ensures model == Do(Do(old(model), Commit(w)), ApplyRecord(w.id))
      ensures data.heads == old(data.heads)
    {
      hide Mirrors, Shard, Do, Enabled, Writes;
      ghost var s0 := model;
      CommitEffect(s0, w);
      WritesAppend(journal, WriteVersioned(w));
      journal := journal + [WriteVersioned(w)];
      RecordWritten(s0.mem, data.heads, data.records, w.id, w.data);
      data.records := data.records[w.id := Plain(w.data)];
      model := Do(Do(s0, Commit(w)), ApplyRecord(w.id));
    }

    /** Commit a record and list it in its tracker. */
    method CommitWriteLive(w: Write)
      requires Valid() && Enabled(model, Commit(w)) && HeadOf(data.heads, KeyOf(w.id)).sealed + 1 < TICKS
      modifies this`journal, this`model, data
      ensures Valid()
      ensures model == Do(Do(Do(old(model), Commit(w)), ApplyRecord(w.id)), Index(w.id, false))
    {
      hide Mirrors, Shard, Contents, Only;
      CommitVersionedWrite(w);
      ghost var heads0, records0 := data.heads, data.records;
      ghost var k := KeyOf(w.id);
      MirrorList(model.mem, heads0, records0, k);
      data.LiveAppend(KeyOf(w.id), w.id);
      ListWritten(model.mem, heads0, records0, k, ListOf(model.mem.lists, k) + [w.id], data.heads, data.records);
      model := Do(model, Index(w.id, false));
    }

    method FlushSnapshot()
      requires Valid() && model.phase.Up?
      modifies this
      ensures Valid() && model == Do(old(model), Snapshot) && journal == old(journal)
    {
      diskHeads, diskRecords := data.heads, data.records;
      model := Do(model, Snapshot);
    }

    /** Flush the data file, then empty the journal; alone on the bundle, so no commit is under way. */
    method CompactJournal()
      requires Valid() && Enabled(model, Compact)
      modifies this
      ensures Valid() && model == Do(old(model), Compact)
    {
      diskHeads, diskRecords := data.heads, data.records;
      journal := [];
      model := Do(model, Compact);
    }
  }

  lemma {:induction false} MirrorList(snap: Snap, heads: map<Key, Head>, records: map<Id, Record>, k: Key)
    requires Mirrors(snap, heads, records)
    ensures ListOf(snap.lists, k) == Contents(heads, records, k)
  {
  }

  ghost predicate Collected(touched: map<Key, seq<Id>>, done: seq<Write>) {
    && touched.Keys == TouchedKeys(done)
    && forall k <- touched :: touched[k] == IdsOf(done, k)
  }

  lemma {:induction false} CollectedOne(touched: map<Key, seq<Id>>, done: seq<Write>, w: Write)
    requires Collected(touched, done) && Shard(w.id) != TRACKER_SHARD
    ensures var k := KeyOf(w.id);
            Collected(touched[k := (if k in touched then touched[k] else []) + [w.id]], done + [w])
  {
    hide Shard, StructId, Tenant;
    var k, more := KeyOf(w.id), done + [w];
    assert more[..|done|] == done;
    assert TouchedKeys(more) == TouchedKeys(done) + {k} by {
      assert forall x :: x in more <==> x in done || x == w;
    }
    if k !in touched {
      UntouchedHasNone(done, k);
    }
  }

  /** One entry more is at most one write more, and all of them are writes of the journal. */
  lemma {:induction false} WritesPrefix(entries: seq<JournalEntry>, i: nat)
    requires i < |entries|
    ensures Writes(entries[..i + 1]) == Writes(entries[..i]) + if entries[i].WriteVersioned? then [entries[i].w] else []
    ensures Writes(entries[..i + 1]) <= Writes(entries)
  {
    assert entries[..i + 1] == entries[..i] + [entries[i]];
    WritesAppend(entries[..i], entries[i]);
    PrefixOfWrites(entries, i + 1);
  }

  lemma {:induction false} PrefixOfWrites(entries: seq<JournalEntry>, n: nat)
    requires n <= |entries|
    ensures Writes(entries[..n]) <= Writes(entries)
  {
    if n < |entries| {
      var init := entries[..|entries| - 1];
      PrefixOfWrites(init, n);
      assert init[..n] == entries[..n];
    } else {
      assert entries[..n] == entries;
    }
  }

  lemma {:induction false} NoneYet()
    ensures Collected(map[], Writes([])) && AllRecovery([]) && Writes([]) == []
  {
  }

  lemma {:induction false} RecoveryMore(acts: seq<Action>, a: Action)
    requires AllRecovery(acts) && RecoveryStep(a)
    ensures AllRecovery(acts + [a])
  {
  }

  lemma {:induction false} StartsRebuild(s: State)
    requires s.phase == Replaying(|s.journal|)
    ensures Enabled(s, StartRebuild) && Do(s, StartRebuild) == s.(phase := Rebuilding(TouchedKeys(s.journal)))
  {
  }

  lemma {:induction false} TouchedShort(touched: map<Key, seq<Id>>, entries: seq<JournalEntry>)
    requires Collected(touched, Writes(entries))
    ensures forall k <- touched :: |touched[k]| <= |entries|
  {
    forall k <- touched ensures |touched[k]| <= |entries| {
      IdsShort(Writes(entries), k);
      WritesShort(entries);
    }
  }

  lemma {:induction false} IdsShort(journal: seq<Write>, k: Key)
    ensures |IdsOf(journal, k)| <= |journal|
  {
    if journal != [] {
      IdsShort(journal[..|journal| - 1], k);
    }
  }

  lemma {:induction false} WritesShort(entries: seq<JournalEntry>)
    ensures |Writes(entries)| <= |entries|
  {
    if entries != [] {
      WritesShort(entries[..|entries| - 1]);
    }
  }

  lemma {:induction false} NothingTouched(touched: map<Key, seq<Id>>)
    requires Collected(touched, [])
    ensures touched == map[]
  {
    assert TouchedKeys([]) == {};
  }

  lemma {:induction false} Finishes(s0: State, acts: seq<Action>, s: State)
    requires s.phase == Rebuilding({}) && AllRecovery(acts) && Exec(s0, acts) == Some(s)
    ensures AllRecovery(acts + [SaveRecovered] + [FinishRecovery])
    ensures Exec(s0, acts + [SaveRecovered] + [FinishRecovery]) == Some(s.(phase := Up, disk := s.mem, journal := []))
  {
    hide Exec, AllRecovery;
    OneMore(s0, acts, s, SaveRecovered);
    RecoveryMore(acts, SaveRecovered);
    OneMore(s0, acts + [SaveRecovered], Do(s, SaveRecovered), FinishRecovery);
    RecoveryMore(acts + [SaveRecovered], FinishRecovery);
  }

  lemma {:induction false} CommitEffect(s: State, w: Write)
    requires Enabled(s, Commit(w))
    ensures Shard(w.id) != TRACKER_SHARD && s.phase.Up?
    ensures Enabled(Do(s, Commit(w)), ApplyRecord(w.id))
    ensures var d := Do(Do(s, Commit(w)), ApplyRecord(w.id));
            && d.phase.Up? && d.disk == s.disk && d.journal == s.journal + [w]
            && d.mem == s.mem.(records := s.mem.records[w.id := w.data])
  {
    hide Shard;
  }
}
