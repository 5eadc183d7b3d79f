/** The Slow-Node's history store: a journal of flushed records, an index over it, and per-tenant watermarks. */
module History {
  import opened Bytes
  import opened Ids
  import opened Wrappers

  type Tenant = nat

  datatype Rec = Rec(id: Id, data: seq<Byte>)

  /** A record as journalled: stamped with its tenant and the sequence of the flush. */
  datatype Stamped = Stamped(tenant: Tenant, stamp: nat, rec: Rec)

  datatype FlushBatch = FlushBatch(stamp: nat, tenant: Tenant, records: seq<Rec>)

  type Index = map<(Tenant, Id), Stamped>

  /** The journal entries of a batch. */
  function StampAll(tenant: Tenant, stamp: nat, records: seq<Rec>): (r: seq<Stamped>)
    ensures |r| == |records| && forall i :: 0 <= i < |r| ==> r[i] == Stamped(tenant, stamp, records[i])
  {
    seq(|records|, i requires 0 <= i < |records| => Stamped(tenant, stamp, records[i]))
  }

  /** The index a journal gives: the last entry of each id. */
  function IndexOf(journal: seq<Stamped>): Index {
    if journal == [] then map[]
    else
      var j := journal[|journal| - 1];
      IndexOf(journal[..|journal| - 1])[(j.tenant, j.rec.id) := j]
  }

  /** The watermark a journal gives: the highest stamp of the tenant's entries. */
  function MarkOf(journal: seq<Stamped>, tenant: Tenant): nat {
    if journal == [] then 0
    else
      var j, before := journal[|journal| - 1], MarkOf(journal[..|journal| - 1], tenant);
      if j.tenant == tenant && j.stamp > before then j.stamp else before
  }

  function HighWater(marks: map<Tenant, nat>, tenant: Tenant): nat {
    if tenant in marks then marks[tenant] else 0
  }

  function Advance(marks: map<Tenant, nat>, tenant: Tenant, stamp: nat): map<Tenant, nat> {
    marks[tenant := if stamp > HighWater(marks, tenant) then stamp else HighWater(marks, tenant)]
  }

  /** The stored bytes without the stamp. */
  function DataAt(index: Index, tenant: Tenant, id: Id): Option<seq<Byte>> {
    if (tenant, id) in index then Some(index[(tenant, id)].rec.data) else None
  }

  // ----- What a batch does -----

  /** Bytes a batch gives `id`: those of its last record with that id. */
  function LastIn(records: seq<Rec>, id: Id): Option<seq<Byte>> {
    if records == [] then None
    else if records[|records| - 1].id == id then Some(records[|records| - 1].data)
    else LastIn(records[..|records| - 1], id)
  }

  lemma {:induction false} BatchData(journal: seq<Stamped>, tenant: Tenant, stamp: nat, records: seq<Rec>, t: Tenant, id: Id)
    ensures DataAt(IndexOf(journal + StampAll(tenant, stamp, records)), t, id)
         == if t == tenant && LastIn(records, id).Some? then LastIn(records, id) else DataAt(IndexOf(journal), t, id)
  {
    var all := journal + StampAll(tenant, stamp, records);
    if records == [] {
      assert all == journal;
    } else {
      var init := records[..|records| - 1];
      BatchData(journal, tenant, stamp, init, t, id);
      assert all[..|all| - 1] == journal + StampAll(tenant, stamp, init);
    }
  }

  /** Delivering a batch again changes no record, whatever the stamp. */
  lemma {:induction false} RedeliveryIsIdempotent(journal: seq<Stamped>, tenant: Tenant, stamp: nat, again: nat, records: seq<Rec>,
                                                  t: Tenant, id: Id)
    ensures var once := journal + StampAll(tenant, stamp, records);
            DataAt(IndexOf(once + StampAll(tenant, again, records)), t, id) == DataAt(IndexOf(once), t, id)
  {
    var once := journal + StampAll(tenant, stamp, records);
    BatchData(journal, tenant, stamp, records, t, id);
    BatchData(once, tenant, again, records, t, id);
  }

  lemma {:induction false} BatchMark(journal: seq<Stamped>, tenant: Tenant, stamp: nat, records: seq<Rec>, t: Tenant)
    ensures MarkOf(journal + StampAll(tenant, stamp, records), t)
         == if t == tenant && records != [] && stamp > MarkOf(journal, t) then stamp else MarkOf(journal, t)
  {
    var all := journal + StampAll(tenant, stamp, records);
    if records == [] {
      assert all == journal;
    } else {
      var init := records[..|records| - 1];
      BatchMark(journal, tenant, stamp, init, t);
      assert all[..|all| - 1] == journal + StampAll(tenant, stamp, init);
    }
  }

  // ----- Watermarks over any sequence of flushes -----

  /** A flush: completed, or stopped with `n` of its records journalled. */
  datatype Flush = Complete(batch: FlushBatch) | Stopped(batch: FlushBatch, n: nat)

  function Journalled(f: Flush): seq<Rec> {
    if f.Stopped? && f.n <= |f.batch.records| then f.batch.records[..f.n] else f.batch.records
  }

  function JournalAfter(base: seq<Stamped>, flushes: seq<Flush>): seq<Stamped> {
    if flushes == [] then base
    else
      var f := flushes[|flushes| - 1];
      JournalAfter(base, flushes[..|flushes| - 1]) + StampAll(f.batch.tenant, f.batch.stamp, Journalled(f))
  }

  /** A stopped flush leaves the watermarks. */
  function MarksAfter(marks: map<Tenant, nat>, flushes: seq<Flush>): map<Tenant, nat> {
    if flushes == [] then marks
    else
      var f, before := flushes[|flushes| - 1], MarksAfter(marks, flushes[..|flushes| - 1]);
      if f.Complete? then Advance(before, f.batch.tenant, f.batch.stamp) else before
  }

  /** What a watermark in memory goes by, and what a rebuilt one goes by. */
  datatype Trace = Completed | LeftRecord

  predicate Counts(f: Flush, tenant: Tenant, trace: Trace) {
    f.batch.tenant == tenant && if trace.Completed? then f.Complete? else Journalled(f) != []
  }

  /** The highest stamp among a tenant's flushes that left that trace, zero if there is none. */
  function Highest(flushes: seq<Flush>, tenant: Tenant, trace: Trace): nat {
    if flushes == [] then 0
    else
      var f, before := flushes[|flushes| - 1], Highest(flushes[..|flushes| - 1], tenant, trace);
      if Counts(f, tenant, trace) && f.batch.stamp > before then f.batch.stamp else before
  }

  lemma {:induction false} HighestIsMaximum(flushes: seq<Flush>, tenant: Tenant, trace: Trace)
    ensures forall f <- flushes :: Counts(f, tenant, trace) ==> f.batch.stamp <= Highest(flushes, tenant, trace)
    ensures Highest(flushes, tenant, trace) == 0
         || exists f <- flushes :: Counts(f, tenant, trace) && f.batch.stamp == Highest(flushes, tenant, trace)
  {
    if flushes != [] {
      hide Counts;
      var init, last := flushes[..|flushes| - 1], flushes[|flushes| - 1];
      HighestIsMaximum(init, tenant, trace);
      assert flushes == init + [last];
      assert last in flushes && forall f <- init :: f in flushes;
    }
  }

  function Max(a: nat, b: nat): nat {
    if a < b then b else a
  }

  lemma {:induction false} MarkIsHighestComplete(marks: map<Tenant, nat>, flushes: seq<Flush>, tenant: Tenant)
    ensures HighWater(MarksAfter(marks, flushes), tenant) == Max(HighWater(marks, tenant), Highest(flushes, tenant, Completed))
  {
    if flushes != [] {
      MarkIsHighestComplete(marks, flushes[..|flushes| - 1], tenant);
    }
  }

  lemma {:induction false} JournalMarkIsHighestLeft(base: seq<Stamped>, flushes: seq<Flush>, tenant: Tenant)
    ensures MarkOf(JournalAfter(base, flushes), tenant) == Max(MarkOf(base, tenant), Highest(flushes, tenant, LeftRecord))
  {
    if flushes != [] {
      var init, f := flushes[..|flushes| - 1], flushes[|flushes| - 1];
      JournalMarkIsHighestLeft(base, init, tenant);
      BatchMark(JournalAfter(base, init), f.batch.tenant, f.batch.stamp, Journalled(f), tenant);
    }
  }

  /**
   * Over every sequence of complete, empty and half-failed flushes of a store opened on `base`: reopening gives a tenant's
   * watermark back if and only if the highest stamp of its completed batches and the highest stamp of its batches that
   * left a record are the same, as far as they exceed what the store was opened with.
   */
  lemma {:induction false} WatermarkSurvivesReopen(base: seq<Stamped>, marks: map<Tenant, nat>, flushes: seq<Flush>, tenant: Tenant)
    requires HighWater(marks, tenant) == MarkOf(base, tenant)
    ensures MarkOf(JournalAfter(base, flushes), tenant) == HighWater(MarksAfter(marks, flushes), tenant)
       <==> Max(MarkOf(base, tenant), Highest(flushes, tenant, Completed))
            == Max(MarkOf(base, tenant), Highest(flushes, tenant, LeftRecord))
  {
    MarkIsHighestComplete(marks, flushes, tenant);
    JournalMarkIsHighestLeft(base, flushes, tenant);
  }

  /** For a store that started empty: if and only if the two highest stamps are equal. */
  lemma {:induction false} WatermarkOfFreshStore(flushes: seq<Flush>, tenant: Tenant)
    ensures MarkOf(JournalAfter([], flushes), tenant) == HighWater(MarksAfter(map[], flushes), tenant)
       <==> Highest(flushes, tenant, Completed) == Highest(flushes, tenant, LeftRecord)
  {
    WatermarkSurvivesReopen([], map[], flushes, tenant);
  }

  /** An empty batch: the watermark is 5 and a reopened store reports 0. */
  lemma {:induction false} EmptyBatchIsForgotten()
    ensures var flushes := [Complete(FlushBatch(5, 1, []))];
            HighWater(MarksAfter(map[], flushes), 1) == 5 && MarkOf(JournalAfter([], flushes), 1) == 0
  {
    var f := Complete(FlushBatch(5, 1, []));
    assert [f][..0] == [];
    assert Highest([], 1, Completed) == 0 && Highest([], 1, LeftRecord) == 0;
    MarkIsHighestComplete(map[], [f], 1);
    JournalMarkIsHighestLeft([], [f], 1);
  }

  /** A flush that stops after one record: the watermark is 0 and a reopened store reports 5. */
  lemma {:induction false} HalfFlushIsRemembered(r: Rec)
    ensures var flushes := [Stopped(FlushBatch(5, 1, [r, r]), 1)];
            HighWater(MarksAfter(map[], flushes), 1) == 0 && MarkOf(JournalAfter([], flushes), 1) == 5
  {
    var f := Stopped(FlushBatch(5, 1, [r, r]), 1);
    assert [f][..0] == [];
    assert Journalled(f) == [r];
    assert Highest([], 1, Completed) == 0 && Highest([], 1, LeftRecord) == 0;
    MarkIsHighestComplete(map[], [f], 1);
    JournalMarkIsHighestLeft([], [f], 1);
  }

  // ----- The number of flushes -----

  /** The count a journal gives: the highest stamp of all its entries. */
  function TopStamp(journal: seq<Stamped>): nat {
    if journal == [] then 0 else Max(TopStamp(journal[..|journal| - 1]), journal[|journal| - 1].stamp)
  }

  function Completions(flushes: seq<Flush>): nat {
    if flushes == [] then 0
    else Completions(flushes[..|flushes| - 1]) + if flushes[|flushes| - 1].Complete? then 1 else 0
  }

  /** The highest stamp among the flushes that left a record, zero if there is none. */
  function TopLeft(flushes: seq<Flush>): nat {
    if flushes == [] then 0
    else
      var f, before := flushes[|flushes| - 1], TopLeft(flushes[..|flushes| - 1]);
      if Journalled(f) != [] then Max(before, f.batch.stamp) else before
  }

  lemma {:induction false} BatchTop(journal: seq<Stamped>, tenant: Tenant, stamp: nat, records: seq<Rec>)
    ensures TopStamp(journal + StampAll(tenant, stamp, records))
         == if records == [] then TopStamp(journal) else Max(TopStamp(journal), stamp)
  {
    var all := journal + StampAll(tenant, stamp, records);
    if records == [] {
      assert all == journal;
    } else {
      var init := records[..|records| - 1];
      BatchTop(journal, tenant, stamp, init);
      assert all[..|all| - 1] == journal + StampAll(tenant, stamp, init);
    }
  }

  /** So a reopen sets the count to the highest stamp that left a record, not to the number of flushes. */
  lemma {:induction false} CountIsTopStamp(base: seq<Stamped>, flushes: seq<Flush>)
    ensures TopStamp(JournalAfter(base, flushes)) == Max(TopStamp(base), TopLeft(flushes))
  {
    if flushes != [] {
      var init, f := flushes[..|flushes| - 1], flushes[|flushes| - 1];
      CountIsTopStamp(base, init);
      BatchTop(JournalAfter(base, init), f.batch.tenant, f.batch.stamp, Journalled(f));
    }
  }

  /** One flush with stamp 5: the store counts one, and five after a reopen. */
  lemma {:induction false} OneFlushCountsAsFive(r: Rec)
    ensures var flushes := [Complete(FlushBatch(5, 1, [r]))]; Completions(flushes) == 1 && TopStamp(JournalAfter([], flushes)) == 5
  {
    var f := Complete(FlushBatch(5, 1, [r]));
    assert [f][..0] == [];
    assert Completions([]) == 0 && TopLeft([]) == 0;
    CountIsTopStamp([], [f]);
  }

  // ----- The store -----

  class HistoryStore {
    var index: Index
    var journal: seq<Stamped>
    var marks: map<Tenant, nat>
    var flushCount: nat
    /** What the store was opened on, and every flush since. */
    ghost var base: seq<Stamped>
    ghost var flushes: seq<Flush>

    /** The index is the one the journal gives; journal and watermarks are those of the flushes. */
    ghost predicate Valid()
      reads this
    {
      && index == IndexOf(journal)
      && journal == JournalAfter(base, flushes)
      && (forall t :: HighWater(marks, t) == Max(MarkOf(base, t), Highest(flushes, t, Completed)))
      && flushCount == TopStamp(base) + Completions(flushes)
    }

    /** Rebuild index and watermarks from a journal. */
    constructor Open(entries: seq<Stamped>)
      ensures Valid() && journal == entries && base == entries && flushes == []
      ensures forall t :: HighWater(marks, t) == MarkOf(entries, t)
      ensures flushCount == TopStamp(entries)
    {
      index, journal, marks, flushCount := map[], entries, map[], 0;
      base, flushes := entries, [];
      new;
      var i := 0;
      while i < |entries|
        invariant i <= |entries| && journal == entries && base == entries && flushes == []
        invariant index == IndexOf(entries[..i])
        invariant forall t :: HighWater(marks, t) == MarkOf(entries[..i], t)
        invariant flushCount == TopStamp(entries[..i])
      {
        var j := entries[i];
        assert entries[..i + 1][..i] == entries[..i];
        index := index[(j.tenant, j.rec.id) := j];
        if j.stamp > 0 {
          marks := Advance(marks, j.tenant, j.stamp);
          flushCount := Max(flushCount, j.stamp);
        }
        i := i + 1;
      }
      assert entries[..i] == entries;
    }

    /** Journal and index a batch, then advance the watermark. */
    method ApplyFlush(batch: FlushBatch) returns (stamp: nat)
      requires Valid()
      modifies this
      ensures Valid() && stamp == batch.stamp
      ensures base == old(base) && flushes == old(flushes) + [Complete(batch)]
      ensures journal == old(journal) + StampAll(batch.tenant, batch.stamp, batch.records)
      ensures marks == Advance(old(marks), batch.tenant, batch.stamp) && flushCount == old(flushCount) + 1
    {
      hide Highest, JournalAfter, Completions, TopStamp;
      AppendRecords(batch, |batch.records|);
      assert batch.records[..|batch.records|] == batch.records;
      marks := Advance(marks, batch.tenant, batch.stamp);
      flushCount := flushCount + 1;
      stamp := batch.stamp;
      OneFlush(base, flushes, Complete(batch));
      flushes := flushes + [Complete(batch)];
    }

    /** A flush that fails with `n` records journalled: the watermark stays. */
    method StopFlush(batch: FlushBatch, n: nat)
      requires Valid() && n <= |batch.records|
      modifies this
      ensures Valid() && marks == old(marks) && flushCount == old(flushCount)
      ensures base == old(base) && flushes == old(flushes) + [Stopped(batch, n)]
      ensures journal == old(journal) + StampAll(batch.tenant, batch.stamp, batch.records[..n])
    {
      hide Highest, JournalAfter, Completions, TopStamp;
      AppendRecords(batch, n);
      OneFlush(base, flushes, Stopped(batch, n));
      flushes := flushes + [Stopped(batch, n)];
    }

    /** Journal and index the first `n` records of a batch. */
    method AppendRecords(batch: FlushBatch, n: nat)
      requires index == IndexOf(journal) && n <= |batch.records|
      modifies `journal, `index
      ensures index == IndexOf(journal)
      ensures journal == old(journal) + StampAll(batch.tenant, batch.stamp, batch.records[..n])
    {
      hide IndexOf, StampAll;
      StampNone(batch);
      var i := 0;
      while i < n
        invariant i <= n && index == IndexOf(journal)
        invariant journal == old(journal) + StampAll(batch.tenant, batch.stamp, batch.records[..i])
      {
        var record := batch.records[i];
        var journaled := Stamped(batch.tenant, batch.stamp, record);
        OneRecord(journal, batch, i);
        journal := journal + [journaled];
        index := index[(batch.tenant, record.id) := journaled];
        i := i + 1;
      }
    }
  }

  lemma {:induction false} StampNone(batch: FlushBatch)
    ensures StampAll(batch.tenant, batch.stamp, batch.records[..0]) == []
  {
  }

  lemma {:induction false} OneRecord(journal: seq<Stamped>, batch: FlushBatch, i: nat)
    requires i < |batch.records|
    ensures var j := Stamped(batch.tenant, batch.stamp, batch.records[i]);
            && IndexOf(journal + [j]) == IndexOf(journal)[(batch.tenant, j.rec.id) := j]
            && StampAll(batch.tenant, batch.stamp, batch.records[..i + 1])
               == StampAll(batch.tenant, batch.stamp, batch.records[..i]) + [j]
  {
    assert (journal + [Stamped(batch.tenant, batch.stamp, batch.records[i])])[..|journal|] == journal;
  }

  lemma {:induction false} OneFlush(base: seq<Stamped>, flushes: seq<Flush>, f: Flush)
    ensures JournalAfter(base, flushes + [f])
         == JournalAfter(base, flushes) + StampAll(f.batch.tenant, f.batch.stamp, Journalled(f))
    ensures forall t :: Highest(flushes + [f], t, Completed)
                     == if f.Complete? && f.batch.tenant == t then Max(Highest(flushes, t, Completed), f.batch.stamp)
                        else Highest(flushes, t, Completed)
    ensures Completions(flushes + [f]) == Completions(flushes) + if f.Complete? then 1 else 0
  {
    assert (flushes + [f])[..|flushes|] == flushes;
  }

  /**
   * Closing and opening again gives the same index; each watermark is the highest stamp that left a record, so it is
   * the old one if and only if the completed flushes reach exactly as high as those that left a record. The flush count
   * is the highest of these stamps, and so the old one if and only if that is as many flushes as completed.
   */
  method Reopen(store: HistoryStore) returns (again: HistoryStore)
    requires store.Valid()
    ensures again.Valid() && again.index == store.index && again.journal == store.journal
    ensures forall t :: HighWater(again.marks, t) == Max(MarkOf(store.base, t), Highest(store.flushes, t, LeftRecord))
    ensures forall t :: HighWater(again.marks, t) == HighWater(store.marks, t)
                   <==> Max(MarkOf(store.base, t), Highest(store.flushes, t, Completed))
                        == Max(MarkOf(store.base, t), Highest(store.flushes, t, LeftRecord))
    ensures again.flushCount == store.flushCount
       <==> Max(TopStamp(store.base), TopLeft(store.flushes)) == TopStamp(store.base) + Completions(store.flushes)
  {
    hide Highest, JournalAfter, MarkOf, TopStamp, TopLeft, Completions;
    CountIsTopStamp(store.base, store.flushes);
    again := new HistoryStore.Open(store.journal);
    forall t ensures HighWater(again.marks, t) == Max(MarkOf(store.base, t), Highest(store.flushes, t, LeftRecord)) {
      JournalMarkIsHighestLeft(store.base, store.flushes, t);
    }
  }
}
