/** The live tracker: per `(struct, tenant)` a list of record ids, kept as sealed segments and an open tail. */
module LiveTracker {
  import opened Bytes
  import opened Ids
  import opened Lists
  import opened SortedIds

  const SEGMENT_CAP: nat := 256
  const TRACKER_SHARD: nat := 0xFFF

  /** A stored record: a client's bytes, or a sealed segment of a tracker. */
  datatype Record = Plain(data: seq<Byte>) | Segment(ids: seq<Id>)

  datatype Head = Head(sealed: nat, open: seq<Id>)

  /** `(struct, tenant)`, each within its width. */
  type Key = k: (nat, nat) | k.0 < STRUCTS && k.1 < TENANTS witness (0, 0)

  function SegmentId(k: Key, n: nat): Id {
    Pack(k.1, TRACKER_SHARD, k.0, n)
  }

  function HeadOf(heads: map<Key, Head>, k: Key): Head {
    if k in heads then heads[k] else Head(0, [])
  }

  /** A segment that was never written reads as empty. */
  function SegmentAt(records: map<Id, Record>, k: Key, n: nat): seq<Id> {
    var id := SegmentId(k, n);
    if id in records && records[id].Segment? then records[id].ids else []
  }

  /** The first `n` segments, oldest first. */
  function Segments(records: map<Id, Record>, k: Key, n: nat): seq<Id> {
    if n == 0 then [] else Segments(records, k, n - 1) + SegmentAt(records, k, n - 1)
  }

  /** The list a tracker stands for. */
  function Contents(heads: map<Key, Head>, records: map<Id, Record>, k: Key): seq<Id> {
    Segments(records, k, HeadOf(heads, k).sealed) + HeadOf(heads, k).open
  }

  // ----- Segment slots are kept apart -----

  /** Segments of different trackers, and different segments of one, have different ids; no client record has one. */
  lemma {:induction false} SegmentIdsDiffer(k: Key, n: nat, l: Key, m: nat)
    requires n < TICKS && m < TICKS
    ensures SegmentId(k, n) == SegmentId(l, m) <==> k == l && n == m
    ensures Shard(SegmentId(k, n)) == TRACKER_SHARD
  {
  }

  lemma {:induction false} SegmentAtPut(records: map<Id, Record>, k: Key, n: nat, ids: seq<Id>, l: Key, m: nat)
    requires n < TICKS && m < TICKS
    ensures SegmentAt(records[SegmentId(k, n) := Segment(ids)], l, m)
         == if k == l && n == m then ids else SegmentAt(records, l, m)
  {
    hide SegmentId;
    SegmentIdsDiffer(k, n, l, m);
  }

  /** Writing one segment leaves every other. */
  lemma {:induction false} SegmentsFrame(records: map<Id, Record>, k: Key, n: nat, ids: seq<Id>, l: Key, m: nat)
    requires n < TICKS && m <= TICKS && (k != l || m <= n)
    ensures Segments(records[SegmentId(k, n) := Segment(ids)], l, m) == Segments(records, l, m)
    decreases m
  {
    hide SegmentId, SegmentAt;
    if m > 0 {
      SegmentAtPut(records, k, n, ids, l, m - 1);
      SegmentsFrame(records, k, n, ids, l, m - 1);
    }
  }

  /** Writing segment `n` puts `ids` in its place in the list. */
  lemma {:induction false} SegmentsPut(records: map<Id, Record>, k: Key, n: nat, ids: seq<Id>, m: nat)
    requires n < m <= TICKS
    ensures Segments(records[SegmentId(k, n) := Segment(ids)], k, m)
         == Segments(records, k, n) + ids + Between(records, k, n + 1, m)
    ensures Segments(records, k, m)
         == Segments(records, k, n) + SegmentAt(records, k, n) + Between(records, k, n + 1, m)
    decreases m
  {
    hide SegmentId, SegmentAt;
    var now := records[SegmentId(k, n) := Segment(ids)];
    SegmentAtPut(records, k, n, ids, k, m - 1);
    if m == n + 1 {
      SegmentsFrame(records, k, n, ids, k, n);
      assert Between(records, k, n + 1, m) == [];
    } else {
      SegmentsPut(records, k, n, ids, m - 1);
      assert Between(records, k, n + 1, m) == Between(records, k, n + 1, m - 1) + SegmentAt(records, k, m - 1);
    }
  }

  function Between(records: map<Id, Record>, k: Key, lo: nat, hi: nat): seq<Id>
    decreases hi
  {
    if hi <= lo then [] else Between(records, k, lo, hi - 1) + SegmentAt(records, k, hi - 1)
  }

  /** `after` is `before` with one occurrence of `id` taken out. */
  ghost predicate OneTaken(before: seq<Id>, id: Id, after: seq<Id>) {
    exists i :: 0 <= i < |before| && before[i] == id && after == before[..i] + before[i + 1..]
  }

  /** On a list without repetitions that is the list without `id`, in the same order. */
  lemma {:induction false} TakenIsFiltered(before: seq<Id>, id: Id, after: seq<Id>)
    requires OneTaken(before, id, after) && Distinct(before)
    ensures after == Without(before, id) && id !in after
  {
    hide Without;
    var i :| 0 <= i < |before| && before[i] == id && after == before[..i] + before[i + 1..];
    var a, b := before[..i], before[i + 1..];
    assert id !in a && id !in b;
    WithoutAbsent(a, id);
    WithoutAbsent(b, id);
    assert before == a + ([id] + b);
    WithoutConcat(a, [id] + b, id);
    WithoutStep([id] + b, id);
    assert ([id] + b)[1..] == b;
  }

  function DropAt(s: seq<Id>, i: nat): seq<Id>
    requires i < |s|
  {
    s[..i] + s[i + 1..]
  }

  /** A part of the list: a sealed segment, or at last the open one. */
  function Part(heads: map<Key, Head>, records: map<Id, Record>, k: Key, n: nat): seq<Id> {
    if n < HeadOf(heads, k).sealed then SegmentAt(records, k, n) else HeadOf(heads, k).open
  }

  /** Of the newest part that has `id`, the first place. */
  ghost predicate FirstInNewest(heads: map<Key, Head>, records: map<Id, Record>, k: Key, id: Id, n: nat, pos: nat) {
    && n <= HeadOf(heads, k).sealed && pos < |Part(heads, records, k, n)|
    && Part(heads, records, k, n)[pos] == id && id !in Part(heads, records, k, n)[..pos]
    && forall m :: n < m <= HeadOf(heads, k).sealed ==> id !in Part(heads, records, k, m)
  }

  /** `after` is the list of `k` with `id` taken out of the newest part that has it, where it stands first. */
  ghost predicate TakenFromNewest(heads: map<Key, Head>, records: map<Id, Record>, k: Key, id: Id, after: seq<Id>) {
    exists n: nat, pos: nat :: FirstInNewest(heads, records, k, id, n, pos) &&
      var before, at := Contents(heads, records, k), |Segments(records, k, n)| + pos;
      at < |before| && before[at] == id && after == DropAt(before, at)
  }

  lemma {:induction false} TakenInPlace(a: seq<Id>, s: seq<Id>, i: nat, b: seq<Id>)
    requires i < |s|
    ensures OneTaken(a + s + b, s[i], a + (s[..i] + s[i + 1..]) + b)
    ensures (a + s + b)[|a| + i] == s[i] && a + (s[..i] + s[i + 1..]) + b == DropAt(a + s + b, |a| + i)
  {
    var before := a + s + b;
    var j := |a| + i;
    assert before[j] == s[i];
    assert before[..j] == a + s[..i];
    assert before[j + 1..] == s[i + 1..] + b;
    assert a + (s[..i] + s[i + 1..]) + b == before[..j] + before[j + 1..];
  }

  lemma {:induction false} TakenFromOpen(heads: map<Key, Head>, records: map<Id, Record>, k: Key, id: Id, pos: nat)
    requires var open := HeadOf(heads, k).open; pos < |open| && open[pos] == id && id !in open[..pos]
    ensures var head, before := HeadOf(heads, k), Contents(heads, records, k);
            var after := Contents(heads[k := Head(head.sealed, head.open[..pos] + head.open[pos + 1..])], records, k);
            id in before && OneTaken(before, id, after) && TakenFromNewest(heads, records, k, id, after)
  {
    hide Segments, SegmentAt, OneTaken;
    var head := HeadOf(heads, k);
    var a, open := Segments(records, k, head.sealed), head.open[..pos] + head.open[pos + 1..];
    TakenInPlace(a, head.open, pos, []);
    assert a + head.open + [] == Contents(heads, records, k) && a + open + [] == a + open;
    assert FirstInNewest(heads, records, k, id, head.sealed, pos);
  }

  lemma {:induction false} TakenFromSegment(heads: map<Key, Head>, records: map<Id, Record>, k: Key, id: Id, n: nat, pos: nat)
    requires n < HeadOf(heads, k).sealed <= TICKS && id !in HeadOf(heads, k).open
    requires forall m :: n < m < HeadOf(heads, k).sealed ==> id !in SegmentAt(records, k, m)
    requires var ids := SegmentAt(records, k, n); pos < |ids| && ids[pos] == id && id !in ids[..pos]
    ensures var ids, before := SegmentAt(records, k, n), Contents(heads, records, k);
            var after := Contents(heads, records[SegmentId(k, n) := Segment(ids[..pos] + ids[pos + 1..])], k);
            id in before && OneTaken(before, id, after) && TakenFromNewest(heads, records, k, id, after)
  {
    hide Segments, SegmentAt, OneTaken, SegmentId;
    var head, ids := HeadOf(heads, k), SegmentAt(records, k, n);
    var left := ids[..pos] + ids[pos + 1..];
    var a, b := Segments(records, k, n), Between(records, k, n + 1, head.sealed);
    SegmentsPut(records, k, n, left, head.sealed);
    TakenInPlace(a, ids, pos, b + head.open);
    Assoc(a + ids, b, head.open);
    Assoc(a + left, b, head.open);
    assert FirstInNewest(heads, records, k, id, n, pos);
  }

  lemma {:induction false} NotInSegments(records: map<Id, Record>, k: Key, id: Id, n: nat)
    requires forall m :: 0 <= m < n ==> id !in SegmentAt(records, k, m)
    ensures id !in Segments(records, k, n)
  {
    if n > 0 {
      NotInSegments(records, k, id, n - 1);
    }
  }

  /** Only tracker `k` and its segments changed. */
  ghost predicate Only(k: Key, heads0: map<Key, Head>, records0: map<Id, Record>, heads: map<Key, Head>, records: map<Id, Record>) {
    && (forall l: Key :: l != k ==> Contents(heads, records, l) == Contents(heads0, records0, l))
    && (forall id: Id :: Shard(id) != TRACKER_SHARD ==> SameRecord(records0, records, id))
  }

  ghost predicate SameRecord(records0: map<Id, Record>, records: map<Id, Record>, id: Id) {
    (id in records0 <==> id in records) && (id in records ==> records0[id] == records[id])
  }

  ghost predicate Bounded(heads: map<Key, Head>) {
    forall k <- heads :: |heads[k].open| < SEGMENT_CAP && heads[k].sealed < TICKS
  }

  /** A new head for `k`, and at most one new segment of `k`, touch nothing else. */
  lemma {:induction false} OnlyHead(heads: map<Key, Head>, records: map<Id, Record>, k: Key, h: Head)
    ensures Only(k, heads, records, heads[k := h], records)
  {
    hide Segments, SegmentAt;
  }

  lemma {:induction false} OnlySegment(heads: map<Key, Head>, records: map<Id, Record>, k: Key, n: nat, ids: seq<Id>)
    requires Bounded(heads) && n < TICKS
    ensures Only(k, heads, records, heads, records[SegmentId(k, n) := Segment(ids)])
  {
    hide Segments, SegmentAt, SegmentId;
    var now := records[SegmentId(k, n) := Segment(ids)];
    forall l: Key | l != k ensures Contents(heads, now, l) == Contents(heads, records, l) {
      SegmentsFrame(records, k, n, ids, l, HeadOf(heads, l).sealed);
    }
    SegmentIdsDiffer(k, n, k, n);
  }

  lemma {:induction false} OnlyThen(k: Key, heads0: map<Key, Head>, records0: map<Id, Record>, heads1: map<Key, Head>,
                                    records1: map<Id, Record>, heads2: map<Key, Head>, records2: map<Id, Record>)
    requires Only(k, heads0, records0, heads1, records1) && Only(k, heads1, records1, heads2, records2)
    ensures Only(k, heads0, records0, heads2, records2)
  {
    hide Contents;
  }

  /** First place of `id` in a list, or its length. */
  method Position(s: seq<Id>, id: Id) returns (i: nat)
    ensures i <= |s| && id !in s[..i] && (i < |s| ==> s[i] == id)
  {
    i := 0;
    while i < |s| && s[i] != id
      invariant i <= |s| && id !in s[..i]
    {
      i := i + 1;
    }
  }

  class DataFile {
    var heads: map<Key, Head>
    var records: map<Id, Record>

    ghost predicate Valid()
      reads this
    {
      Bounded(heads)
    }

    constructor ()
      ensures Valid() && heads == map[] && records == map[]
    {
      heads, records := map[], map[];
    }

    method WriteSegment(k: Key, n: nat, ids: seq<Id>)
      modifies `records
      ensures records == old(records)[SegmentId(k, n) := Segment(ids)]
    {
      records := records[SegmentId(k, n) := Segment(ids)];
    }

    method WriteHead(k: Key, head: Head)
      modifies `heads
      ensures heads == old(heads)[k := head]
    {
      heads := heads[k := head];
    }

    /** Append to the live list, sealing the open segment when it is full. */
    method LiveAppend(k: Key, id: Id)
      requires Valid() && HeadOf(heads, k).sealed + 1 < TICKS
      modifies this
      ensures Valid()
      ensures Contents(heads, records, k) == old(Contents(heads, records, k)) + [id]
      ensures HeadOf(heads, k).sealed == old(HeadOf(heads, k).sealed) + if old(|HeadOf(heads, k).open|) + 1 == SEGMENT_CAP then 1 else 0
      ensures Only(k, old(heads), old(records), heads, records)
    {
      hide Segments, SegmentAt, SegmentId, Only;
      var head := HeadOf(heads, k);
      head := head.(open := head.open + [id]);
      if |head.open| >= SEGMENT_CAP {
        OnlySegment(heads, records, k, head.sealed, head.open);
        SegmentsPut(records, k, head.sealed, head.open, head.sealed + 1);
        assert Between(records, k, head.sealed + 1, head.sealed + 1) == [];
        WriteSegment(k, head.sealed, head.open);
        head := Head(head.sealed + 1, []);
      } else {
        OnlyRefl(k, heads, records);
      }
      OnlyHead(heads, records, k, head);
      OnlyThen(k, old(heads), old(records), heads, records, heads[k := head], records);
      WriteHead(k, head);
    }

    /** Replace the whole list by one id. */
    method LiveSetSingle(k: Key, id: Id)
      requires Valid()
      modifies this
      ensures Valid()
      ensures Contents(heads, records, k) == [id]
      ensures Only(k, old(heads), old(records), heads, records)
    {
      OnlyHead(heads, records, k, Head(0, [id]));
      WriteHead(k, Head(0, [id]));
    }

    /** Take one occurrence of `id` out of the list, if it has one: the first in the newest part that has it. */
    method LiveRemove(k: Key, id: Id) returns (found: bool)
      requires Valid()
      modifies this
      ensures Valid()
      ensures found == (id in old(Contents(heads, records, k)))
      ensures found ==> OneTaken(old(Contents(heads, records, k)), id, Contents(heads, records, k))
      ensures found ==> TakenFromNewest(old(heads), old(records), k, id, Contents(heads, records, k))
      ensures !found ==> unchanged(this)
      ensures HeadOf(heads, k).sealed == old(HeadOf(heads, k).sealed)
      ensures Only(k, old(heads), old(records), heads, records)
    {
      hide Segments, SegmentId, Only, OneTaken, TakenFromNewest, FirstInNewest;
      var head := HeadOf(heads, k);
      var pos := Position(head.open, id);
      if pos < |head.open| {
        var open := head.open[..pos] + head.open[pos + 1..];
        TakenFromOpen(heads, records, k, id, pos);
        OnlyHead(heads, records, k, Head(head.sealed, open));
        WriteHead(k, Head(head.sealed, open));
        return true;
      }
      assert head.open[..pos] == head.open;
      var seg: nat := head.sealed;
      while seg > 0
        invariant seg <= head.sealed && unchanged(this)
        invariant forall m :: seg <= m < head.sealed ==> id !in SegmentAt(records, k, m)
      {
        seg := seg - 1;
        var ids := SegmentAt(records, k, seg);
        pos := Position(ids, id);
        if pos < |ids| {
          var left := ids[..pos] + ids[pos + 1..];
          TakenFromSegment(heads, records, k, id, seg, pos);
          OnlySegment(heads, records, k, seg, left);
          WriteSegment(k, seg, left);
          return true;
        }
        assert ids[..pos] == ids;
      }
      NotInSegments(records, k, id, head.sealed);
      OnlyRefl(k, heads, records);
      return false;
    }

    /** The full list, oldest first. */
    method LiveIds(k: Key) returns (out: seq<Id>)
      ensures out == Contents(heads, records, k)
    {
      var head := HeadOf(heads, k);
      out := [];
      var seg := 0;
      while seg < head.sealed
        invariant seg <= head.sealed && out == Segments(records, k, seg)
      {
        out := out + SegmentAt(records, k, seg);
        seg := seg + 1;
      }
      out := out + head.open;
    }

    /** Make the list the sorted, duplicate-free union of what it holds and `replayed`. */
    method LiveRebuild(k: Key, replayed: seq<Id>)
      requires Valid() && |Contents(heads, records, k)| + |replayed| < TICKS
      modifies this
      ensures Valid()
      ensures Contents(heads, records, k) == SortedUnion(old(Contents(heads, records, k)) + replayed)
      ensures HeadOf(heads, k).sealed == |Contents(heads, records, k)| / SEGMENT_CAP
      ensures Only(k, old(heads), old(records), heads, records)
    {
      hide Segments, SegmentAt, SegmentId, Only, Contents, Sort, Dedup;
      var ids := LiveIds(k);
      ids := SortedUnion(ids + replayed);
      assert |ids| < TICKS by { UnionShorter(old(Contents(heads, records, k)) + replayed); }
      var sealed, at := 0, 0;
      OnlyRefl(k, heads, records);
      assert Segments(records, k, 0) == [] by { NoSegments(records, k); }
      while |ids| - at >= SEGMENT_CAP
        invariant at == sealed * SEGMENT_CAP <= |ids| && heads == old(heads)
        invariant Segments(records, k, sealed) == ids[..at]
        invariant Only(k, old(heads), old(records), heads, records)
      {
        var chunk := ids[at..at + SEGMENT_CAP];
        OnlySegment(heads, records, k, sealed, chunk);
        ghost var now := records[SegmentId(k, sealed) := Segment(chunk)];
        OnlyThen(k, old(heads), old(records), heads, records, heads, now);
        SegmentsPut(records, k, sealed, chunk, sealed + 1);
        assert Between(records, k, sealed + 1, sealed + 1) == [];
        assert ids[..at] + chunk == ids[..at + SEGMENT_CAP];
        WriteSegment(k, sealed, chunk);
        sealed, at := sealed + 1, at + SEGMENT_CAP;
      }
      OnlyHead(heads, records, k, Head(sealed, ids[at..]));
      OnlyThen(k, old(heads), old(records), heads, records, heads[k := Head(sealed, ids[at..])], records);
      assert ids[..at] + ids[at..] == ids;
      WriteHead(k, Head(sealed, ids[at..]));
      HeadedContents(heads, records, k, sealed, ids[at..]);
    }
  }

  lemma {:induction false} NoSegments(records: map<Id, Record>, k: Key)
    ensures Segments(records, k, 0) == []
  {
  }

  lemma {:induction false} HeadedContents(heads: map<Key, Head>, records: map<Id, Record>, k: Key, sealed: nat, open: seq<Id>)
    requires k in heads && heads[k] == Head(sealed, open)
    ensures Contents(heads, records, k) == Segments(records, k, sealed) + open
  {
  }

  lemma {:induction false} OnlyRefl(k: Key, heads: map<Key, Head>, records: map<Id, Record>)
    ensures Only(k, heads, records, heads, records)
  {
  }
}
