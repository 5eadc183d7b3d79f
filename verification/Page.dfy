/** A page: a hash bucket of records stacked in a fixed buffer, with a directory and compaction. */
module Page {
  import opened Bytes
  import opened Ids
  import opened Wrappers
  import opened Lists
  import opened Words

  const HEADER: nat := 20
  /** In-memory size of a directory entry: 16 + 4 + 4 bytes, aligned to 16. */
  const DIR_ENTRY: nat := 32

  datatype DirEntry = DirEntry(id: Id, offset: nat, size: nat)

  /** Entries stand one behind the other between `lo` and `hi`. */
  predicate Stacked(dir: seq<DirEntry>, lo: nat, hi: nat) {
    dir != [] ==>
      && lo <= dir[0].offset && dir[0].offset + dir[0].size <= hi
      && Stacked(dir[1..], dir[0].offset + dir[0].size, hi)
  }

  predicate Named(dir: seq<DirEntry>, id: Id) {
    exists e <- dir :: e.id == id
  }

  /** No id has two entries. */
  predicate Unique(dir: seq<DirEntry>) {
    dir != [] ==> !Named(dir[1..], dir[0].id) && Unique(dir[1..])
  }

  /** The bytes of the first entry for `id`. */
  function Lookup(dir: seq<DirEntry>, buf: seq<Byte>, id: Id): Option<seq<Byte>> {
    if dir == [] then None
    else if dir[0].id == id then
      var e := dir[0];
      if e.offset + e.size <= |buf| then Some(buf[e.offset..e.offset + e.size]) else None
    else Lookup(dir[1..], buf, id)
  }

  /** Bytes of live entries. */
  function Live(dir: seq<DirEntry>): nat {
    if dir == [] then 0 else dir[0].size + Live(dir[1..])
  }

  // ----- Removing -----

  function Retain(dir: seq<DirEntry>, id: Id): seq<DirEntry> {
    if dir == [] then []
    else if dir[0].id == id then Retain(dir[1..], id)
    else [dir[0]] + Retain(dir[1..], id)
  }

  lemma {:induction false} RetainShorter(dir: seq<DirEntry>, id: Id)
    ensures |Retain(dir, id)| <= |dir|
  {
    if dir != [] {
      RetainShorter(dir[1..], id);
    }
  }

  lemma {:induction false} RetainStacked(dir: seq<DirEntry>, id: Id, lo: nat, hi: nat)
    requires Stacked(dir, lo, hi)
    ensures Stacked(Retain(dir, id), lo, hi)
  {
    if dir != [] {
      var end := dir[0].offset + dir[0].size;
      RetainStacked(dir[1..], id, end, hi);
      if dir[0].id == id {
        Lower(Retain(dir[1..], id), end, lo, hi);
      } else {
        assert Retain(dir, id)[1..] == Retain(dir[1..], id);
      }
    }
  }

  lemma {:induction false} Lower(dir: seq<DirEntry>, lo: nat, lower: nat, hi: nat)
    requires Stacked(dir, lo, hi) && lower <= lo
    ensures Stacked(dir, lower, hi)
  {
  }

  lemma {:induction false} RetainNames(dir: seq<DirEntry>, id: Id, k: Id)
    ensures Named(Retain(dir, id), k) <==> Named(dir, k) && k != id
  {
    if dir != [] {
      RetainNames(dir[1..], id, k);
      assert dir == [dir[0]] + dir[1..];
    }
  }

  lemma {:induction false} RetainUnique(dir: seq<DirEntry>, id: Id)
    requires Unique(dir)
    ensures Unique(Retain(dir, id)) && |Retain(dir, id)| <= |dir|
    ensures |Retain(dir, id)| < |dir| <==> Named(dir, id)
  {
    if dir != [] {
      RetainUnique(dir[1..], id);
      RetainNames(dir[1..], id, dir[0].id);
      assert dir == [dir[0]] + dir[1..];
      if dir[0].id != id {
        assert Retain(dir, id)[1..] == Retain(dir[1..], id);
      }
    }
  }

  lemma {:induction false} RetainLookup(dir: seq<DirEntry>, buf: seq<Byte>, id: Id, k: Id)
    ensures Lookup(Retain(dir, id), buf, k) == if k == id then None else Lookup(dir, buf, k)
  {
    if dir != [] {
      RetainLookup(dir[1..], buf, id, k);
      if dir[0].id != id {
        assert Retain(dir, id)[1..] == Retain(dir[1..], id);
      }
    }
  }

  // ----- Inserting -----

  lemma {:induction false} PushStacked(dir: seq<DirEntry>, e: DirEntry, lo: nat, hi: nat, top: nat)
    requires Stacked(dir, lo, hi) && lo <= hi <= e.offset && e.offset + e.size <= top
    ensures Stacked(dir + [e], lo, top)
  {
    if dir == [] {
      assert dir + [e] == [e];
    } else {
      PushStacked(dir[1..], e, dir[0].offset + dir[0].size, hi, top);
      assert (dir + [e])[1..] == dir[1..] + [e];
    }
  }

  lemma {:induction false} PushUnique(dir: seq<DirEntry>, e: DirEntry)
    requires Unique(dir) && !Named(dir, e.id)
    ensures Unique(dir + [e])
  {
    if dir == [] {
      assert (dir + [e])[1..] == [];
    } else {
      assert dir == [dir[0]] + dir[1..];
      assert dir[0] in dir && forall f <- dir[1..] :: f in dir;
      PushUnique(dir[1..], e);
      assert (dir + [e])[1..] == dir[1..] + [e];
    }
  }

  /** Bytes written behind the stack are found under their id, and nothing else changes. */
  lemma {:induction false} PushLookup(dir: seq<DirEntry>, buf: seq<Byte>, lo: nat, hi: nat, id: Id, bytes: seq<Byte>, k: Id)
    requires Stacked(dir, lo, hi) && !Named(dir, id) && hi + |bytes| <= |buf|
    ensures Lookup(dir + [DirEntry(id, hi, |bytes|)], Patch(buf, hi, bytes), k)
         == if k == id then Some(bytes) else Lookup(dir, buf, k)
  {
    var e, now := DirEntry(id, hi, |bytes|), Patch(buf, hi, bytes);
    if dir == [] {
      assert dir + [e] == [e] && [e][1..] == [];
    } else {
      hide Patch;
      assert dir == [dir[0]] + dir[1..];
      assert dir[0] in dir && forall f <- dir[1..] :: f in dir;
      PushLookup(dir[1..], buf, dir[0].offset + dir[0].size, hi, id, bytes, k);
      assert (dir + [e])[1..] == dir[1..] + [e];
      PatchBelow(buf, dir[0].offset, dir[0].size, hi, bytes);
    }
  }

  /** Bytes below a patch stay. */
  lemma {:induction false} PatchBelow(buf: seq<Byte>, o: nat, z: nat, p: nat, bytes: seq<Byte>)
    requires o + z <= p && p + |bytes| <= |buf|
    ensures Patch(buf, p, bytes)[o..o + z] == buf[o..o + z]
  {
    var now := Patch(buf, p, bytes);
    assert |now| == |buf|;
    var a, b := now[o..o + z], buf[o..o + z];
    forall i | 0 <= i < z ensures a[i] == b[i] {
      assert now[o + i] == buf[o + i];
    }
  }

  // ----- Compacting -----

  /** Live bytes, one behind the other. */
  function Packed(dir: seq<DirEntry>, buf: seq<Byte>): seq<Byte>
    requires Stacked(dir, 0, |buf|)
  {
    if dir == [] then []
    else
      var e := dir[0];
      Lower(dir[1..], e.offset + e.size, 0, |buf|);
      buf[e.offset..e.offset + e.size] + Packed(dir[1..], buf)
  }

  /** The directory for live bytes packed from `at` on. */
  function Moved(dir: seq<DirEntry>, at: nat): seq<DirEntry> {
    if dir == [] then [] else [dir[0].(offset := at)] + Moved(dir[1..], at + dir[0].size)
  }

  lemma {:induction false} PackedLength(dir: seq<DirEntry>, buf: seq<Byte>)
    requires Stacked(dir, 0, |buf|)
    ensures |Packed(dir, buf)| == Live(dir)
  {
    if dir != [] {
      Lower(dir[1..], dir[0].offset + dir[0].size, 0, |buf|);
      PackedLength(dir[1..], buf);
    }
  }

  lemma {:induction false} LiveFits(dir: seq<DirEntry>, lo: nat, hi: nat)
    requires Stacked(dir, lo, hi) && lo <= hi
    ensures lo + Live(dir) <= hi
  {
    if dir != [] {
      LiveFits(dir[1..], dir[0].offset + dir[0].size, hi);
    }
  }

  lemma {:induction false} MovedShape(dir: seq<DirEntry>, at: nat, k: Id)
    ensures |Moved(dir, at)| == |dir| && Live(Moved(dir, at)) == Live(dir)
    ensures Stacked(Moved(dir, at), at, at + Live(dir))
    ensures Named(Moved(dir, at), k) <==> Named(dir, k)
    ensures Unique(dir) ==> Unique(Moved(dir, at))
  {
    if dir != [] {
      var e, rest := dir[0], dir[1..];
      MovedShape(rest, at + e.size, k);
      MovedShape(rest, at + e.size, e.id);
      var m := Moved(dir, at);
      assert m[1..] == Moved(rest, at + e.size) && dir == [e] + rest;
      Raise(m[1..], at + e.size, at + e.size + Live(rest), at + Live(dir));
    }
  }

  lemma {:induction false} Raise(dir: seq<DirEntry>, lo: nat, hi: nat, top: nat)
    requires Stacked(dir, lo, hi) && hi <= top
    ensures Stacked(dir, lo, top)
  {
    if dir != [] {
      Raise(dir[1..], dir[0].offset + dir[0].size, hi, top);
    }
  }

  /** Packing changes no lookup. */
  lemma {:induction false} MovedLookup(dir: seq<DirEntry>, buf: seq<Byte>, at: nat, now: seq<Byte>, k: Id)
    requires Stacked(dir, 0, |buf|) && At(now, at, Packed(dir, buf))
    ensures Lookup(Moved(dir, at), now, k) == Lookup(dir, buf, k)
  {
    if dir != [] {
      var e, rest := dir[0], dir[1..];
      var mine := buf[e.offset..e.offset + e.size];
      Lower(rest, e.offset + e.size, 0, |buf|);
      AtConcat(now, at, mine, Packed(rest, buf));
      MovedLookup(rest, buf, at + e.size, now, k);
      assert Moved(dir, at)[1..] == Moved(rest, at + e.size);
      Lookup1(dir, buf, k);
    }
  }

  lemma {:induction false} Lookup1(dir: seq<DirEntry>, buf: seq<Byte>, k: Id)
    requires dir != [] && dir[0].offset + dir[0].size <= |buf|
    ensures Lookup(dir, buf, k)
         == if dir[0].id == k then Some(buf[dir[0].offset..dir[0].offset + dir[0].size]) else Lookup(dir[1..], buf, k)
  {
  }

  // ----- The page -----

  /** Entries in bounds and in order, none twice, and a count that agrees. */
  ghost predicate Sound(dir: seq<DirEntry>, buf: seq<Byte>, stack: nat, heap: nat, count: nat) {
    && |buf| == heap
    && HEADER <= stack && (stack <= heap || (stack == HEADER && dir == []))
    && Stacked(dir, HEADER, stack)
    && Unique(dir)
    && count == |dir|
  }

  /** Every lookup is as before, except that `id` now gives `value`. */
  ghost predicate Changed(dir0: seq<DirEntry>, buf0: seq<Byte>, dir: seq<DirEntry>, buf: seq<Byte>, id: Id, value: Option<seq<Byte>>) {
    forall k: Id :: Lookup(dir, buf, k) == if k == id then value else Lookup(dir0, buf0, k)
  }

  datatype Outcome = Stored | Full | Panic

  /**
   * What an upsert does to a page whose other entries are `rest`, with the stack ending at `stack`. The capacity left
   * when `rest` and one entry more stand in the directory is computed by subtraction. Below zero that panics with
   * overflow checks; without them it wraps to more than any record needs, and the page is compacted and tried again.
   */
  function UpsertOutcome(checks: bool, rest: seq<DirEntry>, stack: nat, heap: nat, size: nat): Outcome {
    if stack + DIR_ENTRY + size <= heap then Stored
    else if heap < HEADER + (|rest| + 1) * DIR_ENTRY then
      if checks || heap < HEADER then Panic
      else if HEADER + Live(rest) + DIR_ENTRY + size <= heap then Stored else Full
    else if HEADER + (|rest| + 1) * DIR_ENTRY + Live(rest) + size <= heap then Stored
    else Full
  }

  /** Header, directory with an entry for the new record, the other records and the new one are no more than the page. */
  predicate RoomFor(rest: seq<DirEntry>, heap: nat, size: nat) {
    HEADER + (|rest| + 1) * DIR_ENTRY + Live(rest) + size <= heap
  }

  /**
   An upsert stores the record whenever it and the live ones fit the page, however much dead space there is, and refuses
   or panics only if they do not. It stores one that does not fit only behind the stack, where the directory is not counted.
   */
  lemma {:induction false} StoresWhatFits(checks: bool, rest: seq<DirEntry>, stack: nat, heap: nat, size: nat)
    requires HEADER + Live(rest) <= stack
    ensures RoomFor(rest, heap, size) ==> UpsertOutcome(checks, rest, stack, heap, size) == Stored
    ensures checks && UpsertOutcome(checks, rest, stack, heap, size) == Stored ==> RoomFor(rest, heap, size) || stack + DIR_ENTRY + size <= heap
    ensures UpsertOutcome(checks, rest, stack, heap, size) == Stored ==> HEADER + Live(rest) + DIR_ENTRY + size <= heap
  {
  }

  class Page {
    const data: array<Byte>
    var directory: seq<DirEntry>
    var entryCount: nat
    var stackOffset: nat
    const heapOffset: nat

    ghost predicate Valid()
      reads this, data
    {
      Sound(directory, data[..], stackOffset, heapOffset, entryCount) && heapOffset < U32_LIMIT
    }

    constructor (pageSize: nat)
      requires pageSize < U32_LIMIT
      ensures Valid() && fresh(data) && heapOffset == pageSize && stackOffset == HEADER && directory == []
    {
      data := new Byte[pageSize](i => 0);
      directory, entryCount, stackOffset, heapOffset := [], 0, HEADER, pageSize;
    }

    /** Put an object behind the stack, if it and a directory entry fit. */
    method Insert(id: Id, bytes: seq<Byte>) returns (ok: bool)
      requires Valid() && !Named(directory, id) && DIR_ENTRY + |bytes| < U32_LIMIT
      modifies this, data
      ensures Valid()
      ensures ok == (old(stackOffset) + DIR_ENTRY + |bytes| <= heapOffset)
      ensures ok ==> directory == old(directory) + [DirEntry(id, old(stackOffset), |bytes|)]
      ensures ok ==> stackOffset == old(stackOffset) + |bytes|
      ensures ok ==> Changed(old(directory), old(data[..]), directory, data[..], id, Some(bytes))
      ensures !ok ==> unchanged(this) && data[..] == old(data[..])
    {
      hide Stacked, Unique, Named, Lookup, Patch;
      var free := if heapOffset >= stackOffset then heapOffset - stackOffset else 0;
      if free < DIR_ENTRY + |bytes| {
        return false;
      }
      ghost var dir0, buf0, stack0 := directory, data[..], stackOffset;
      var offset := stackOffset;
      var end := offset + |bytes|;
      CopyIn(offset, bytes);
      PushStacked(directory, DirEntry(id, offset, |bytes|), HEADER, offset, end);
      PushUnique(directory, DirEntry(id, offset, |bytes|));
      forall k: Id ensures Lookup(dir0 + [DirEntry(id, offset, |bytes|)], data[..], k)
                        == if k == id then Some(bytes) else Lookup(dir0, buf0, k)
      {
        PushLookup(dir0, buf0, HEADER, stack0, id, bytes, k);
      }
      directory := directory + [DirEntry(id, offset, |bytes|)];
      stackOffset := end;
      entryCount := entryCount + 1;
      return true;
    }

    /** `copy_from_slice` at `p`. */
    method CopyIn(p: nat, bytes: seq<Byte>)
      requires p + |bytes| <= data.Length
      modifies data
      ensures data[..] == Patch(old(data[..]), p, bytes)
    {
      forall i | p <= i < p + |bytes| {
        data[i] := bytes[i - p];
      }
    }

    /** Drop the entry of `id`; its bytes stay as dead space. */
    method Remove(id: Id) returns (removed: bool)
      requires Valid()
      modifies this
      ensures Valid() && removed == Named(old(directory), id)
      ensures directory == Retain(old(directory), id) && stackOffset == old(stackOffset)
      ensures !Named(directory, id)
      ensures Changed(old(directory), old(data[..]), directory, data[..], id, None)
    {
      hide Stacked, Unique, Named, Lookup, Retain;
      RetainStacked(directory, id, HEADER, stackOffset);
      RetainUnique(directory, id);
      RetainNames(directory, id, id);
      forall k: Id ensures Lookup(Retain(directory, id), data[..], k)
                        == if k == id then None else Lookup(directory, data[..], k)
      {
        RetainLookup(directory, data[..], id, k);
      }
      NothingRetained(id);
      var before := |directory|;
      directory := Retain(directory, id);
      removed := |directory| < before;
      if removed {
        entryCount := |directory|;
      }
    }

    /** Pack the live entries from the header on, and zero the rest. */
    method Compact()
      requires Valid() && HEADER <= heapOffset
      modifies this, data
      ensures Valid() && stackOffset == HEADER + Live(directory)
      ensures |directory| == |old(directory)| && Live(directory) == Live(old(directory))
      ensures forall k: Id :: Lookup(directory, data[..], k) == Lookup(old(directory), old(data[..]), k)
      ensures forall k: Id :: Named(directory, k) <==> Named(old(directory), k)
    {
      hide Stacked, Unique, Named, Lookup, Packed, Moved, Live, At, Patch;
      ghost var dir0, buf0 := directory, data[..];
      InBuffer(dir0, stackOffset, |buf0|);
      LiveFits(dir0, HEADER, stackOffset);
      PackedLength(dir0, buf0);
      var packed, moved := PackAll();
      var end := HEADER + |packed|;
      CopyIn(HEADER, packed);
      PatchedAt(buf0, HEADER, packed);
      ghost var buf1 := data[..];
      ZeroFrom(end);
      PatchBeside(buf1, end, Zeros(|buf1| - end), HEADER, packed);
      forall k: Id ensures Lookup(moved, data[..], k) == Lookup(dir0, buf0, k) && (Named(moved, k) <==> Named(dir0, k)) {
        MovedLookup(dir0, buf0, HEADER, data[..], k);
        MovedShape(dir0, HEADER, k);
      }
      MovedShape(dir0, HEADER, 0);
      directory := moved;
      stackOffset := end;
    }

    /** Collect the live bytes and their new offsets. */
    method PackAll() returns (packed: seq<Byte>, moved: seq<DirEntry>)
      requires Stacked(directory, 0, data.Length)
      ensures packed == Packed(directory, data[..]) && moved == Moved(directory, HEADER)
    {
      hide Packed, Moved, Stacked;
      packed, moved := [], [];
      var i := 0;
      assert directory[0..] == directory;
      while i < |directory|
        invariant i <= |directory| && Stacked(directory[i..], 0, data.Length)
        invariant packed + Packed(directory[i..], data[..]) == Packed(directory, data[..])
        invariant moved + Moved(directory[i..], HEADER + |packed|) == Moved(directory, HEADER)
      {
        var entry := directory[i];
        var rest := directory[i..];
        assert rest[1..] == directory[i + 1..] && rest[0] == entry;
        PackStep(rest, data[..], HEADER + |packed|, packed, moved);
        moved := moved + [entry.(offset := HEADER + |packed|)];
        packed := packed + data[entry.offset..entry.offset + entry.size];
        i := i + 1;
      }
      assert directory[i..] == [];
      NothingLeft(data[..], HEADER + |packed|);
    }

    method ZeroFrom(end: nat)
      requires end <= data.Length
      modifies data
      ensures data[..] == Patch(old(data[..]), end, Zeros(data.Length - end))
    {
      CopyIn(end, Zeros(data.Length - end));
    }

    /** Insert or replace. A failed upsert has already dropped the old entry. */
    method Upsert(id: Id, bytes: seq<Byte>, checks: bool) returns (r: Outcome)
      requires Valid() && DIR_ENTRY + |bytes| < U32_LIMIT
      requires (|directory| + 1) * DIR_ENTRY < ALLOCATION_LIMIT
      modifies this, data
      ensures Valid()
      ensures old(stackOffset) + DIR_ENTRY + |bytes| <= heapOffset ==>
                && directory == Retain(old(directory), id) + [DirEntry(id, old(stackOffset), |bytes|)]
                && stackOffset == old(stackOffset) + |bytes|
      ensures r == UpsertOutcome(checks, Retain(old(directory), id), old(stackOffset), heapOffset, |bytes|)
      ensures RoomFor(Retain(old(directory), id), heapOffset, |bytes|) ==> r == Stored
      ensures Changed(old(directory), old(data[..]), directory, data[..], id, if r == Stored then Some(bytes) else None)
    {
      hide Stacked, Unique, Named, Lookup, Retain, Live;
      ghost var dir0, buf0 := directory, data[..];
      RetainShorter(directory, id);
      var removed := Remove(id);
      ghost var dir1, buf1 := directory, data[..];
      var ok := Insert(id, bytes);
      if ok {
        return Stored;
      }
      if checks && heapOffset < HEADER + (|directory| + 1) * DIR_ENTRY {
        return Panic;
      }
      var capacity := (heapOffset - HEADER - (|directory| + 1) * DIR_ENTRY) % WORD;
      LiveFits(directory, HEADER, stackOffset);
      if LiveBytes() + |bytes| > capacity {
        return Full;
      }
      if heapOffset < HEADER {
        return Panic;   // compaction slices past the end of the page
      }
      Compact();
      ok := Insert(id, bytes);
      return if ok then Stored else Full;
    }

    function LiveBytes(): nat
      reads this
    {
      Live(directory)
    }

    /** A removal that drops nothing leaves the directory. */
    lemma {:induction false} NothingRetained(id: Id)
      ensures !Named(directory, id) ==> Retain(directory, id) == directory
    {
      RetainAll(directory, id);
    }
  }

  lemma {:induction false} PackStep(dir: seq<DirEntry>, buf: seq<Byte>, at: nat, packed: seq<Byte>, moved: seq<DirEntry>)
    requires dir != [] && Stacked(dir, 0, |buf|)
    ensures var e := dir[0];
            && e.offset + e.size <= |buf| && Stacked(dir[1..], 0, |buf|)
            && packed + Packed(dir, buf) == packed + buf[e.offset..e.offset + e.size] + Packed(dir[1..], buf)
            && moved + Moved(dir, at) == moved + [e.(offset := at)] + Moved(dir[1..], at + e.size)
  {
    hide Packed, Moved, Stacked;
    var e := dir[0];
    FirstPacked(dir, buf, at);
    Assoc(packed, buf[e.offset..e.offset + e.size], Packed(dir[1..], buf));
    Assoc(moved, [e.(offset := at)], Moved(dir[1..], at + e.size));
  }

  lemma {:induction false} FirstPacked(dir: seq<DirEntry>, buf: seq<Byte>, at: nat)
    requires dir != [] && Stacked(dir, 0, |buf|)
    ensures var e := dir[0];
            && e.offset + e.size <= |buf| && Stacked(dir[1..], 0, |buf|)
            && Packed(dir, buf) == buf[e.offset..e.offset + e.size] + Packed(dir[1..], buf)
            && Moved(dir, at) == [e.(offset := at)] + Moved(dir[1..], at + e.size)
  {
    Lower(dir[1..], dir[0].offset + dir[0].size, 0, |buf|);
  }

  lemma {:induction false} NothingLeft(buf: seq<Byte>, at: nat)
    ensures Stacked([], 0, |buf|) && Packed([], buf) == [] && Moved([], at) == []
  {
  }

  /** Four upserts that end in the subtraction below zero: three empty records, then one that does not fit. */
  method UnderflowHappens(checks: bool) returns (r: Outcome)
    ensures r == if checks then Panic else Full
  {
    hide Lookup, Stacked, Unique, Retain;
    var page := new Page(100);
    RetainAll(page.directory, 1);
    var first := page.Upsert(1, [], checks);
    RetainAll(page.directory, 2);
    var second := page.Upsert(2, [], checks);
    RetainAll(page.directory, 3);
    var third := page.Upsert(3, [], checks);
    RetainAll(page.directory, 4);
    r := page.Upsert(4, Zeros(60), checks);
  }

  lemma {:induction false} RetainAll(dir: seq<DirEntry>, id: Id)
    ensures !Named(dir, id) ==> Retain(dir, id) == dir
  {
    if dir != [] {
      RetainAll(dir[1..], id);
      assert dir == [dir[0]] + dir[1..];
      assert dir[0] in dir && forall e <- dir[1..] :: e in dir;
    }
  }

  lemma {:induction false} InBuffer(dir: seq<DirEntry>, stack: nat, size: nat)
    requires Stacked(dir, HEADER, stack) && (stack <= size || dir == [])
    ensures Stacked(dir, 0, size)
  {
    if dir != [] {
      Raise(dir, HEADER, stack, size);
      Lower(dir, HEADER, 0, size);
    }
  }
}
