/** Content-addressed storage: heap anchors by hash over the block heap, as one map of values and owner sets. */
module Dedup {
  import opened Bytes
  import opened Ids
  import opened Wrappers
  import opened HeapLayout
  import opened HeapFile

  /** The compressor and the content hash. Nothing is asked of the hash. */
  datatype Codec = Codec(compress: seq<Byte> -> seq<Byte>, decompress: seq<Byte> -> seq<Byte>, hash: seq<Byte> -> nat) {
    ghost predicate Lossless() {
      forall v :: decompress(compress(v)) == v
    }
  }

  datatype Placement = Inline(bytes: seq<Byte>) | InHeap(contentHash: nat, block: nat)

  datatype StoreError = Collision

  datatype StoreResult<+T> = Done(value: T) | Failed(error: StoreError)

  // ----- The store as a map -----

  /** One stored value and the records that use it. */
  datatype Stored = Stored(value: seq<Byte>, owners: set<Id>)

  type Store = map<nat, Stored>

  /** Storing `value` for `owner`: small values stay inline, a clash of hashes is refused, equal values are shared. */
  function StoreSpec(codec: Codec, maxInline: nat, store: Store, value: seq<Byte>, owner: Id): Store {
    var c := codec.compress(value);
    var h := codec.hash(c);
    if |c| <= maxInline then store
    else if h !in store then store[h := Stored(value, {owner})]
    else if store[h].value != value then store
    else store[h := Stored(value, store[h].owners + {owner})]
  }

  function ReleaseSpec(store: Store, h: nat, owner: Id): Store {
    if h !in store then store
    else
      var left := store[h].owners - {owner};
      if left == {} then store - {h} else store[h := Stored(store[h].value, left)]
  }

  // ----- How the heap and the anchors hold it -----

  function OwnerSet(owners: seq<Id>): set<Id> {
    set o <- owners
  }

  /** Every anchor names a live block holding bytes with that hash, and every live block is the one its hash names. */
  ghost predicate Linked(codec: Codec, anchors: map<nat, nat>, live: map<nat, Entry>) {
    && (forall h <- anchors :: anchors[h] in live)
    && (forall b <- live ::
          var h := codec.hash(live[b].value);
          && h in anchors && anchors[h] == b
          && codec.compress(codec.decompress(live[b].value)) == live[b].value
          && live[b].owners != [])
    && (forall h <- anchors :: codec.hash(live[anchors[h]].value) == h)
  }

  ghost function Abstract(codec: Codec, anchors: map<nat, nat>, live: map<nat, Entry>): Store
    requires Linked(codec, anchors, live)
  {
    map h | h in anchors :: Stored(codec.decompress(live[anchors[h]].value), OwnerSet(live[anchors[h]].owners))
  }

  lemma {:induction false} LinkedNew(codec: Codec, anchors: map<nat, nat>, live: map<nat, Entry>,
                                     b: nat, value: seq<Byte>, owner: Id, extent: nat)
    requires Linked(codec, anchors, live) && codec.Lossless() && b !in live
    requires codec.hash(codec.compress(value)) !in anchors
    ensures var c := codec.compress(value);
            var h := codec.hash(c);
            && Linked(codec, anchors[h := b], live[b := Entry(c, [owner], extent)])
            && Abstract(codec, anchors[h := b], live[b := Entry(c, [owner], extent)])
            == Abstract(codec, anchors, live)[h := Stored(value, {owner})]
  {
    assert OwnerSet([owner]) == {owner};
  }

  /** An entry whose owner list changed, at its old block or at a new one. */
  lemma {:induction false} LinkedMove(codec: Codec, anchors: map<nat, nat>, live: map<nat, Entry>,
                                      h: nat, b: nat, e: Entry)
    requires Linked(codec, anchors, live) && h in anchors
    requires b == anchors[h] || b !in live
    requires e.value == live[anchors[h]].value && e.owners != []
    ensures var now := (live - {anchors[h]})[b := e];
            && Linked(codec, anchors[h := b], now)
            && Abstract(codec, anchors[h := b], now)
            == Abstract(codec, anchors, live)[h := Stored(codec.decompress(e.value), OwnerSet(e.owners))]
  {
  }

  lemma {:induction false} LinkedDrop(codec: Codec, anchors: map<nat, nat>, live: map<nat, Entry>, h: nat)
    requires Linked(codec, anchors, live) && h in anchors
    ensures Linked(codec, anchors - {h}, live - {anchors[h]})
    ensures Abstract(codec, anchors - {h}, live - {anchors[h]}) == Abstract(codec, anchors, live) - {h}
  {
  }

  /** The heap anchors of the data file. */
  class AnchorFile {
    var anchors: map<nat, nat>

    constructor ()
      ensures anchors == map[]
    {
      anchors := map[];
    }

    method ReadHeapAnchor(h: nat) returns (r: Option<nat>)
      ensures r == if h in anchors then Some(anchors[h]) else None
    {
      if h in anchors { return Some(anchors[h]); }
      return None;
    }

    method WriteHeapAnchor(h: nat, block: nat)
      modifies this
      ensures anchors == old(anchors)[h := block]
    {
      anchors := anchors[h := block];
    }

    method ClearHeapAnchor(h: nat)
      modifies this
      ensures anchors == old(anchors) - {h}
    {
      anchors := anchors - {h};
    }
  }

  ghost predicate Ready(codec: Codec, data: AnchorFile, heap: HeapFile)
    reads data, heap
  {
    heap.Valid() && codec.Lossless() && Linked(codec, data.anchors, heap.live)
  }

  /** Store a value for an owner; equal values share one entry. */
  method DedupStore(codec: Codec, maxInline: nat, data: AnchorFile, heap: HeapFile, value: seq<Byte>, owner: Id)
    returns (r: StoreResult<Placement>)
    requires Ready(codec, data, heap) && owner < Pow256(16)
    requires 2 * |heap.buffer| + |codec.compress(value)| + 2 * BLOCK < HEAP_LIMIT
    modifies data, heap
    ensures Ready(codec, data, heap)
    ensures var before := old(Abstract(codec, data.anchors, heap.live));
            var c := codec.compress(value);
            var h := codec.hash(c);
            && Abstract(codec, data.anchors, heap.live) == StoreSpec(codec, maxInline, before, value, owner)
            && (if |c| <= maxInline then r == Done(Inline(c))
                else if h in before && before[h].value != value then r == Failed(Collision)
                else h in data.anchors && r == Done(InHeap(h, data.anchors[h])))
            && (r.Failed? || r.value.Inline? ==> unchanged(data) && unchanged(heap))
  {
    hide Sound, Linked, Pow256;
    var compressed := codec.compress(value);
    if |compressed| <= maxInline {
      return Done(Inline(compressed));
    }
    var h := codec.hash(compressed);
    var anchor := data.ReadHeapAnchor(h);
    if anchor.Some? {
      r := StoreHit(codec, data, heap, value, compressed, h, anchor.value, owner);
      return;
    }
    var block := heap.AppendEntry(compressed, owner);
    LinkedNew(codec, data.anchors, old(heap.live), block, value, owner, BlocksFor(Used(compressed, 1)));
    data.WriteHeapAnchor(h, block);
    r := Done(InHeap(h, block));
  }

  /** The hash is known: check the bytes, add the owner, follow the entry if it moved. */
  method StoreHit(codec: Codec, data: AnchorFile, heap: HeapFile, value: seq<Byte>, compressed: seq<Byte>,
                  h: nat, block: nat, owner: Id)
    returns (r: StoreResult<Placement>)
    requires Ready(codec, data, heap) && owner < Pow256(16)
    requires compressed == codec.compress(value) && h == codec.hash(compressed)
    requires h in data.anchors && data.anchors[h] == block
    requires 2 * |heap.buffer| + 2 * BLOCK < HEAP_LIMIT
    modifies data, heap
    ensures Ready(codec, data, heap)
    ensures var before := old(Abstract(codec, data.anchors, heap.live));
            var after := Abstract(codec, data.anchors, heap.live);
            && h in before && h in data.anchors
            && (if before[h].value != value then r == Failed(Collision) && unchanged(data) && unchanged(heap)
                else && r == Done(InHeap(h, data.anchors[h]))
                     && after == before[h := Stored(value, before[h].owners + {owner})])
  {
    hide Sound, Pow256, EntryOf, BlocksFor, OwnerSet, Layout, Stands;
    ghost var was := heap.live[block];
    SoundAt(heap.buffer, heap.live, heap.dead, block);
    var stored := heap.ReadValue(block);
    if stored.value != compressed {
      return Failed(Collision);
    }
    assert codec.decompress(was.value) == value;
    var moved := heap.AddOwner(block, owner);
    if moved.value.Some? {
      var newBlock := moved.value.value;
      LinkedMove(codec, data.anchors, old(heap.live), h, newBlock, heap.live[newBlock]);
      OwnerSetAdd(was.owners, owner);
      data.WriteHeapAnchor(h, newBlock);
      return Done(InHeap(h, newBlock));
    }
    LinkedMove(codec, data.anchors, old(heap.live), h, block, heap.live[block]);
    OwnerSetAdd(was.owners, owner);
    assert (old(heap.live) - {block})[block := heap.live[block]] == heap.live;
    assert data.anchors[h := block] == data.anchors;
    return Done(InHeap(h, block));
  }

  lemma {:induction false} OwnerSetAdd(owners: seq<Id>, o: Id)
    ensures OwnerSet(owners + [o]) == OwnerSet(owners) + {o}
    ensures o in owners ==> OwnerSet(owners) == OwnerSet(owners) + {o}
  {
  }

  /** Read a value back through its hash. */
  method DedupRead(codec: Codec, data: AnchorFile, heap: HeapFile, h: nat) returns (r: StoreResult<Option<seq<Byte>>>)
    requires Ready(codec, data, heap)
    ensures var store := Abstract(codec, data.anchors, heap.live);
            r == Done(if h in store then Some(store[h].value) else None)
  {
    hide Sound, EntryOf;
    var anchor := data.ReadHeapAnchor(h);
    if anchor.None? {
      return Done(None);
    }
    var stored := heap.ReadValue(anchor.value);
    return Done(Some(codec.decompress(stored.value)));
  }

  /** Give up one owner's claim; true when the entry died with it. */
  method ReleaseOwner(codec: Codec, data: AnchorFile, heap: HeapFile, h: nat, owner: Id) returns (r: StoreResult<bool>)
    requires Ready(codec, data, heap) && owner < Pow256(16)
    modifies data, heap
    ensures Ready(codec, data, heap)
    ensures var before := old(Abstract(codec, data.anchors, heap.live));
            var after := Abstract(codec, data.anchors, heap.live);
            && after == ReleaseSpec(before, h, owner)
            && r == Done(h in before && h !in after)
  {
    hide Sound, Pow256, EntryOf, BlocksFor, SwapRemove;
    var anchor := data.ReadHeapAnchor(h);
    if anchor.None? {
      return Done(false);
    }
    var block := anchor.value;
    ghost var was := heap.live[block];
    SoundAt(heap.buffer, heap.live, heap.dead, block);
    var dead := heap.RemoveOwner(block, owner);
    if dead.value {
      LinkedDrop(codec, data.anchors, old(heap.live), h);
      OnlyOwner(was.owners, owner);
      data.ClearHeapAnchor(h);
      return Done(true);
    }
    if owner in was.owners {
      var i :| 0 <= i < |was.owners| && was.owners[i] == owner
            && heap.live == old(heap.live)[block := was.(owners := SwapRemove(was.owners, i))];
      OwnerSetDrop(was.owners, i);
    } else {
      OwnerSetAbsent(was.owners, owner);
    }
    LinkedMove(codec, data.anchors, old(heap.live), h, block, heap.live[block]);
    assert (old(heap.live) - {block})[block := heap.live[block]] == heap.live;
    assert data.anchors[h := block] == data.anchors;
    return Done(false);
  }

  lemma {:induction false} OnlyOwner(owners: seq<Id>, o: Id)
    requires o in owners && |owners| == 1
    ensures OwnerSet(owners) == {o}
  {
  }

  lemma {:induction false} OwnerSetAbsent(owners: seq<Id>, o: Id)
    requires o !in owners && owners != []
    ensures OwnerSet(owners) - {o} == OwnerSet(owners) != {}
  {
    assert owners[0] in OwnerSet(owners);
  }

  lemma {:induction false} OwnerSetDrop(owners: seq<Id>, i: nat)
    requires ValidOwners(owners) && i < |owners| && |owners| > 1
    ensures OwnerSet(SwapRemove(owners, i)) == OwnerSet(owners) - {owners[i]} != {}
  {
    hide SwapRemove, ValidOwners;
    var r := SwapRemove(owners, i);
    forall o ensures o in r <==> o in owners && o != owners[i] {
      SwapRemoveDrops(owners, i, o);
    }
    assert r[0] in OwnerSet(r);
  }

  // ----- Whole runs -----

  datatype Op = Put(value: seq<Byte>, owner: Id) | Release(h: nat, owner: Id)

  function Step(codec: Codec, maxInline: nat, store: Store, op: Op): Store {
    match op
    case Put(value, owner) => StoreSpec(codec, maxInline, store, value, owner)
    case Release(h, owner) => ReleaseSpec(store, h, owner)
  }

  function Run(codec: Codec, maxInline: nat, ops: seq<Op>): Store {
    if ops == [] then map[] else Step(codec, maxInline, Run(codec, maxInline, ops[..|ops| - 1]), ops[|ops| - 1])
  }

  /** Hash of a value that goes to the heap. */
  predicate Kept(codec: Codec, maxInline: nat, value: seq<Byte>, h: nat) {
    |codec.compress(value)| > maxInline && codec.hash(codec.compress(value)) == h
  }

  /** The last operation on this hash by this owner is a store. */
  predicate Claims(codec: Codec, maxInline: nat, ops: seq<Op>, h: nat, owner: Id) {
    if ops == [] then false
    else
      match ops[|ops| - 1]
      case Put(value, o) => (o == owner && Kept(codec, maxInline, value, h)) || Claims(codec, maxInline, ops[..|ops| - 1], h, owner)
      case Release(k, o) => (k != h || o != owner) && Claims(codec, maxInline, ops[..|ops| - 1], h, owner)
  }

  /** No two of the values stored share a hash. */
  ghost predicate NoClash(codec: Codec, ops: seq<Op>) {
    forall i, j :: 0 <= i < |ops| && 0 <= j < |ops| && ops[i].Put? && ops[j].Put?
        && codec.hash(codec.compress(ops[i].value)) == codec.hash(codec.compress(ops[j].value))
        ==> ops[i].value == ops[j].value
  }

  /** In every run a value that can be read has an owner and is one that was stored under that hash. */
  lemma {:induction false} ReadableIsOwned(codec: Codec, maxInline: nat, ops: seq<Op>, h: nat)
    requires h in Run(codec, maxInline, ops)
    ensures Run(codec, maxInline, ops)[h].owners != {}
    ensures exists i :: 0 <= i < |ops| && ops[i].Put? && ops[i].value == Run(codec, maxInline, ops)[h].value
                     && Kept(codec, maxInline, ops[i].value, h)
  {
    var init, op := ops[..|ops| - 1], ops[|ops| - 1];
    var before := Run(codec, maxInline, init);
    if h in before {
      ReadableIsOwned(codec, maxInline, init, h);
      var i :| 0 <= i < |init| && init[i].Put? && init[i].value == before[h].value
            && Kept(codec, maxInline, init[i].value, h);
      assert ops[i] == init[i];
    }
    if op.Put? && h == codec.hash(codec.compress(op.value)) {
      assert Run(codec, maxInline, ops)[h].owners != {};
    }
  }

  /** In every run without clashing hashes, the owners of a hash are exactly those whose last operation on it is a store. */
  lemma {:induction false} OwnersAreClaims(codec: Codec, maxInline: nat, ops: seq<Op>, h: nat, owner: Id)
    requires NoClash(codec, ops)
    ensures (h in Run(codec, maxInline, ops) && owner in Run(codec, maxInline, ops)[h].owners)
       <==> Claims(codec, maxInline, ops, h, owner)
  {
    if ops != [] {
      var init, op := ops[..|ops| - 1], ops[|ops| - 1];
      var before := Run(codec, maxInline, init);
      OwnersAreClaims(codec, maxInline, init, h, owner);
      if op.Put? && Kept(codec, maxInline, op.value, h) && h in before {
        ReadableIsOwned(codec, maxInline, init, h);
        var i :| 0 <= i < |init| && init[i].Put? && init[i].value == before[h].value
              && Kept(codec, maxInline, init[i].value, h);
        assert ops[i] == init[i];
      }
    }
  }
}
