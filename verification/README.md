# Verified model of WaveDB

WaveDB is a partitioned database written in Rust. This project models its algorithmic cores in Dafny and proves what they promise:

- **Wire format** (`Bytes`, `Utf8`, `Wire*`): the two-section serializer over nested types, its mutable writer and reader cursors,
  exactly which bytes decode to which value, and the conditions under which decoding undoes encoding, ends, and accepts canonical
  bytes only.
- **Queries on raw bytes** (`Descriptor`, `HeapWalk`, `Query*`, `StampId`): generated descriptors, locating fields without decoding,
  evaluating expressions on encoded records, and stamping an id in place.
- **Storage** (`HeapLayout`, `HeapFile`, `Dedup`, `SortedIds`, `LiveTracker`, `Recovery*`, `NodeStorage`, `Page`): the block heap with
  owner lists, content-addressed sharing, the segmented live tracker, journal recovery under crashes, and the page bucket.
- **Cluster** (`Ring*`, `Gossip*`, `History*`): the consistent-hash ring, the gossip flood, and history shipping to the
  Slow-Node.
- **Migration** (`Versions`, `Migration*`): breadth-first resolution of version chains, running them forward and back, and when the
  rollback check tells the truth.
- **Hashing** (`Words`, `Hash`, `HashReach`): the 64-bit mixer, reduction to a page index, the double-hash probe and its fallback page.

Code that changes state is modelled by classes and loops, each method proved against a specification function; protocols with crashes,
losses or concurrency are state machines whose steps are the original's atomic actions, and their theorems quantify over every run.
`NodeStorage` and `HistorySync` tie the imperative code to those machines: every method moves the machine along named steps.

Parameters of the model: the content hash, the compressor (lossless), the ring placement, the comparison of floating-point numbers,
migration functions, and the outcome of every network exchange.

Where the code fails a property one would expect, the failing input is given as a lemma beside the exact condition under which the
property holds: vectors of elements without stack slots (`RoundTrip`, `StallsIffWay`), padding of `None` (`CanonicalIffZeroPadded`),
heap blocks that are neither used nor freed (`LosesIffSpare`), compaction split by client steps (`SplitCompaction` for records,
`SplitCompactionLists` for listings), deletes that are not journalled (`ListedAfterRecovery`), trackers that learn of commits out of
order (`SameListIff`, `SameServedIff`), the capacity subtraction of a page (`Page.UnderflowHappens`), the probe on page counts that are
not powers of two (`ProbeCoversIffPowerOfTwo`), the fallback page on odd page counts (`FallbackHelpsIffEven`), watermarks and counts
after a reopen (`WatermarkSurvivesReopen`, `History.Reopen`), syncs of a tenant that overlap (`DrainMisordersIff`), the rollback check
(`CheckAgreesIff`), and withdrawals overtaken by announcements (`LastArrivalWins`).

Where the documentation and the code disagree, the code is followed. The comment on `double_hash_step` promises a permutation of every
page index; `crates/wavedb-storage/src/file/data.rs:63-70` grows page counts by 1.75, so they are not powers of two, and the promise
fails. `docs/wire_format.md:45` rules `usize` and `isize` out; `crates/wavedb-core/src/wire.rs:409-437` encodes them in eight bytes.

Check the project with `dafny verify dfyconfig.toml`.

## Model

| member | source | states |
|---|---|---|
| Wire.Stack | crates/wavedb-core/src/wire.rs:120-141 | the stack section of a value has exactly the constant size of its type, whatever the value |
| Wire.TakeRegion | crates/wavedb-core/src/wire.rs:326-349 | a region taken for a length slot has that length and stands at the heap cursor, inside the buffer |
| Wire.Read | crates/wavedb-core/src/wire.rs:386-657 | reading never moves the heap cursor back or past the end of its region; the region length is the termination measure for recursive enums. What it returns is stated by `WireAccepts.AcceptsIff` |
| Wire.LeafToNatToLeaf | crates/wavedb-core/src/wire.rs:386-472 | integers, floats, bool, char and field-less enums come back from their little-endian slot, signed ones by two's complement |
| Wire.NatToLeafToNat | crates/wavedb-core/src/wire.rs:386-472 | a slot accepted as a leaf is the slot written for that leaf |
| Bytes.LEDigit | crates/wavedb-core/src/wire.rs:386-405 | byte i of a number is its digit of 256 to the power i |
| Utf8.TextIffScalars | crates/wavedb-core/src/wire.rs:485-490 | with UTF-8 defined by arithmetic on scalar values: bytes are a valid text if and only if they are the forms of some scalar values one after the other, and these are unique |
| Utf8.LeafSlots | crates/wavedb-core/src/wire.rs:386-472 | which slots each leaf accepts, the value of an accepted one, the error for any other; a char slot is good exactly if some text decodes to it |
| WireSizes.FixedHasNoHeap | crates/wavedb-core/src/wire.rs:120-129 | types with `FIXED` never carry heap bytes, through options, arrays and structs |
| WireSizes.VecRegionSize | crates/wavedb-core/src/wire.rs:497-503 | the shortcut for fixed elements gives the same region size as the sum over elements |
| WireSizes.ArrHeapSize | crates/wavedb-core/src/wire.rs:596-602 | the shortcut for arrays of fixed elements gives the same heap size as the sum over elements |
| WireSizes.HeapLength | crates/wavedb-core/src/wire.rs:129-134 | the heap section has exactly `heap_size()` bytes for every type and value |
| WireSizes.EncodingLength | crates/wavedb-core/src/wire.rs:144-161 | an encoding has exactly `STACK_SIZE + heap_size()` bytes, the capacity allocated up front |
| WireSizes.SmallHeapFits | crates/wavedb-core/src/wire.rs:254-259 | if the whole heap section fits 32 bits, so does every region nested in it |
| WireRoundTrip.ReadPlaced | crates/wavedb-core/src/wire.rs:386-657 | wherever an encoded value stands in a buffer, reading at its two cursors returns it and moves the heap cursor behind it |
| WireRoundTrip.UnslottedIsLost | crates/wavedb-core/src/wire.rs:517-553 | a value with a vector of slotless elements is never read back, whatever surrounds it |
| WireRoundTrip.RoundTrip | crates/wavedb-core/src/wire.rs:144-192 | for every type and every value whose regions fit, decoding the encoding returns the value if and only if no vector in it has elements without stack slots |
| WireRoundTrip.RoundTripOfSlottedType | crates/wavedb-core/src/wire.rs:144-192 | for types whose vector elements have stack slots every value that fits comes back, through nested units, padding and both vector paths |
| WireTermination.DecodeEnds | crates/wavedb-core/src/wire.rs:183-224 | for types whose vector elements have stack slots or are fixed, decoding ends on every byte string |
| WireTermination.StallsUnlessEmpty | crates/wavedb-core/src/wire.rs:537-551 | a region of dynamic slotless elements stalls the read loop exactly if it is not empty |
| WireTermination.DecodeStallsIff | crates/wavedb-core/src/wire.rs:517-553 | decoding a vector of dynamic slotless elements stalls if and only if its length slot is there, is not zero and is covered by the bytes |
| WireTermination.FiveBytesStall | crates/wavedb-core/src/wire.rs:517-553 | for every such vector type five given bytes stall the decoder |
| WireStalls.WayBytesStall | crates/wavedb-core/src/wire.rs:183-224 | wherever a way leads into a type, past values that can be read, to such a vector, given bytes stall its decoder |
| WireStalls.StalledRead | crates/wavedb-core/src/wire.rs:386-657 | wherever reading stalls, such a way was taken |
| WireStalls.StallsIffWay | crates/wavedb-core/src/wire.rs:183-224 | some bytes stall the decoder of a type if and only if such a way leads from it |
| WireAccepts.ReadShows | crates/wavedb-core/src/wire.rs:386-657 | at any cursors, what is read is what the bytes show there: numbers in their slots, payloads at the heap cursor in order, elements as units |
| WireAccepts.ShownReads | crates/wavedb-core/src/wire.rs:386-657 | a readable value that the bytes show is read |
| WireAccepts.AcceptsIff | crates/wavedb-core/src/wire.rs:183-224 | for every type, byte string and value: decoding gives that value if and only if it is readable, has the size of the input and is what the bytes show, padding left open |
| WirePrefix.ReadCut | crates/wavedb-core/src/wire.rs:299-381 | on a prefix of its buffer the reader does what it does on the whole, or reports the prefix too short |
| WirePrefix.CutIsShort | crates/wavedb-core/src/wire.rs:823-829 | accepted bytes cut anywhere are refused as too short, with the length they have |
| WirePrefix.MoreIsTrailing | crates/wavedb-core/src/wire.rs:183-192 | accepted bytes with anything behind them are refused with the place where the value ends, so no accepted bytes begin others |
| WireRefusals.BrokenText | crates/wavedb-core/src/wire.rs:485-490 | a text that is not UTF-8 is refused as such |
| WireRefusals.RaggedRegion | crates/wavedb-core/src/wire.rs:517-535 | a region that is no whole number of fixed elements, or whose elements have no slots, is refused with the bytes left over and its length |
| WireRefusals.UnknownTag | crates/wavedb-macros/src/wire_derive.rs:326-340 | a tag without a variant is refused with the tag |
| WireRefusals.PaddedPayload | crates/wavedb-core/src/wire.rs:352-381 | a payload that ends before its region does is refused with both lengths |
| WireExamples.NumberBytes | crates/wavedb-core/src/wire.rs:703-708 | a 32-bit number is its four bytes, the least significant first |
| WireExamples.TextBytes | crates/wavedb-core/src/wire.rs:726-734 | a text is its length and its bytes |
| WireExamples.FixedElementBytes | crates/wavedb-core/src/wire.rs:736-745 | a list of numbers is the length of the region and the numbers back to back |
| WireExamples.OptionBytes | crates/wavedb-core/src/wire.rs:753-760 | an option is a flag and the value, or a flag and as many zeros |
| WireExamples.EnumBytes | crates/wavedb-core/tests/wire_derive.rs:151-165 | a variant with a payload is its tag, the length of the payload and the payload |
| WireExamples.EmptyEnumBytes | crates/wavedb-core/tests/wire_derive.rs:155-156 | a variant without a payload is its tag and the length zero |
| WireExamples.RecordBytes | crates/wavedb-core/tests/wire_derive.rs:62-75 | a record is all slots in order of the fields, then all payloads in the same order |
| WireExamples.UnitBytes | crates/wavedb-core/src/wire.rs:505-515 | elements with payloads stand as units, each with its slots before its payload |
| WireCanonical.ReadSound | crates/wavedb-core/src/wire.rs:299-381 | whatever is read is well typed, fits, and takes exactly the heap bytes it accounts for |
| WireCanonical.DecodeSound | crates/wavedb-core/src/wire.rs:183-192 | on arbitrary bytes an accepted value has the type asked for and the size of the input, and the input is its encoding where padding is checked |
| WireCanonical.CanonicalIffStrict | crates/wavedb-core/src/wire.rs:580-589 | accepted bytes are the encoding of the result if and only if a reader that refuses padding accepts them too |
| WirePadding.StrictRead | crates/wavedb-core/src/wire.rs:580-589 | at any cursors, such a reader refuses exactly the bytes in which the slots behind some `None` are not zero |
| WirePadding.CanonicalIffZeroPadded | crates/wavedb-core/src/wire.rs:580-589 | accepted bytes are the canonical encoding of the result if and only if, following the value through regions and units, the slots behind every `None` are zero |
| WireCanonical.OptionFreeIsCanonical | crates/wavedb-core/src/wire.rs:183-192 | without options every accepted byte string is the one encoding of its value |
| WireCanonical.PaddingIsIgnored | crates/wavedb-core/src/wire.rs:580-585 | two different byte strings decode to the same `None` |
| WireCursors.WireWriter.PutLenSlot | crates/wavedb-core/src/wire.rs:254-259 | a length slot is refused exactly from 2^32 on |
| WireCursors.WireWriter.Write | crates/wavedb-core/src/wire.rs:386-657 | writing at the cursors fills the stack slots and appends the heap bytes of the value, and fails exactly if a region does not fit |
| WireCursors.WireWriter.WriteVec | crates/wavedb-core/src/wire.rs:505-515 | both vector paths write the length slot and the elements as back-to-back units |
| WireCursors.WireWriter.WriteUnit | crates/wavedb-core/src/wire.rs:265-286 | a nested unit is appended whole and the stack cursor is restored |
| WireCursors.WireWriter.WriteEnum | crates/wavedb-macros/src/wire_derive.rs:265-324 | a payload variant writes tag, payload length and one unit |
| WireCursors.ToWire | crates/wavedb-core/src/wire.rs:144-161 | the mutable writer yields exactly the encoding, and fails exactly if a region does not fit |
| WireCursors.WireReader.TakeStack | crates/wavedb-core/src/wire.rs:301-318 | stack bytes are taken from inside the buffer or refused with the cursor unmoved |
| WireCursors.WireReader.TakeHeap | crates/wavedb-core/src/wire.rs:326-343 | heap bytes are taken from inside the buffer or refused with the cursor unmoved |
| WireCursors.WireReader.ReadValue | crates/wavedb-core/src/wire.rs:386-657 | the mutable reader returns what the reading function returns, error for error, and ends at the same cursors |
| WireCursors.WireReader.ReadEnum | crates/wavedb-macros/src/wire_derive.rs:326-340 | tag, region and a payload that must fill its region |
| WireCursors.ReadVecRegion | crates/wavedb-core/src/wire.rs:517-553 | the loops over a vector region return what the reading function returns |
| WireCursors.FromWire | crates/wavedb-core/src/wire.rs:183-224 | `from_wire` is the decoding function on every input, error for error; `AcceptsIff` says which inputs give which value |
| WireCursors.ThereAndBack | crates/wavedb-core/src/wire.rs:144-192 | the whole path over mutable cursors returns the value exactly if its vectors have slotted elements |
| Descriptor.KindIsRight | crates/wavedb-macros/src/descriptor.rs:19-66 | a field whose name is the standard one of its type gets exactly the kind of that type, whatever the path before it; any other option, list, id, anchor or other by its name; and a kind other than id or other says truly what the type is |
| Descriptor.PrimitiveIsNamed | crates/wavedb-macros/src/descriptor.rs:19-66 | a name stands for a primitive type if and only if it is that type's standard name |
| Descriptor.BuildDescriptor | crates/wavedb-macros/src/descriptor.rs:72-122 | the generated descriptor has the prefix sums, sizes, heapable flags and kinds of the declared fields |
| Descriptor.FieldLocated | crates/wavedb-macros/src/descriptor.rs:77-102 | in every encoded record each field stands at its descriptor offset, and its payload behind those of the fields before it |
| HeapWalk.FindHeapBytes | crates/wavedb-core/src/query.rs:547-595 | the forward and the backward loop compute the walk functions |
| HeapWalk.RegionLenIsHeapSize | crates/wavedb-core/src/query.rs:552-558 | the slot of a string or vector field holds the size of its payload |
| HeapWalk.OpaqueIs | crates/wavedb-core/src/query.rs:556-577 | the fields the walk cannot step over are exactly the heapable ones whose type is written neither `String` nor `Vec` |
| HeapWalk.HeapBytesExact | crates/wavedb-core/src/query.rs:547-595 | the walk returns exactly the payload if no opaque heap field precedes the field or none follows it, and otherwise nothing: never other bytes |
| QueryProofs.CmpBytesIsLex | crates/wavedb-core/src/query.rs:501-515 | slice comparison is dictionary order, all three outcomes |
| QueryProofs.ConstantNumeric | crates/wavedb-core/src/query.rs:607-626 | widening a constant to the numeric domain keeps the number |
| QueryProofs.FieldNumeric | crates/wavedb-core/src/query.rs:653-682 | a numeric slot is read as the number the field holds |
| QueryProofs.CompareIsExpected | crates/wavedb-core/src/query.rs:488-529 | comparing raw bytes gives the ordering of the decoded field, or nothing where it cannot be known |
| QueryProofs.EvalIsMeaning | crates/wavedb-core/src/query.rs:451-485 | for every descriptor, record and expression, evaluation on the encoded bytes equals the independent meaning on the decoded record, in which a field means what the type it is declared with holds |
| QueryProofs.UnknowableIsFalse | crates/wavedb-core/src/query.rs:494-498 | a short body or an unknown field matches no comparison, and its negation matches |
| QueryProofs.RawSlots | crates/wavedb-core/src/query.rs:501-522 | on arbitrary bytes: a text field compares exactly with texts and if its payload is UTF-8, a byte field with bytes, and any flag byte but zero is true |
| QueryWire.ExprRoundTrip | crates/wavedb-core/src/query.rs:316-327 | every expression that fits comes back from its bytes, however deep it nests |
| QueryWire.ExprBytesAreCanonical | crates/wavedb-core/src/query.rs:321-327 | on any bytes decoding an expression ends, and bytes that are accepted are the one encoding of it |
| QueryWire.ExprTagFirst | crates/wavedb-core/src/query.rs:130-190 | the bytes of an expression begin with the place of its variant in the declaration |
| QueryWire.ConstantTagFirst | crates/wavedb-core/src/query.rs:31-62 | so do those of a constant |
| StampId.StampIsReencode | crates/wavedb-quick-node/src/node.rs:1234-1256 | for a 128-bit integer field, the special case: patching sixteen bytes in place equals encoding the record again with the new id |
| StampId.StampIsReencodeIff | crates/wavedb-quick-node/src/node.rs:1234-1256 | for a sixteen-byte field of any type, patching equals encoding the record again with some value there if and only if the value's slots are the id's bytes |
| StampId.StampElsewhereIsIdentity | crates/wavedb-quick-node/src/node.rs:1234-1256 | without a descriptor, without a sixteen-byte field named id, or if the record is too short for it, nothing changes |
| HeapLayout.BlocksFor | crates/wavedb-storage/src/heap.rs:118-120 | the least number of blocks that hold the bytes |
| HeapLayout.OwnerPut | crates/wavedb-storage/src/heap.rs:290-295 | count and owner written in place turn an entry into the one with that owner appended |
| HeapFile.EntryOf | crates/wavedb-storage/src/heap.rs:388-421 | a parsed entry lies wholly inside the buffer; otherwise one of three errors |
| HeapFile.ParsesIff | crates/wavedb-storage/src/heap.rs:388-421 | a block parses with a size and a count if and only if these are spelled in their places and all owner slots are in the buffer; which error comes when |
| HeapFile.LiveParses | crates/wavedb-storage/src/heap.rs:388-421 | parsing the block of a live entry gives its own value and owner list |
| HeapFile.SwapRemoveDrops | crates/wavedb-storage/src/heap.rs:317-327 | swap-remove takes out just that owner and leaves the list duplicate-free |
| HeapFile.OwnerDropped | crates/wavedb-storage/src/heap.rs:317-333 | dropping an owner in place disturbs no other entry and leaves this one standing unless it was the last |
| HeapFile.HeapFile.constructor | crates/wavedb-storage/src/heap.rs:154-161 | an empty heap holds no entry and satisfies the invariant |
| HeapFile.HeapFile.AppendEntry | crates/wavedb-storage/src/heap.rs:193-215 | a new aligned entry at the end of the file, which grows by exactly its blocks; everything else as before |
| HeapFile.HeapFile.AppendRelocated | crates/wavedb-storage/src/heap.rs:360-385 | an entry with a full owner list at the end of the file, written by the loop over owners; the file grows by exactly its blocks |
| HeapFile.HeapFile.ReadValue | crates/wavedb-storage/src/heap.rs:218-221 | a live block reads back its value; the error exactly where the entry does not parse |
| HeapFile.HeapFile.Owners | crates/wavedb-storage/src/heap.rs:234-244 | a live block reads back its owner list |
| HeapFile.HeapFile.FindOwner | crates/wavedb-storage/src/heap.rs:258-263 | the first slot that spells the owner, or none |
| HeapFile.HeapFile.Relocate | crates/wavedb-storage/src/heap.rs:278-287 | the entry moves to the end of the file with the owner added; the blocks its bytes took become a freed range and its spare ones are lost |
| HeapFile.HeapFile.AddOwner | crates/wavedb-storage/src/heap.rs:252-297 | the live entries, their extents and the freed ranges after adding an owner: no-op if listed, in place, one block more at the tail, or moved exactly if the list outgrew its blocks elsewhere; entries stay disjoint and freed ranges overlap nothing; the blocks lost are the spare ones of an entry that moves |
| HeapFile.HeapFile.RemoveOwner | crates/wavedb-storage/src/heap.rs:304-334 | the owner leaves the list; the entry dies exactly with its last owner; the blocks its bytes took become a freed range that overlaps nothing, and its spare ones are lost |
| HeapFile.HeapFile.TakeFreed | crates/wavedb-storage/src/heap.rs:338-340 | each freed range is handed over once |
| HeapFile.EachBlockOnce | crates/wavedb-storage/src/heap.rs:252-340 | at any time each block of the file is in exactly one live extent, in exactly one freed range, or lost |
| HeapFile.LosesIffSpare | crates/wavedb-storage/src/heap.rs:266-287 | when an entry moves or dies blocks are lost if and only if its extent is more than the blocks its bytes take |
| HeapFile.SecondBlockIsLost | crates/wavedb-storage/src/heap.rs:329-332 | a value of 4064 bytes and two owners that come and go: one block freed, one lost |
| HeapFile.MovesAwayFromRoom | crates/wavedb-storage/src/heap.rs:266-287 | an entry that moves although its own spare block has room, and loses that block |
| Dedup.LinkedMove | crates/wavedb-storage/src/heap.rs:446-463 | an entry that changed its owners or its block changes just its own hash in the stored map |
| Dedup.DedupStore | crates/wavedb-storage/src/heap.rs:434-471 | storing refines the map hash to value and owners: inline, shared, new, or refused on a clash with no change; the anchor names the current block |
| Dedup.StoreHit | crates/wavedb-storage/src/heap.rs:446-463 | a known hash: bytes compared, owner added, anchor follows a relocation |
| Dedup.DedupRead | crates/wavedb-storage/src/heap.rs:475-484 | a hash reads as its stored value exactly if the map has it |
| Dedup.ReleaseOwner | crates/wavedb-storage/src/heap.rs:491-505 | releasing refines removal from the map; true exactly if the value died |
| Dedup.ReadableIsOwned | crates/wavedb-storage/src/heap.rs:434-505 | in every run a readable value has an owner and was stored under that hash |
| Dedup.OwnersAreClaims | crates/wavedb-storage/src/heap.rs:434-505 | in every run without clashing hashes an owner holds a hash exactly if its last operation on it is a store |
| Ids.Pack | crates/wavedb-core/src/id.rs:75-86 | each part of an id comes back masked to its width |
| Ids.PartsDetermine | crates/wavedb-core/src/id.rs:75-122 | the four parts determine a 128-bit id |
| SortedIds.UnionIsSorted | crates/wavedb-storage/src/live.rs:238-244 | sorting and deduplicating gives each id once, strictly by creation tick and id |
| SortedIds.UnionDependsOnSet | crates/wavedb-storage/src/live.rs:238-244 | the union does not depend on replay order or repetition |
| SortedIds.UnionOfOrdered | crates/wavedb-storage/src/live.rs:238-244 | replaying ids already listed leaves an ordered list as it is |
| SortedIds.UnionByTick | crates/wavedb-storage/src/live.rs:226-254 | of two ids in the union the earlier has the smaller tick, or the same tick and the smaller id |
| LiveTracker.SegmentIdsDiffer | crates/wavedb-storage/src/live.rs:71-73 | segment slots of different trackers and numbers never coincide, and no client id has the reserved shard |
| LiveTracker.TakenIsFiltered | crates/wavedb-storage/src/live.rs:191-203 | on a duplicate-free list removal deletes just that id and keeps the order |
| LiveTracker.DataFile.LiveAppend | crates/wavedb-storage/src/live.rs:144-158 | the list grows by the id at its end; a segment is sealed exactly when the open list fills; other trackers and client records stay |
| LiveTracker.DataFile.LiveSetSingle | crates/wavedb-storage/src/live.rs:164-178 | the list becomes the one id; nothing else changes |
| LiveTracker.DataFile.LiveRemove | crates/wavedb-storage/src/live.rs:184-206 | found exactly if listed; of the newest part (open list, then segments from the last) that has the id, its first occurrence is taken out; nothing else changes |
| LiveTracker.DataFile.LiveIds | crates/wavedb-storage/src/live.rs:209-224 | the segments in order, then the open list |
| LiveTracker.DataFile.LiveRebuild | crates/wavedb-storage/src/live.rs:232-254 | the list becomes the sorted duplicate-free union of itself and the replayed ids, in as many full segments as it has; nothing else changes |
| Recovery.ReplayIdempotent | crates/wavedb-storage/src/node_storage.rs:117-134 | replaying a journal over any part of itself gives the same records as replaying it once |
| Recovery.StepSafe | crates/wavedb-storage/src/node_storage.rs:66-187 | every step but a bare truncation keeps the committed records recoverable |
| Recovery.CommittedSurvives | crates/wavedb-storage/src/node_storage.rs:66-187 | in every run of commits, snapshots, atomic compactions, crashes (also inside recovery) and reopens, each id reads as its last committed bytes and a reopen at any moment would recover them |
| Recovery.SplitCompaction | crates/wavedb-storage/src/node_storage.rs:285-290 | a compaction whose halves are separated by client steps loses no record if and only if no write was under way at the flush and none was journalled before the truncation, in runs that write each id once |
| Recovery.SplitCompactionOfRewrites | crates/wavedb-storage/src/node_storage.rs:285-290 | with ids written again as well: if and only if each id under way at the flush or committed since had its last bytes in memory at the flush |
| Recovery.SplitCompactionLoses | crates/wavedb-storage/src/node_storage.rs:285-290 | a run in which an acknowledged write is gone after a split compaction and a crash |
| RecoverySplit.RunNeat | crates/wavedb-storage/src/node_storage.rs:209-218 | in every run that writes each id once, no id is listed twice, and none that is under way is listed yet |
| RecoverySplit.SplitReopensAtFlush | crates/wavedb-storage/src/node_storage.rs:285-290 | whatever clients do between the halves, a reopen gives every tracker back as it stood at the flush |
| RecoverySplit.SplitListing | crates/wavedb-storage/src/node_storage.rs:285-290 | for each id: a reopen lists it if and only if it was listed at the flush; it is expected if and only if it was listed or under way then, or committed since, and not deleted since |
| RecoverySplit.SplitCompactionLists | crates/wavedb-storage/src/node_storage.rs:285-290 | with each id written once and no Unique rotation between the halves, the listing survives if and only if each id under way at the flush or committed since was deleted since and no id listed at the flush was |
| RecoverySplit.SplitKeepsListsIffQuiet | crates/wavedb-storage/src/node_storage.rs:285-290 | without deletes: if and only if nothing was under way or waiting for its tracker at the flush and nothing was committed since |
| RecoverySplit.SplitDrops | crates/wavedb-storage/src/node_storage.rs:285-290 | under any client steps, Unique rotations included, the ids that drop out are exactly those expected that were under way at the flush or committed since |
| RecoverySplit.SplitLosesListing | crates/wavedb-quick-node/src/node.rs:1281-1289 | a run in which an acknowledged record survives the split compaction but is listed no more |
| RecoveryLists.RecoveryKeepsTarget | crates/wavedb-storage/src/node_storage.rs:136-151 | recovery steps and crashes among them never change the list recovery is heading for |
| RecoveryLists.RecoveredList | crates/wavedb-storage/src/node_storage.rs:117-141 | after any recovery each touched tracker is exactly the sorted union of snapshot and replayed ids, and every other its snapshot |
| RecoveryLists.ListedAfterRecovery | crates/wavedb-quick-node/src/node.rs:935-946 | after recovery an id is listed if and only if the snapshot listed it or the journal still holds a write of it |
| RecoveryLists.DeletedStays | crates/wavedb-quick-node/src/node.rs:935-946 | an id deleted before a compaction stays deleted through every later crash until it is written again |
| RecoveryLists.DeletedComesBack | crates/wavedb-quick-node/src/node.rs:935-946 | a run in which a deleted id returns although a snapshot followed the delete |
| RecoveryOrder.SameListAfterCrash | crates/wavedb-storage/src/live.rs:226-254 | in delete-free append runs with increasing ticks whose trackers learn of commits in commit order, a quiet tracker is the same list, in order, after a crash and reopen |
| RecoveryOrder.SameServedAfterCrash | crates/wavedb-quick-node/src/node.rs:1266-1292 | under the same two hypotheses, with Unique rotation as well, the last id is the newest committed one and is the same after a crash and reopen |
| RecoveryExact.SameListIff | crates/wavedb-storage/src/live.rs:226-254 | in every delete-free append run, in any order of ticks and tracker updates, a quiet tracker is the same list after a crash and reopen if and only if the journal does not touch it or its list is in strict order |
| RecoveryExact.SameServedIff | crates/wavedb-quick-node/src/node.rs:1266-1292 | in every delete-free run, with Unique rotation as well, the id served is the same if and only if the journal does not touch the tracker or that id is the newest on disk and in the journal |
| RecoveryExact.IndexedOutOfOrder | crates/wavedb-storage/src/node_storage.rs:209-218 | two commits indexed the other way round: the older id is served before a crash and the newer one after it, in a Unique tracker or not |
| RecoveryExact.CanRecover | crates/wavedb-storage/src/node_storage.rs:102-152 | from every store that is down some run of recovery steps brings it up |
| NodeStorage.NodeStorage.constructor | crates/wavedb-storage/src/node_storage.rs:66-80 | opening the files a stopped node left starts recovery from its snapshot |
| NodeStorage.NodeStorage.ReplayEntries | crates/wavedb-storage/src/node_storage.rs:117-134 | the replay loop writes every journalled record and collects exactly the replayed ids of each tracker |
| NodeStorage.NodeStorage.RebuildTouched | crates/wavedb-storage/src/node_storage.rs:136-141 | every touched tracker is rebuilt, in whatever order |
| NodeStorage.NodeStorage.RecoverFromJournal | crates/wavedb-storage/src/node_storage.rs:102-152 | the code of recovery is a run of recovery steps of the machine that ends with the store up |
| NodeStorage.NodeStorage.CommitVersionedWrite | crates/wavedb-storage/src/node_storage.rs:167-187 | a commit is the machine's journal step followed by its apply step |
| NodeStorage.NodeStorage.CommitWriteLive | crates/wavedb-storage/src/node_storage.rs:209-218 | a discoverable commit is those two steps and the tracker step |
| NodeStorage.NodeStorage.FlushSnapshot | crates/wavedb-storage/src/node_storage.rs:268-270 | the snapshot on disk becomes what is in memory; the journal stays |
| NodeStorage.NodeStorage.CompactJournal | crates/wavedb-storage/src/node_storage.rs:285-290 | alone on the bundle, compaction is the machine's atomic compaction |
| Page.RetainLookup | crates/wavedb-storage/src/page.rs:192-201 | removing an id changes no other lookup |
| Page.PushLookup | crates/wavedb-storage/src/page.rs:118-131 | bytes put behind the stack are found under their id and change no other lookup |
| Page.MovedLookup | crates/wavedb-storage/src/page.rs:165-186 | packing the live entries changes no lookup |
| Page.Page.constructor | crates/wavedb-storage/src/page.rs:86-96 | an empty page of the given size, also one smaller than its header |
| Page.Page.Insert | crates/wavedb-storage/src/page.rs:108-132 | succeeds exactly if the bytes and a directory entry fit the free space; then only that lookup changes |
| Page.Page.Remove | crates/wavedb-storage/src/page.rs:192-201 | true exactly if present; only that lookup changes |
| Page.Page.Compact | crates/wavedb-storage/src/page.rs:165-186 | no lookup changes, ranges stay ordered and in bounds, and the stack ends right behind the live bytes |
| Page.Page.PackAll | crates/wavedb-storage/src/page.rs:166-177 | the loop collects the live bytes in order and their new offsets |
| Page.Page.Upsert | crates/wavedb-storage/src/page.rs:145-161 | refines map update: success changes only that id, failure only drops it; success whenever header, directory with one more entry, live bytes and new bytes fit; success, refusal and panic each under their exact condition, with overflow checks and without; with them the retry after compaction cannot fail |
| Page.StoresWhatFits | crates/wavedb-storage/src/page.rs:134-161 | what fits is stored, with overflow checks and without; with them what is stored fits or fitted the free space; whatever is stored, header, live bytes, one entry and the new bytes fit together |
| Page.UnderflowHappens | crates/wavedb-storage/src/page.rs:153-155 | four upserts after which the capacity subtraction goes below zero: a panic with overflow checks, a refusal without |
| Ring.WalkMembers | crates/wavedb-quick-node/src/ring.rs:63-74 | the clockwise walk meets every node with a position and meets the owner first |
| RingOrder.OwnerIsNearest | crates/wavedb-quick-node/src/ring.rs:62-74 | a node owns a key if and only if one of its positions has the least clockwise distance, modulo 2^64, from the key |
| RingOrder.ReplicasByDistance | crates/wavedb-quick-node/src/ring.rs:84-105 | replicas stand in increasing order of their least clockwise distance, and every node left out is farther than all of them |
| Ring.ReplicasShape | crates/wavedb-quick-node/src/ring.rs:84-105 | replica lists have no repetitions, begin with the owner and have n nodes or all of them |
| Ring.ReplicasAfterEviction | crates/wavedb-quick-node/src/node.rs:370-376 | after a node is gone the list of n is the old list of n + 1 without it, cut to n |
| Ring.SecondReplicaTakesOver | crates/wavedb-quick-node/src/node.rs:370-376 | the new owner of an evicted owner's key is its old second replica |
| Ring.OnlyItsKeysMove | crates/wavedb-quick-node/src/ring.rs:49-58 | evicting a node moves only the keys it owned |
| Ring.MovesAreMinimal | crates/wavedb-quick-node/src/ring.rs:38-58 | with a node added a key is owned by it or by its old owner, so adding only moves keys to it and removing only moves those back |
| Ring.MembershipDecides | crates/wavedb-quick-node/src/ring.rs:38-58 | the position map depends only on the membership, not on the history of additions and removals |
| Ring.OneOwner | crates/wavedb-quick-node/src/node.rs:408-414 | nodes with equal views agree on one owner on the ring, a member |
| Ring.OneOwnerIffNoOtherPin | crates/wavedb-quick-node/src/node.rs:408-414 | with transfer pins every partition is served by some node, and by only one if and only if no node but the ring's owner has a pin on it |
| Ring.ConsistentRing.AddNode | crates/wavedb-quick-node/src/ring.rs:38-44 | the ring holds exactly the positions of the members; refreshing a member changes no position |
| Ring.ConsistentRing.RemoveNode | crates/wavedb-quick-node/src/ring.rs:49-58 | exactly the positions of the node are gone; true exactly if it was a member |
| Ring.ConsistentRing.ReplicasOf | crates/wavedb-quick-node/src/ring.rs:84-105 | the loop with its two early exits returns the first n distinct nodes of the walk, which `ReplicasByDistance` orders |
| RingHash.ComputeRingHash | crates/wavedb-quick-node/src/ring.rs:129-138 | the byte loops compute the FNV-1a fold of node and number |
| RingHash.ComputePartitionHash | crates/wavedb-quick-node/src/ring.rs:141-150 | the byte loops compute the FNV-1a fold of tenant and shard |
| RingHash.EveryByteCounts | crates/wavedb-quick-node/src/ring.rs:129-150 | byte strings that differ in just one byte have different hashes |
| RingHash.HashesTellApart | crates/wavedb-quick-node/src/ring.rs:129-150 | so do positions, and partitions, that differ in just one byte |
| RingHash.FnvOfLetterA | crates/wavedb-quick-node/src/ring.rs:152-154 | the published FNV-1a value of the one-letter text a |
| RingHash.MixInjective | crates/wavedb-quick-node/src/ring.rs:131-133 | multiplying by the odd prime modulo 2^64 loses nothing |
| RingHash.OwnPositionsDistinct | crates/wavedb-quick-node/src/ring.rs:129-138 | the 150 positions of any one node are distinct |
| Gossip.GossipState.MarkSeen | crates/wavedb-quick-node/src/gossip.rs:100-102 | true exactly for an event not seen before, which is then seen |
| Gossip.GossipState.NextEpoch | crates/wavedb-quick-node/src/gossip.rs:94-96 | each epoch is one more than the last |
| Gossip.QuickNode.HandleGossip | crates/wavedb-quick-node/src/node.rs:975-1027 | the handler computes the node's next state and the peers it relays to; an announcement is answered with all nodes known, the new one among them, a withdrawal with an acknowledgement; a withdrawal is relayed before the node is dropped |
| Gossip.FloodEnds | crates/wavedb-quick-node/src/node.rs:1497-1519 | every run, in any delivery order and with losses, takes at most as many message steps as its starting weight of unseen pairs, unsent messages and packets |
| Gossip.AppliedOnce | crates/wavedb-quick-node/src/node.rs:976-984 | in every run no node applies an event twice |
| GossipReach.NewIsRelayed | crates/wavedb-quick-node/src/node.rs:986-1027 | a delivery of a new message of either kind sends it to every peer but the node and the subject, and one of a known message to nobody |
| GossipReach.RelayedIsApplied | crates/wavedb-quick-node/src/node.rs:986-1027 | at quiescence of a loss-free run of announcements and withdrawals every node relayed to, except the origin, applied the message; if no other message contradicts it, an announced subject is a peer and a withdrawn one is not |
| GossipReach.FloodReaches | crates/wavedb-quick-node/src/node.rs:986-1027 | at quiescence every node reachable from the origin along the initial peers, past no node that withdraws, has applied the message, announcement or withdrawal |
| GossipReach.FloodTakesEffect | crates/wavedb-quick-node/src/node.rs:986-1027 | and if no other message contradicts it, each of them has the subject as a peer exactly if it was announced |
| GossipReach.LastArrivalWins | crates/wavedb-quick-node/src/node.rs:975-1027 | a node keeps a peer if and only if the last message about it that was the first with its origin and epoch announced it, or none was and it was a peer before |
| GossipReach.LateAnnounceReadds | crates/wavedb-quick-node/src/node.rs:975-1027 | a withdrawal overtaken by the older announcement is undone |
| History.BatchData | crates/wavedb-slow-node/src/store.rs:94-105 | a batch gives each of its ids its last bytes and leaves every other record |
| History.RedeliveryIsIdempotent | crates/wavedb-quick-node/src/node.rs:1118-1124 | delivering a batch again changes no record, whatever the stamp |
| History.HistoryStore.Open | crates/wavedb-slow-node/src/store.rs:48-82 | the replay loop rebuilds the index and the highest stamp of every tenant |
| History.HistoryStore.ApplyFlush | crates/wavedb-slow-node/src/store.rs:87-111 | journal, index and watermark after a batch; the store stays the one its flushes give |
| History.HistoryStore.StopFlush | crates/wavedb-slow-node/src/store.rs:94-105 | a flush that stops half-way has journalled and indexed exactly that prefix and leaves the watermark |
| History.HistoryStore.AppendRecords | crates/wavedb-slow-node/src/store.rs:94-105 | the loop journals and indexes the records in order |
| History.HighestIsMaximum | crates/wavedb-slow-node/src/store.rs:94-111 | the highest stamp of a tenant's flushes of a kind is one of theirs and none is higher |
| History.WatermarkSurvivesReopen | crates/wavedb-slow-node/src/store.rs:94-111 | over every sequence of complete, empty and half-failed flushes, a reopen gives a tenant's watermark back if and only if its completed batches reach exactly as high as its batches that left a record |
| History.WatermarkOfFreshStore | crates/wavedb-slow-node/src/store.rs:94-111 | the same for a store that started empty |
| History.EmptyBatchIsForgotten | crates/wavedb-slow-node/src/store.rs:94-111 | an empty batch with stamp 5: watermark 5, and 0 after a reopen |
| History.HalfFlushIsRemembered | crates/wavedb-slow-node/src/store.rs:94-111 | a flush with stamp 5 that stops after one record: watermark 0, and 5 after a reopen |
| History.Reopen | crates/wavedb-slow-node/src/store.rs:48-82 | reopening gives the same index; each watermark is the highest stamp that left a record, and so the old one under exactly that condition; the flush count is the old one if and only if the highest of these stamps is the number completed |
| History.CountIsTopStamp | crates/wavedb-slow-node/src/store.rs:54-70 | over every sequence of flushes, the count of a reopened store is the highest stamp that left a record |
| History.OneFlushCountsAsFive | crates/wavedb-slow-node/src/store.rs:54-109 | one flush with stamp 5 counts as one, and as five after a reopen |
| HistoryFlow.NothingIsLost | crates/wavedb-quick-node/src/node.rs:1124-1201 | in every run of writes, succeeding, failing and half-failing syncs and Slow-Node restarts, each queued record is pending, in an unfinished sync or on the Slow-Node's disk, and nothing else is |
| HistoryFlow.IdleIndexIsLog | crates/wavedb-slow-node/src/store.rs:113-118 | once nothing waits the Slow-Node serves exactly the records written, also after a restart |
| HistoryOnce.StepWaits | crates/wavedb-quick-node/src/node.rs:1124-1201 | a record begins to wait when it is written and stops when a chunk with it is acknowledged; no other step changes that |
| HistoryOnce.WaitsUntilAcked | crates/wavedb-quick-node/src/node.rs:1118-1201 | in every run a written record waits if and only if no chunk with it was acknowledged so far, and waits in one place only |
| HistoryOnce.StampedAtDrain | crates/wavedb-quick-node/src/node.rs:1137-1145 | in every run a record on the Slow-Node carries the stamp of a sync that was begun |
| HistoryOnce.CrashAfterSend | crates/wavedb-slow-node/src/store.rs:94-111 | after a chunk was answered no crash takes a record of it; one given up left its first records, and a crash may take them all |
| HistoryFlow.Chunk | crates/wavedb-quick-node/src/node.rs:1142-1142 | the first records, at most 512 and all of them if they are fewer |
| HistoryOrder.QueuesInCommitOrder | crates/wavedb-quick-node/src/node.rs:1191-1199 | as long as no drain overlaps a sync of the tenant that still holds records, what waits for the tenant stands in commit order: failed records go before newer ones |
| HistoryOrder.DrainMisordersIff | crates/wavedb-quick-node/src/node.rs:1091-1199 | from a line in order, a drain can lead by sends and requeues to a queue out of order if and only if a sync of the tenant still holds records and its queue is not empty |
| HistoryOrder.TwoSyncsMisorder | crates/wavedb-quick-node/src/node.rs:1091-1224 | a run of two syncs at once that leaves the newer record before the older |
| HistorySync.Shipper.Enqueue | crates/wavedb-quick-node/src/node.rs:866-874 | a committed record joins the end of its tenant's queue |
| HistorySync.Shipper.SyncTenant | crates/wavedb-quick-node/src/node.rs:1140-1200 | the chunk loop is a run of send steps of the machine followed by its requeue step |
| HistorySync.Shipper.SyncToSlow | crates/wavedb-quick-node/src/node.rs:1124-1201 | a sync is a drain step and the runs of its tenants, and leaves no job behind |
| Versions.ExpandSound | crates/wavedb-core/src/migration.rs:298-307 | expanding the front of the queue keeps the tree of shortest distances and the order of the queue |
| Versions.DryMeansUnreachable | crates/wavedb-core/src/migration.rs:280-313 | if the queue runs dry no path leads to the target |
| Versions.TakenIsShortest | crates/wavedb-core/src/migration.rs:280-296 | when the target is taken from the queue no path to it is shorter than its distance |
| Versions.PlanIsShortest | crates/wavedb-core/src/migration.rs:265-314 | on every finite graph, cycles included, a plan exists if and only if the target is reachable; it is an unbroken chain of registered edges and no path is shorter |
| Migration.FindEntry | crates/wavedb-core/src/migration.rs:348-360 | an entry for exactly that step, or none is registered |
| Migration.ForwardTrail | crates/wavedb-core/src/migration.rs:217-230 | migrating gives y if and only if a trail of byte strings leads from the input to y, each step by the first entry registered for it |
| Migration.ForwardStops | crates/wavedb-core/src/migration.rs:217-230 | a migration that fails does so at a step reached by the steps before it, with the error that step calls for |
| Migration.BackwardTrail | crates/wavedb-core/src/migration.rs:241-260 | rolling back gives x if and only if such a trail of rollbacks leads back to x, last step first |
| Migration.MigratedTrail | crates/wavedb-core/src/migration.rs:217-230 | from version to version: a result if and only if there is a plan and a trail along it |
| Migration.RolledBackTrail | crates/wavedb-core/src/migration.rs:241-260 | the same for rolling back along the forward plan |
| Migration.BackUndoesForward | crates/wavedb-core/src/migration.rs:217-260 | for plans of any length, if each registered rollback undoes its step, rolling back what was migrated returns the input |
| Migration.RollbackUndoesMigrate | crates/wavedb-core/src/migration.rs:217-260 | migrating from a to b and rolling back from b to a is the identity under that hypothesis |
| Migration.WithEdge | crates/wavedb-core/src/migration.rs:147-155 | registering adds exactly one edge to the graph |
| Migration.MigrationRegistry.RegisterWithEntry | crates/wavedb-core/src/migration.rs:197-205 | registering an entry adds its edge and its functions |
| Migration.MigrationRegistry.Resolve | crates/wavedb-core/src/migration.rs:265-314 | the loops end, succeed exactly if the target is reachable, and return the shortest chain; otherwise `NoMigrationPath` |
| Migration.MigrationRegistry.PathTo | crates/wavedb-core/src/migration.rs:283-294 | the path loop follows the parents back to the start and reverses them |
| Migration.MigrationRegistry.MigrateChain | crates/wavedb-core/src/migration.rs:217-230 | gives y if and only if there is a plan and a trail of migrations along it that ends in y; without a plan `NoMigrationPath`; every other error case |
| Migration.MigrationRegistry.RollbackChain | crates/wavedb-core/src/migration.rs:241-260 | gives x if and only if there is a forward plan and a trail of rollbacks back along it that ends in x; without a plan `NoMigrationPath`; every other error case |
| Migration.MigrationRegistry.CanRollback | crates/wavedb-core/src/migration.rs:317-341 | the search loop answers whether backward edges lead from one version to the other |
| MigrationRollback.RegisterAll | crates/wavedb-core/src/migration.rs:197-205 | registering entries one by one gives the forward and backward graphs of the list |
| MigrationRollback.RollbackNeeds | crates/wavedb-core/src/migration.rs:241-260 | a rollback that succeeds has a forward plan whose steps all have rollbacks; with that only a rollback function can fail |
| MigrationRollback.CheckAgreesIff | crates/wavedb-core/src/migration.rs:241-341 | the check and the rollback agree on a pair of versions if and only if, where the check says yes, each step of the shortest forward plan has a rollback |
| MigrationRollback.AllReversibleAgrees | crates/wavedb-core/src/migration.rs:241-341 | they agree on every pair if every entry has a rollback |
| MigrationRollback.ShortcutDisagrees | crates/wavedb-core/src/migration.rs:248-341 | a direct step without rollback beside a reversible detour: the check says yes and the rollback finds no path |
| Words.MulUndo | crates/wavedb-storage/src/hash.rs:42-44 | a wrapping multiplication by a number with an inverse modulo 2^64 can be undone |
| Hash.ShiftThenUn | crates/wavedb-storage/src/hash.rs:41-45 | an xor with one's own right shift can be undone |
| Hash.MixIsBijection | crates/wavedb-storage/src/hash.rs:39-47 | the mixer is a bijection on 64-bit words, with an explicit inverse on both sides |
| Hash.OnlyGoldenIsZero | crates/wavedb-storage/src/hash.rs:36-47 | only the golden constant mixes to zero |
| Hash.ReduceIsRemainder | crates/wavedb-storage/src/hash.rs:59-67 | masking equals the remainder, so for every page count the index is the remainder |
| Hash.DoubleHashStep | crates/wavedb-storage/src/hash.rs:174-187 | the step is always odd |
| Hash.ProbeIsPermutation | crates/wavedb-storage/src/hash.rs:169-187 | for every power-of-two page count and every key the probe looks at every page exactly once |
| Hash.ProbeVisitsAllIffCoprime | crates/wavedb-storage/src/hash.rs:169-187 | for any page count every page is looked at exactly once if and only if step and page count are coprime |
| HashReach.EveryKeyReached | crates/wavedb-storage/src/hash.rs:183-185 | every 64-bit word is the step key of some struct and tenant that fit an id |
| HashReach.KeyTellsStructAndShard | crates/wavedb-storage/src/hash.rs:183-185 | for one tenant, records of different structs or shards have different step keys |
| HashReach.EveryStepReached | crates/wavedb-storage/src/hash.rs:180-186 | for every page count, every remainder is met by some record |
| HashReach.ProbeCoversIffPowerOfTwo | crates/wavedb-storage/src/hash.rs:169-187 | the probe looks at every page exactly once for every record an id can name if and only if the page count is a power of two |
| HashReach.FallbackDiffers | crates/wavedb-storage/src/file/data.rs:447-464 | the fallback page differs from the primary if and only if there is more than one page, and not both: an odd count, and a key that mixes to the last page |
| HashReach.FallbackHelpsIffEven | crates/wavedb-storage/src/file/data.rs:447-464 | every record has a fallback page of its own if and only if the page count is even and not zero |
| HashReach.Grown | crates/wavedb-storage/src/file/data.rs:933-941 | the least page count that is 7/4 of the old one or more, and more than it in any case |
| HashReach.GrownTablesMiss | crates/wavedb-storage/src/file/data.rs:933-941 | from 256 pages one growth breaks the probe for some record, and the fourth, to 2401 pages, leaves some record without a fallback |

## Left out

- Headers: `pack_header`, `to_wire_with_header` and `from_wire_with_header` prepend four bytes; they would only add easy members.
- Query.PartialCmp: comparisons with a floating-point operand are a parameter; rounding of integers to `f64` is not modelled.
- WireCursors.ToWire: `usize` arithmetic is unbounded here; overflow of sizes on 32-bit targets is not modelled.
- HeapFile.HeapFile.AddOwner: assumes a live block (or one that does not parse); a block whose entry is dead or was never an entry is outside the contract, as is overflow of `block * 4096`. The buffer stays below 2^63 bytes, the limit of a Rust allocation.
- HeapFile.HeapFile.RemoveOwner: assumes a live block (or one that does not parse), like `AddOwner`; the source takes an owner off a dead block too as long as its bytes parse.
- HeapFile.HeapFile.AppendEntry: calls the writer for full owner lists; the original repeats that code for a single owner.
- Dedup.DedupStore: zstd is a lossless pair of functions and the heap anchors are a map; the anchors' own pages and the flush of the heap file are not modelled.
- LiveTracker.DataFile.LiveAppend: each tracker operation is one atomic step, as are its head and segment writes; the wire encoding of heads and segments is not repeated here.
- Recovery.CommittedSurvives: the data file is a map flushed atomically and the journal a sequence whose appends are durable once flushed; pages, rebalancing and journal bytes are not modelled.
- RecoveryOrder.SameListAfterCrash: increasing creation ticks are a hypothesis of the run, as the write sequence of a node restarts at zero with each process; so is that trackers learn of commits in commit order. `RecoveryExact.SameListIff` does without both.
- RecoveryOrder.SameServedAfterCrash: the same two hypotheses; `RecoveryExact.SameServedIff` does without them.
- RecoverySplit.RunNeat: runs that write each id once; a second write of an id is listed a second time.
- RecoverySplit.SplitCompactionLists: leaves out rotations of Unique trackers between the halves, which `SplitDrops` covers id by id.
- NodeStorage.NodeStorage.CompactJournal: called with no commit under way; compaction with commits under way is stated on the machine, by `Recovery.SplitCompaction` and `RecoverySplit`.
- Page.Page.Insert: takes an id not on the page, as `upsert` calls it; a direct second insert of the same id is not modelled.
- Page.Page.Upsert: checksums and the dictionary version of the header are not modelled; `usize` has 64 bits.
- Ring.ConsistentRing.AddNode: different nodes are assumed to share no virtual position; a collision is possible in principle and its effect is not modelled.
- Ring.OneOwner: the ring alone; `OneOwnerIffNoOtherPin` adds pins. How pins are set and cleared is not modelled.
- Gossip.QuickNode.HandleGossip: addresses and message tokens are not modelled; nodes learned from replies enter as steps that only add peers.
- GossipReach.FloodReaches: runs without loss; paths past a node that withdraws are left out, since its peers may drop it before they relay.
- GossipReach.FloodTakesEffect: messages that another one about the same subject contradicts, and subjects learned back from a reply, are left out; there the order of arrival decides, as `LastArrivalWins` states.
- HistoryFlow.NothingIsLost: the queue lives in memory, so a crash of the Quick-Node is outside the claim; record ids are written once.
- StampId.StampIsReencodeIff: compares with values of the same heap bytes, which stamping keeps.
- HashReach.GrownTablesMiss: the growth factor is the exact 7/4; rounding of page counts above 2^53 to `f64` is not modelled.
- Hash.ReduceIsRemainder: the mixing of struct, tenant, shard and tick into page keys is not modelled.
- Migration: compose registrations and rollback edges registered on their own extend the same graphs without functions and would only add easy members.
- Monitor, transports, HTTP handlers, WASM bindings, token authentication, bloom filter, caches and adaptive indexes are not part of this model.
- `TransferTracker` allows any transition and `ReplicationWatermark` keeps a maximum, so neither has a protocol to state.
