/** The block heap: entries in whole blocks of one growing buffer, owner lists changed in place. */
module HeapFile {
  import opened Bytes
  import opened Ids
  import opened Wrappers
  import opened HeapLayout

  datatype HeapError = OutOfBounds | TruncatedValue | TruncatedOwners

  type Result<+T> = Either<T, HeapError>

  /** Parsed offsets of one entry. */
  datatype View = View(start: nat, size: nat, count: nat) {
    function CountAt(): nat { start + 8 + size }
    function OwnerSlot(i: nat): nat { CountAt() + 8 + 16 * i }
    function InUse(): nat { 8 + size + 8 + 16 * count }
  }

  /** Parse and bounds-check the entry at `block`. */
  function EntryOf(buf: seq<Byte>, block: nat): (r: Result<View>)
    ensures r.Ok? ==> r.value.start == block * BLOCK && r.value.start + r.value.InUse() <= |buf|
  {
    var start := block * BLOCK;
    if start + 16 > |buf| then Err(OutOfBounds)
    else
      var size := FromLE(buf[start..start + 8]);
      var countAt := start + 8 + size;
      if countAt + 8 > |buf| then Err(TruncatedValue)
      else
        var count := FromLE(buf[countAt..countAt + 8]);
        if countAt + 8 + 16 * count > |buf| then Err(TruncatedOwners)
        else Ok(View(start, size, count))
  }

  /** A block parses exactly if size, value, count and owners lie inside the buffer, with the numbers its two slots spell. */
  lemma {:induction false} ParsesIff(buf: seq<Byte>, block: nat, size: nat, count: nat)
    requires size < Pow256(8) && count < Pow256(8)
    ensures EntryOf(buf, block) == Ok(View(block * BLOCK, size, count)) <==>
            && At(buf, block * BLOCK, LE(8, size))
            && At(buf, block * BLOCK + 8 + size, LE(8, count))
            && block * BLOCK + 16 + size + 16 * count <= |buf|
    ensures EntryOf(buf, block) == Err(OutOfBounds) <==> block * BLOCK + 16 > |buf|
    ensures At(buf, block * BLOCK, LE(8, size)) && block * BLOCK + 16 <= |buf| ==>
              (EntryOf(buf, block) == Err(TruncatedValue) <==> block * BLOCK + 16 + size > |buf|)
  {
    hide LE, FromLE, Pow256;
    var p := block * BLOCK;
    SpellsIff(buf, p, size);
    SpellsIff(buf, p + 8 + size, count);
  }

  lemma {:induction false} SpellsIff(buf: seq<Byte>, p: nat, n: nat)
    requires n < Pow256(8)
    ensures At(buf, p, LE(8, n)) <==> p + 8 <= |buf| && FromLE(buf[p..p + 8]) == n
  {
    hide LE, FromLE, Pow256;
    FromLEOfLE(8, n);
    if p + 8 <= |buf| {
      LEOfFromLE(buf[p..p + 8]);
    }
  }

  // ----- What the buffer holds -----

  /** A live entry: its value, its owners, and the blocks set aside for it. */
  datatype Entry = Entry(value: seq<Byte>, owners: seq<Id>, extent: nat)

  predicate Stands(buf: seq<Byte>, block: nat, e: Entry) {
    && e.owners != []
    && ValidOwners(e.owners)
    && Used(e.value, |e.owners|) <= e.extent * BLOCK
    && (block + e.extent) * BLOCK <= |buf|
    && At(buf, block * BLOCK, Layout(e.value, e.owners))
  }

  /** Block ranges of `n` blocks from `b` and `m` blocks from `c` do not overlap. */
  predicate Apart(b: nat, n: nat, c: nat, m: nat) {
    b + n <= c || c + m <= b
  }

  /** Whole blocks; every live entry stands; live entries and freed ranges never overlap. */
  ghost predicate Sound(buf: seq<Byte>, live: map<nat, Entry>, dead: seq<(nat, nat)>) {
    && |buf| < HEAP_LIMIT
    && |buf| % BLOCK == 0
    && (forall b <- live :: Stands(buf, b, live[b]))
    && (forall b <- live, c <- live :: b != c ==> Apart(b, live[b].extent, c, live[c].extent))
    && (forall i :: 0 <= i < |dead| ==> dead[i].1 > 0 && (dead[i].0 + dead[i].1) * BLOCK <= |buf|)
    && (forall b <- live, i :: 0 <= i < |dead| ==> Apart(b, live[b].extent, dead[i].0, dead[i].1))
    && (forall i, j :: 0 <= i < j < |dead| ==> Apart(dead[i].0, dead[i].1, dead[j].0, dead[j].1))
  }

  /** Parsing the block of a live entry gives its own offsets. */
  lemma {:induction false} LiveParses(buf: seq<Byte>, b: nat, e: Entry)
    requires Stands(buf, b, e) && |buf| < HEAP_LIMIT
    ensures EntryOf(buf, b) == Ok(View(b * BLOCK, |e.value|, |e.owners|))
    ensures At(buf, b * BLOCK + 8, e.value)
    ensures At(buf, b * BLOCK + 16 + |e.value|, OwnerBytes(e.owners))
  {
    hide LE, FromLE, OwnerBytes, At, Layout;
    var p := b * BLOCK;
    assert p + Used(e.value, |e.owners|) <= |buf|;
    LayoutParts(buf, p, e.value, e.owners);
    Slot8(buf, p, |e.value|);
    Slot8(buf, p + 8 + |e.value|, |e.owners|);
  }

  /** The slot of owner `i` spells that owner and no other. */
  lemma {:induction false} OwnerSlotIs(buf: seq<Byte>, b: nat, e: Entry, i: nat, o: Id)
    requires Stands(buf, b, e) && |buf| < HEAP_LIMIT && i < |e.owners| && o < Pow256(16)
    ensures var at := b * BLOCK + 16 + |e.value| + 16 * i;
            && at + 16 <= |buf|
            && FromLE(buf[at..at + 16]) == e.owners[i]
            && (buf[at..at + 16] == LE(16, o) <==> e.owners[i] == o)
  {
    hide LE, FromLE, Pow256, OwnerBytes, At, Layout, EntryOf;
    LiveParses(buf, b, e);
    SlotOf(buf, b * BLOCK + 16 + |e.value|, e.owners, i, o);
  }

  lemma {:induction false} SlotOf(buf: seq<Byte>, p: nat, owners: seq<Id>, i: nat, o: Id)
    requires At(buf, p, OwnerBytes(owners)) && i < |owners| && ValidOwners(owners) && o < Pow256(16)
    ensures var at := p + 16 * i;
            && at + 16 <= |buf|
            && FromLE(buf[at..at + 16]) == owners[i]
            && (buf[at..at + 16] == LE(16, o) <==> owners[i] == o)
  {
    hide LE, FromLE, Pow256, OwnerBytes;
    OwnerAt(buf, p, owners, i);
    var slot := LE(16, owners[i]);
    assert |slot| == 16;
    assert buf[p + 16 * i..p + 16 * i + 16] == slot;
    FromLEOfLE(16, owners[i]);
    OwnerEqual(owners[i], o);
  }

  // ----- Frames -----

  /** A write inside one block range leaves the entries apart from it. */
  lemma {:induction false} PatchFrame(buf: seq<Byte>, b: nat, e: Entry, p: nat, bs: seq<Byte>, q: nat, n: nat)
    requires Stands(buf, b, e) && Apart(b, e.extent, q, n)
    requires q * BLOCK <= p && p + |bs| <= (q + n) * BLOCK && p + |bs| <= |buf|
    ensures Stands(Patch(buf, p, bs), b, e)
  {
    hide At, Layout, Patch, ValidOwners;
    PatchBeside(buf, p, bs, b * BLOCK, Layout(e.value, e.owners));
  }

  lemma {:induction false} ExtendFrame(buf: seq<Byte>, more: seq<Byte>, b: nat, e: Entry)
    requires Stands(buf, b, e)
    ensures Stands(buf + more, b, e)
  {
    hide At, Layout, ValidOwners;
    AtExtended(buf, more, b * BLOCK, Layout(e.value, e.owners));
  }

  /** Fresh zero blocks at the end disturb nothing. */
  lemma {:induction false} Grown(buf: seq<Byte>, live: map<nat, Entry>, dead: seq<(nat, nat)>, more: seq<Byte>)
    requires Sound(buf, live, dead) && |more| % BLOCK == 0 && |buf| + |more| < HEAP_LIMIT
    ensures Sound(buf + more, live, dead)
  {
    hide Stands, Apart;
    forall b <- live ensures Stands(buf + more, b, live[b]) {
      ExtendFrame(buf, more, b, live[b]);
    }
  }

  /** A write clear of every live entry: inside blocks `q .. q + n` that none of them uses. */
  lemma {:induction false} WrittenClear(buf: seq<Byte>, live: map<nat, Entry>, dead: seq<(nat, nat)>,
                                        p: nat, bs: seq<Byte>, q: nat, n: nat)
    requires Sound(buf, live, dead)
    requires q * BLOCK <= p && p + |bs| <= (q + n) * BLOCK && p + |bs| <= |buf|
    requires forall b <- live :: Apart(b, live[b].extent, q, n)
    ensures Sound(Patch(buf, p, bs), live, dead)
  {
    hide Stands, Apart, Patch;
    forall b <- live ensures Stands(Patch(buf, p, bs), b, live[b]) {
      PatchFrame(buf, b, live[b], p, bs, q, n);
    }
  }

  /** A new entry in blocks that no live entry and no freed range uses. */
  lemma {:induction false} Admitted(buf: seq<Byte>, live: map<nat, Entry>, dead: seq<(nat, nat)>, b: nat, e: Entry)
    requires Sound(buf, live, dead) && Stands(buf, b, e)
    requires forall c <- live :: c != b ==> Apart(c, live[c].extent, b, e.extent)
    requires forall i :: 0 <= i < |dead| ==> Apart(b, e.extent, dead[i].0, dead[i].1)
    ensures Sound(buf, live[b := e], dead)
  {
    hide Stands;
  }

  /** Giving up an entry: part of its blocks is recorded as freed. */
  lemma {:induction false} Released(buf: seq<Byte>, live: map<nat, Entry>, dead: seq<(nat, nat)>, b: nat, n: nat)
    requires Sound(buf, live, dead) && b in live && 0 < n <= live[b].extent
    ensures Sound(buf, live - {b}, dead + [(b, n)])
  {
    hide Stands;
    var now := dead + [(b, n)];
    assert (b + live[b].extent) * BLOCK <= |buf| by { assert Stands(buf, b, live[b]); StandsBound(buf, b, live[b]); }
    forall i | 0 <= i < |now| ensures now[i].1 > 0 && (now[i].0 + now[i].1) * BLOCK <= |buf| {
      if i < |dead| { assert now[i] == dead[i]; }
    }
    forall c <- live - {b}, i | 0 <= i < |now| ensures Apart(c, live[c].extent, now[i].0, now[i].1) {
      if i < |dead| { assert now[i] == dead[i]; } else { assert Apart(c, live[c].extent, b, live[b].extent); }
    }
    forall i, j | 0 <= i < j < |now| ensures Apart(now[i].0, now[i].1, now[j].0, now[j].1) {
      assert now[i] == dead[i];
      if j < |dead| { assert now[j] == dead[j]; } else { assert Apart(b, live[b].extent, dead[i].0, dead[i].1); }
    }
  }

  lemma {:induction false} StandsBound(buf: seq<Byte>, b: nat, e: Entry)
    requires Stands(buf, b, e)
    ensures (b + e.extent) * BLOCK <= |buf| && e.extent > 0
    ensures BlocksFor(Used(e.value, |e.owners|)) <= e.extent
  {
  }

  /** Forgetting an entry keeps the rest sound, and its own blocks are clear of them. */
  lemma {:induction false} Dropped(buf: seq<Byte>, live: map<nat, Entry>, dead: seq<(nat, nat)>, b: nat)
    requires Sound(buf, live, dead) && b in live
    ensures Sound(buf, live - {b}, dead)
    ensures forall c <- live - {b} :: Apart(c, live[c].extent, b, live[b].extent)
    ensures forall i :: 0 <= i < |dead| ==> Apart(b, live[b].extent, dead[i].0, dead[i].1)
  {
    hide Stands, Apart;
  }

  /** Blocks past the end of the file are clear of everything. */
  lemma {:induction false} TailClear(buf: seq<Byte>, live: map<nat, Entry>, dead: seq<(nat, nat)>, q: nat, n: nat)
    requires Sound(buf, live, dead) && |buf| <= q * BLOCK
    ensures forall c <- live :: Apart(c, live[c].extent, q, n)
    ensures forall i :: 0 <= i < |dead| ==> Apart(q, n, dead[i].0, dead[i].1)
    ensures q !in live
  {
    hide Stands;
    forall c <- live ensures c + live[c].extent <= q && c < q {
      StandsBound(buf, c, live[c]);
    }
  }

  // ----- Writing a new entry -----

  /** Size, value and owner count put down one after the other. */
  function HeadWritten(buf: seq<Byte>, p: nat, value: seq<Byte>, count: nat): (r: seq<Byte>)
    requires p + 16 + |value| <= |buf|
    ensures |r| == |buf|
  {
    Patch(Patch(Patch(buf, p, LE(8, |value|)), p + 8, value), p + 8 + |value|, LE(8, count))
  }

  lemma {:induction false} HeadParts(buf: seq<Byte>, p: nat, value: seq<Byte>, count: nat)
    requires p + 16 + |value| <= |buf|
    ensures Parts(HeadWritten(buf, p, value, count), p, value, count, [])
  {
    hide LE, At, Patch;
    var size := LE(8, |value|);
    var one := Patch(buf, p, size);
    var two := Patch(one, p + 8, value);
    PatchedAt(buf, p, size);
    PatchBeside(one, p + 8, value, p, size);
    PatchedAt(one, p + 8, value);
    var three := Patch(two, p + 8 + |value|, LE(8, count));
    PatchBeside(two, p + 8 + |value|, LE(8, count), p, size);
    PatchBeside(two, p + 8 + |value|, LE(8, count), p + 8, value);
    PatchedAt(two, p + 8 + |value|, LE(8, count));
    EmptyAt(three, p + 16 + |value|);
  }

  lemma {:induction false} HeadClear(buf: seq<Byte>, live: map<nat, Entry>, dead: seq<(nat, nat)>,
                                     value: seq<Byte>, count: nat, q: nat, n: nat)
    requires Sound(buf, live, dead) && forall b <- live :: Apart(b, live[b].extent, q, n)
    requires 16 + |value| <= n * BLOCK && (q + n) * BLOCK <= |buf|
    ensures Sound(HeadWritten(buf, q * BLOCK, value, count), live, dead)
  {
    hide Sound, Apart, Patch, LE;
    var p, size := q * BLOCK, LE(8, |value|);
    WrittenClear(buf, live, dead, p, size, q, n);
    var one := Patch(buf, p, size);
    WrittenClear(one, live, dead, p + 8, value, q, n);
    WrittenClear(Patch(one, p + 8, value), live, dead, p + 8 + |value|, LE(8, count), q, n);
  }

  /** `freed` holds the ranges freed last: those not taken yet. */
  predicate Reported(freed: seq<(nat, nat)>, dead: seq<(nat, nat)>) {
    |freed| <= |dead| && freed == dead[|dead| - |freed|..]
  }

  lemma {:induction false} ReportedPush(freed: seq<(nat, nat)>, dead: seq<(nat, nat)>, range: (nat, nat))
    requires Reported(freed, dead)
    ensures Reported(freed + [range], dead + [range])
  {
  }

  // ----- Dropping an owner -----

  /** Swap-remove: the last owner takes the place of owner `i`. */
  function SwapRemove(owners: seq<Id>, i: nat): (r: seq<Id>)
    requires i < |owners|
    ensures |r| == |owners| - 1
  {
    owners[i := owners[|owners| - 1]][..|owners| - 1]
  }

  /** Swap-remove takes out just that owner, and no owner is listed twice. */
  lemma {:induction false} SwapRemoveDrops(owners: seq<Id>, i: nat, o: Id)
    requires ValidOwners(owners) && i < |owners|
    ensures ValidOwners(SwapRemove(owners, i))
    ensures o in SwapRemove(owners, i) <==> o in owners && o != owners[i]
  {
    hide Pow256;
    var r, last := SwapRemove(owners, i), |owners| - 1;
    assert forall j :: 0 <= j < last ==> r[j] == if j == i then owners[last] else owners[j];
    if o in owners && o != owners[i] {
      var j :| 0 <= j < |owners| && owners[j] == o;
      assert r[if j == last then i else j] == o;
    }
  }

  // ----- Every block is accounted for -----

  ghost predicate InLive(live: map<nat, Entry>, x: nat) {
    exists b <- live :: b <= x < b + live[b].extent
  }

  ghost predicate InDead(dead: seq<(nat, nat)>, x: nat) {
    exists i :: 0 <= i < |dead| && dead[i].0 <= x < dead[i].0 + dead[i].1
  }

  /** Each of the file's blocks is in a live extent, in a freed range, or lost; a lost one is in neither. */
  ghost predicate Accounted(blocks: nat, live: map<nat, Entry>, dead: seq<(nat, nat)>, lost: set<nat>) {
    && (forall x: nat :: x < blocks <==> InLive(live, x) || InDead(dead, x) || x in lost)
    && (forall x <- lost :: !InLive(live, x) && !InDead(dead, x))
  }

  /** Blocks set aside for an entry beyond those its bytes take. */
  function Spare(b: nat, e: Entry): (r: set<nat>)
    ensures r != {} <==> BlocksFor(Used(e.value, |e.owners|)) < e.extent
  {
    var used := BlocksFor(Used(e.value, |e.owners|));
    var r := Blocks(b + used, e.extent - used);
    assert used < e.extent ==> b + used in r;
    r
  }

  /** `n` blocks from `b` on. */
  function Blocks(b: nat, n: int): (r: set<nat>)
    ensures forall x :: x in r <==> b <= x < b + n
    decreases n
  {
    if n <= 0 then {} else Blocks(b, n - 1) + {b + n - 1}
  }

  lemma {:induction false} AccountNew(blocks: nat, live: map<nat, Entry>, dead: seq<(nat, nat)>, lost: set<nat>, e: Entry)
    requires Accounted(blocks, live, dead, lost) && blocks !in live
    ensures Accounted(blocks + e.extent, live[blocks := e], dead, lost)
  {
    var now := live[blocks := e];
    forall x: nat ensures InLive(now, x) <==> InLive(live, x) || blocks <= x < blocks + e.extent {
      if b :| b in live && b <= x < b + live[b].extent {
        assert b in now && now[b] == live[b];
      }
      if blocks <= x < blocks + e.extent {
        assert blocks in now;
      }
    }
  }

  /** Another list of owners, or `more` blocks at the end of the file, for the entry at `b`. */
  lemma {:induction false} AccountSame(blocks: nat, live: map<nat, Entry>, dead: seq<(nat, nat)>, lost: set<nat>, b: nat, e: Entry, more: nat)
    requires Accounted(blocks, live, dead, lost) && b in live && e.extent == live[b].extent + more
    requires more > 0 ==> b + live[b].extent == blocks
    ensures Accounted(blocks + more, live[b := e], dead, lost)
  {
    var now := live[b := e];
    forall x: nat ensures InLive(now, x) <==> InLive(live, x) || blocks <= x < blocks + more {
      if c :| c in live && c <= x < c + live[c].extent {
        assert c in now && now[c].extent >= live[c].extent;
      }
      if blocks <= x < blocks + more {
        assert b in now;
      }
      if c :| c in now && c <= x < c + now[c].extent {
        assert c in live;
      }
    }
  }

  /** The entry at `b` goes: the blocks its bytes take are freed, and its spare blocks are lost. */
  lemma {:induction false} AccountGone(buf: seq<Byte>, live: map<nat, Entry>, dead: seq<(nat, nat)>, lost: set<nat>, b: nat, blocks: nat)
    requires Sound(buf, live, dead) && b in live && Accounted(blocks, live, dead, lost)
    ensures Accounted(blocks, live - {b}, dead + [(b, BlocksFor(Used(live[b].value, |live[b].owners|)))], lost + Spare(b, live[b]))
  {
    hide Sound, BlocksFor, Used;
    SoundAt(buf, live, dead, b);
    Dropped(buf, live, dead, b);
    var n := BlocksFor(Used(live[b].value, |live[b].owners|));
    var now := dead + [(b, n)];
    forall x: nat ensures InDead(now, x) <==> InDead(dead, x) || b <= x < b + n {
      if i :| 0 <= i < |dead| && dead[i].0 <= x < dead[i].0 + dead[i].1 {
        assert now[i] == dead[i];
      }
      if b <= x < b + n {
        assert now[|dead|] == (b, n);
      }
      if i :| 0 <= i < |now| && now[i].0 <= x < now[i].0 + now[i].1 {
        assert i < |dead| ==> now[i] == dead[i];
      }
    }
    forall x: nat ensures InLive(live, x) <==> InLive(live - {b}, x) || b <= x < b + live[b].extent {
      if c :| c in live && c <= x < c + live[c].extent {
        assert c != b ==> c in live - {b} && (live - {b})[c] == live[c];
      }
      if c :| c in live - {b} && c <= x < c + (live - {b})[c].extent {
        assert c in live && (live - {b})[c] == live[c];
      }
    }
    forall x <- Spare(b, live[b]) ensures !InLive(live - {b}, x) && !InDead(now, x) {
      OutsideOthers(live, dead, b, x);
    }
  }

  lemma {:induction false} OutsideOthers(live: map<nat, Entry>, dead: seq<(nat, nat)>, b: nat, x: nat)
    requires b in live && b <= x < b + live[b].extent
    requires forall c <- live - {b} :: Apart(c, live[c].extent, b, live[b].extent)
    requires forall i :: 0 <= i < |dead| ==> Apart(b, live[b].extent, dead[i].0, dead[i].1)
    ensures !InLive(live - {b}, x) && !InDead(dead, x)
  {
  }

  /** So each block of the file is in exactly one place: one live extent, one freed range, or lost. */
  lemma {:induction false} EachBlockOnce(buf: seq<Byte>, live: map<nat, Entry>, dead: seq<(nat, nat)>, lost: set<nat>, x: nat)
    requires Sound(buf, live, dead) && Accounted(|buf| / BLOCK, live, dead, lost) && x * BLOCK < |buf|
    ensures x in lost ==> !InLive(live, x) && !InDead(dead, x)
    ensures x !in lost ==> (InLive(live, x) <==> !InDead(dead, x))
    ensures forall b <- live, c <- live :: b <= x < b + live[b].extent && c <= x < c + live[c].extent ==> b == c
    ensures forall i, j :: 0 <= i < j < |dead| && dead[i].0 <= x < dead[i].0 + dead[i].1 ==> !(dead[j].0 <= x < dead[j].0 + dead[j].1)
  {
    hide Stands;
    assert x < |buf| / BLOCK;
    forall b <- live, c <- live | b != c && b <= x < b + live[b].extent ensures !(c <= x < c + live[c].extent) {
      assert Apart(b, live[b].extent, c, live[c].extent);
    }
    forall b <- live, i | 0 <= i < |dead| && b <= x < b + live[b].extent ensures !(dead[i].0 <= x < dead[i].0 + dead[i].1) {
      assert Apart(b, live[b].extent, dead[i].0, dead[i].1);
    }
    forall i, j | 0 <= i < j < |dead| && dead[i].0 <= x < dead[i].0 + dead[i].1
      ensures !(dead[j].0 <= x < dead[j].0 + dead[j].1)
    {
      assert Apart(dead[i].0, dead[i].1, dead[j].0, dead[j].1);
    }
  }

  /** When the entry at `b` goes, blocks are lost if and only if its extent is more than its bytes take. */
  lemma {:induction false} LosesIffSpare(blocks: nat, live: map<nat, Entry>, dead: seq<(nat, nat)>, lost: set<nat>, b: nat)
    requires Accounted(blocks, live, dead, lost) && b in live
    ensures lost + Spare(b, live[b]) != lost <==> BlocksFor(Used(live[b].value, |live[b].owners|)) < live[b].extent
    ensures Spare(b, live[b]) !! lost
  {
    forall x <- Spare(b, live[b]) ensures InLive(live, x) && x !in lost {
    }
    var used := BlocksFor(Used(live[b].value, |live[b].owners|));
    if used < live[b].extent {
      assert b + used in Spare(b, live[b]);
    }
  }

  /** The blocks that adding an owner loses: the spare ones of an entry that moves. */
  function LostByAdd(live: map<nat, Entry>, size: nat, block: nat, owner: Id): set<nat> {
    if block in live && owner !in live[block].owners && Outgrows(block, live[block], size) then Spare(block, live[block]) else {}
  }

  /** One owner more takes another block, and the entry is not the last of the file. */
  predicate Outgrows(block: nat, e: Entry, size: nat) {
    var used := BlocksFor(Used(e.value, |e.owners|));
    used < BlocksFor(Used(e.value, |e.owners| + 1)) && (block + used) * BLOCK != size
  }

  /** The blocks that dropping an owner loses: the spare ones of an entry that dies. */
  function LostByRemove(live: map<nat, Entry>, block: nat, owner: Id): set<nat> {
    if block in live && live[block].owners == [owner] then Spare(block, live[block]) else {}
  }

  class HeapFile {
    var buffer: seq<Byte>
    var freed: seq<(nat, nat)>
    /** The live entries by block, and every range ever reported as freed. */
    ghost var live: map<nat, Entry>
    ghost var dead: seq<(nat, nat)>
    /** Blocks that are neither: no entry uses them and nothing reported them. */
    ghost var lost: set<nat>

    ghost predicate Valid()
      reads this
    {
      && Sound(buffer, live, dead) && Reported(freed, dead)
      && Accounted(|buffer| / BLOCK, live, dead, lost)
    }

    constructor ()
      ensures Valid() && live == map[] && buffer == [] && freed == [] && dead == [] && lost == {}
    {
      buffer, freed, live, dead, lost := [], [], map[], [], {};
    }

    /** Append a new entry with a single owner. */
    method AppendEntry(stored: seq<Byte>, owner: Id) returns (block: nat)
      requires Valid() && owner < Pow256(16)
      requires |buffer| + Used(stored, 1) + BLOCK < HEAP_LIMIT
      modifies `buffer, `live
      ensures Valid()
      ensures block !in old(live) && block * BLOCK == old(|buffer|)
      ensures live == old(live)[block := Entry(stored, [owner], BlocksFor(Used(stored, 1)))]
      ensures |buffer| == old(|buffer|) + BlocksFor(Used(stored, 1)) * BLOCK
    {
      hide Sound, Pow256, BlocksFor, Accounted;
      block := AppendRelocated(stored, [owner]);
    }

    /** Append an entry with a full owner list. */
    method AppendRelocated(value: seq<Byte>, owners: seq<Id>) returns (block: nat)
      requires Valid() && owners != [] && ValidOwners(owners)
      requires |buffer| + Used(value, |owners|) + BLOCK < HEAP_LIMIT
      modifies `buffer, `live
      ensures Valid()
      ensures block !in old(live) && block * BLOCK == old(|buffer|)
      ensures live == old(live)[block := Entry(value, owners, BlocksFor(Used(value, |owners|)))]
      ensures |buffer| == old(|buffer|) + BlocksFor(Used(value, |owners|)) * BLOCK
    {
      hide Accounted, Sound, Stands, Apart, Parts, At, Patch, LE, OwnerBytes, Layout, ValidOwners;
      block := BlocksFor(|buffer|);
      var start := block * BLOCK;
      assert start == |buffer| by { WholeBlocks(buffer, live, dead); }
      var n := BlocksFor(Used(value, |owners|));
      TailClear(buffer, live, dead, block, n);
      Grown(buffer, live, dead, Zeros(n * BLOCK));
      buffer := buffer + Zeros(start + n * BLOCK - |buffer|);

      HeadClear(buffer, live, dead, value, |owners|, block, n);
      HeadParts(buffer, start, value, |owners|);
      buffer := Patch(buffer, start, LE(8, |value|));
      buffer := Patch(buffer, start + 8, value);
      var countAt := start + 8 + |value|;
      buffer := Patch(buffer, countAt, LE(8, |owners|));
      assert OwnerBytes(owners[..0]) == [] by { NoOwners(owners[..0]); }
      var i := 0;
      while i < |owners|
        invariant 0 <= i <= |owners| && |buffer| == start + n * BLOCK && live == old(live)
        invariant Sound(buffer, live, dead)
        invariant Parts(buffer, start, value, |owners|, OwnerBytes(owners[..i]))
      {
        var at := countAt + 8 + 16 * i;
        WrittenClear(buffer, live, dead, at, LE(16, owners[i]), block, n);
        ListExtended(buffer, start, value, |owners|, OwnerBytes(owners[..i]), LE(16, owners[i]));
        OwnersAppend(owners[..i], owners[i]);
        assert owners[..i] + [owners[i]] == owners[..i + 1];
        buffer := Patch(buffer, at, LE(16, owners[i]));
        i := i + 1;
      }
      assert owners[..i] == owners;
      var e := Entry(value, owners, n);
      LayoutParts(buffer, start, value, owners);
      assert Stands(buffer, block, e) by { EntryStands(buffer, block, e); }
      Admitted(buffer, live, dead, block, e);
      AccountNew(block, live, dead, lost, e);
      live := live[block := e];
    }

    /** The stored bytes of the entry at `block`. */
    method ReadValue(block: nat) returns (r: Result<seq<Byte>>)
      requires Valid()
      ensures block in live ==> r == Ok(live[block].value)
      ensures r.Err? <==> EntryOf(buffer, block).Err?
      ensures r.Err? ==> r.error == EntryOf(buffer, block).error
    {
      hide Accounted, EntryOf, Stands, FromLE;
      if block in live {
        LiveParses(buffer, block, live[block]);
      }
      var parsed := EntryOf(buffer, block);
      if parsed.Err? {
        return Err(parsed.error);
      }
      var e := parsed.value;
      r := Ok(buffer[e.start + 8..e.start + 8 + e.size]);
    }

    /** The owner list of the entry at `block`. */
    method Owners(block: nat) returns (r: Result<seq<Id>>)
      requires Valid()
      ensures block in live ==> r == Ok(live[block].owners)
      ensures r.Err? <==> EntryOf(buffer, block).Err?
      ensures r.Err? ==> r.error == EntryOf(buffer, block).error
    {
      hide Accounted, EntryOf, Stands, FromLE, Pow256, Layout, At;
      if block in live {
        LiveParses(buffer, block, live[block]);
      }
      var parsed := EntryOf(buffer, block);
      if parsed.Err? {
        return Err(parsed.error);
      }
      var e := parsed.value;
      var out := [];
      var i := 0;
      while i < e.count
        invariant 0 <= i <= e.count
        invariant block in live ==> out == live[block].owners[..i]
      {
        var at := e.OwnerSlot(i);
        if block in live {
          OwnerSlotIs(buffer, block, live[block], i, 0);
        }
        out := out + [FromLE(buffer[at..at + 16])];
        i := i + 1;
      }
      if block in live {
        assert live[block].owners[..i] == live[block].owners;
      }
      r := Ok(out);
    }

    /** The first slot that spells `owner`, or the owner count. */
    method FindOwner(block: nat, e: View, owner: Id) returns (i: nat)
      requires Valid() && block in live && owner < Pow256(16)
      requires e == View(block * BLOCK, |live[block].value|, |live[block].owners|)
      ensures i <= e.count && owner !in live[block].owners[..i]
      ensures i < e.count ==> live[block].owners[i] == owner
    {
      hide Accounted, EntryOf, Stands, FromLE, LE, Pow256, Layout, At;
      i := 0;
      while i < e.count
        invariant i <= e.count && owner !in live[block].owners[..i]
      {
        OwnerSlotIs(buffer, block, live[block], i, owner);
        var at := e.OwnerSlot(i);
        if buffer[at..at + 16] == LE(16, owner) {
          return;
        }
        i := i + 1;
      }
    }

    /** Copy the entry to the tail with `owner` added, and free the blocks its bytes took; spare ones are lost. */
    method Relocate(block: nat, oldAlloc: nat, owner: Id) returns (newBlock: nat)
      requires Valid() && block in live && owner < Pow256(16) && owner !in live[block].owners
      requires oldAlloc == BlocksFor(Used(live[block].value, |live[block].owners|))
      requires |buffer| + Used(live[block].value, |live[block].owners| + 1) + BLOCK < HEAP_LIMIT
      modifies this
      ensures Valid()
      ensures newBlock !in old(live) && newBlock * BLOCK == old(|buffer|)
      ensures var e := old(live)[block];
              live == (old(live) - {block})[newBlock :=
                Entry(e.value, e.owners + [owner], BlocksFor(Used(e.value, |e.owners| + 1)))]
      ensures freed == old(freed) + [(block, oldAlloc)] && dead == old(dead) + [(block, oldAlloc)]
      ensures lost == old(lost) + Spare(block, old(live)[block])
    {
      hide EntryOf, Stands, Pow256, Sound, Reported, BlocksFor, Accounted;
      SoundAt(buffer, live, dead, block);
      var value := ReadValue(block);
      var owners := Owners(block);
      newBlock := AppendRelocated(value.value, owners.value + [owner]);
      SoundAt(buffer, live, dead, block);
      UsesBlocks(live[block]);
      Released(buffer, live, dead, block, oldAlloc);
      AccountGone(buffer, live, dead, lost, block, |buffer| / BLOCK);
      lost := lost + Spare(block, live[block]);
      ReportedPush(freed, dead, (block, oldAlloc));
      freed := freed + [(block, oldAlloc)];
      dead := dead + [(block, oldAlloc)];
      live := live - {block};
    }

    /** Add an owner. `Some(b)`: the entry moved to block `b` and the caller must say so in its anchor. */
    method AddOwner(block: nat, owner: Id) returns (r: Result<Option<nat>>)
      requires Valid() && owner < Pow256(16)
      requires block in live || EntryOf(buffer, block).Err?
      requires block in live ==> |buffer| + Used(live[block].value, |live[block].owners| + 1) + BLOCK < HEAP_LIMIT
      modifies this
      ensures Valid()
      ensures block !in old(live) ==> r.Err? && unchanged(this)
      ensures block in old(live) ==> Added(old(live), old(dead), |old(buffer)|, block, owner, r, live, dead, |buffer|)
      ensures block in old(live) && owner in old(live)[block].owners ==> unchanged(this)
      ensures |freed| - |old(freed)| == |dead| - |old(dead)|
      ensures lost == old(lost) + LostByAdd(old(live), |old(buffer)|, block, owner)
    {
      hide Accounted, Spare, EntryOf, Stands, FromLE, LE, Pow256, Layout, At, Sound, Patch, Reported, BlocksFor;
      if block in live {
        SoundAt(buffer, live, dead, block);
        LiveParses(buffer, block, live[block]);
      }
      var parsed := EntryOf(buffer, block);
      if parsed.Err? {
        return Err(parsed.error);
      }
      var e := parsed.value;
      ghost var was := live[block];
      var found := FindOwner(block, e, owner);
      if found < e.count {
        return Ok(None);
      }
      assert was.owners[..found] == was.owners;

      var oldAlloc := BlocksFor(e.InUse());
      var newAlloc := BlocksFor(e.InUse() + 16);
      if newAlloc > oldAlloc {
        if e.start + oldAlloc * BLOCK == |buffer| {
          Lengthened(buffer, live, dead, block);
          AccountSame(|buffer| / BLOCK, live, dead, lost, block, was.(extent := was.extent + 1), 1);
          buffer := buffer + Zeros(BLOCK);
          live := live[block := was.(extent := was.extent + 1)];
        } else {
          var newBlock := Relocate(block, oldAlloc, owner);
          return Ok(Some(newBlock));
        }
      }

      ghost var e2 := live[block].(owners := was.owners + [owner]);
      OwnerWritten(buffer, live, dead, block, owner);
      AccountSame(|buffer| / BLOCK, live, dead, lost, block, e2, 0);
      PutSlot(e, owner);
      live := live[block := e2];
      return Ok(None);
    }

    /** Count one owner more and write it behind the others. */
    method PutSlot(e: View, owner: Id)
      requires e.start + e.InUse() + 16 <= |buffer|
      modifies `buffer
      ensures |buffer| == old(|buffer|)
      ensures buffer == Patch(Patch(old(buffer), e.CountAt(), LE(8, e.count + 1)), e.OwnerSlot(e.count), LE(16, owner))
    {
      buffer := Patch(buffer, e.CountAt(), LE(8, e.count + 1));
      buffer := Patch(buffer, e.OwnerSlot(e.count), LE(16, owner));
    }

    /** Drop an owner. True: the entry is dead; the blocks its bytes took are freed, and spare ones are lost. */
    method RemoveOwner(block: nat, owner: Id) returns (r: Result<bool>)
      requires Valid() && owner < Pow256(16)
      requires block in live || EntryOf(buffer, block).Err?
      modifies this
      ensures Valid() && |buffer| == old(|buffer|)
      ensures block !in old(live) ==> r.Err? && unchanged(this)
      ensures block in old(live) ==> Removed(old(live), old(dead), block, owner, r, live, dead)
      ensures block in old(live) && owner !in old(live)[block].owners ==> unchanged(this)
      ensures |freed| - |old(freed)| == |dead| - |old(dead)|
      ensures lost == old(lost) + LostByRemove(old(live), block, owner)
    {
      hide Accounted, Spare, EntryOf, Stands, FromLE, LE, Pow256, Layout, At, Sound, Patch, Reported, BlocksFor, SwapRemove;
      if block in live {
        SoundAt(buffer, live, dead, block);
        LiveParses(buffer, block, live[block]);
      }
      var parsed := EntryOf(buffer, block);
      if parsed.Err? {
        return Err(parsed.error);
      }
      var e := parsed.value;
      ghost var was := live[block];
      var found := FindOwner(block, e, owner);
      if found == e.count {
        assert was.owners[..found] == was.owners;
        return Ok(e.count == 0);
      }

      OwnerDropped(buffer, live, dead, block, found);
      Released(buffer, live, dead, block, BlocksFor(e.InUse()));
      AccountGone(buffer, live, dead, lost, block, |buffer| / BLOCK);
      DropSlot(block, e, found);
      if e.count == 1 {
        ReportedPush(freed, dead, (block, BlocksFor(e.InUse())));
        freed := freed + [(block, BlocksFor(e.InUse()))];
        dead := dead + [(block, BlocksFor(e.InUse()))];
        lost := lost + Spare(block, was);
        live := live - {block};
        return Ok(true);
      }
      AccountSame(|buffer| / BLOCK, live, dead, lost, block, was.(owners := SwapRemove(was.owners, found)), 0);
      live := live[block := was.(owners := SwapRemove(was.owners, found))];
      return Ok(false);
    }

    /** Swap-remove: the last owner moves into the freed slot, and the count goes down. */
    method DropSlot(block: nat, e: View, found: nat)
      requires Sound(buffer, live, dead) && block in live && found < e.count
      requires e == View(block * BLOCK, |live[block].value|, |live[block].owners|)
      requires block * BLOCK + Used(live[block].value, |live[block].owners|) <= |buffer|
      modifies `buffer
      ensures |buffer| == old(|buffer|)
      ensures buffer == OwnerSwapped(old(buffer), block * BLOCK, live[block], found)
    {
      hide EntryOf, Stands, FromLE, LE, Pow256, Layout, At, Sound, Patch;
      var last := e.count - 1;
      ghost var was := live[block];
      SoundAt(buffer, live, dead, block);
      OwnerSlotIs(buffer, block, was, last, was.owners[last]);
      if found != last {
        var from, to := e.OwnerSlot(last), e.OwnerSlot(found);
        buffer := Patch(buffer, to, buffer[from..from + 16]);
      }
      buffer := Patch(buffer, e.CountAt(), LE(8, last));
    }

    /** Hand over the ranges freed since the last call. */
    method TakeFreed() returns (taken: seq<(nat, nat)>)
      requires Valid()
      modifies `freed
      ensures Valid() && taken == old(freed) && freed == []
    {
      taken := freed;
      freed := [];
    }
  }

  /** What dropping `owner` does to the live entries; the entry dies with its last owner. */
  ghost predicate Removed(live0: map<nat, Entry>, dead0: seq<(nat, nat)>, block: nat, owner: Id,
                          r: Result<bool>, live: map<nat, Entry>, dead: seq<(nat, nat)>)
    requires block in live0
  {
    var e := live0[block];
    if owner !in e.owners then r == Ok(false) && live == live0 && dead == dead0
    else if |e.owners| == 1 then
      && r == Ok(true) && live == live0 - {block}
      && dead == dead0 + [(block, BlocksFor(Used(e.value, 1)))]
    else
      && r == Ok(false) && dead == dead0
      && exists i | 0 <= i < |e.owners| && e.owners[i] == owner ::
           live == live0[block := e.(owners := SwapRemove(e.owners, i))]
  }

  /**
   * What adding `owner` does to the live entries: nothing if it is listed; otherwise the list grows by it.
   * The entry moves exactly when its list outgrows its blocks and another block follows them,
   * and the blocks its bytes took are then freed; at the tail one more block is enough.
   */
  ghost predicate Added(live0: map<nat, Entry>, dead0: seq<(nat, nat)>, size0: nat, block: nat, owner: Id,
                        r: Result<Option<nat>>, live: map<nat, Entry>, dead: seq<(nat, nat)>, size: nat)
    requires block in live0
  {
    var e := live0[block];
    var used := BlocksFor(Used(e.value, |e.owners|));
    var needed := BlocksFor(Used(e.value, |e.owners| + 1));
    var listed := e.(owners := e.owners + [owner]);
    if owner in e.owners then r == Ok(None) && live == live0 && dead == dead0 && size == size0
    else if needed == used then
      r == Ok(None) && live == live0[block := listed] && dead == dead0 && size == size0
    else if (block + used) * BLOCK == size0 then
      && r == Ok(None) && live == live0[block := listed.(extent := e.extent + 1)] && dead == dead0
      && size == size0 + BLOCK
    else
      && r.Ok? && r.value.Some? && r.value.value !in live0 && r.value.value * BLOCK == size0
      && live == (live0 - {block})[r.value.value := listed.(extent := needed)]
      && dead == dead0 + [(block, used)]
  }

  lemma {:induction false} UsesBlocks(e: Entry)
    ensures BlocksFor(Used(e.value, |e.owners|)) > 0
  {
  }

  lemma {:induction false} WholeBlocks(buf: seq<Byte>, live: map<nat, Entry>, dead: seq<(nat, nat)>)
    requires Sound(buf, live, dead)
    ensures BlocksFor(|buf|) * BLOCK == |buf|
  {
  }

  lemma {:induction false} NoOwners(owners: seq<Id>)
    requires owners == []
    ensures OwnerBytes(owners) == []
  {
  }

  lemma {:induction false} EntryStands(buf: seq<Byte>, b: nat, e: Entry)
    requires e.owners != [] && ValidOwners(e.owners) && Used(e.value, |e.owners|) <= e.extent * BLOCK
    requires (b + e.extent) * BLOCK <= |buf| && At(buf, b * BLOCK, Layout(e.value, e.owners))
    ensures Stands(buf, b, e)
  {
  }

  lemma {:induction false} SoundAt(buf: seq<Byte>, live: map<nat, Entry>, dead: seq<(nat, nat)>, b: nat)
    requires Sound(buf, live, dead) && b in live
    ensures Stands(buf, b, live[b]) && |buf| < HEAP_LIMIT && |buf| % BLOCK == 0
    ensures (b + live[b].extent) * BLOCK <= |buf| && live[b].extent > 0 && live[b].owners != []
    ensures ValidOwners(live[b].owners)
    ensures BlocksFor(Used(live[b].value, |live[b].owners|)) <= live[b].extent
  {
    hide Apart, At, Layout, ValidOwners;
  }

  /** The last entry of the file takes over a block added behind it. */
  lemma {:induction false} Lengthened(buf: seq<Byte>, live: map<nat, Entry>, dead: seq<(nat, nat)>, b: nat)
    requires Sound(buf, live, dead) && b in live && (b + live[b].extent) * BLOCK == |buf|
    requires |buf| + BLOCK < HEAP_LIMIT
    ensures Sound(buf + Zeros(BLOCK), live[b := live[b].(extent := live[b].extent + 1)], dead)
  {
    hide Stands;
    var e := live[b].(extent := live[b].extent + 1);
    var now := buf + Zeros(BLOCK);
    assert Stands(now, b, e) by {
      ExtendFrame(buf, Zeros(BLOCK), b, live[b]);
      LiveStands(now, b, live[b]);
      EntryStands(now, b, e);
    }
    forall c <- live | c != b ensures Apart(c, live[c].extent, b, e.extent) {
      assert Apart(c, live[c].extent, b, live[b].extent);
      StandsBound(buf, c, live[c]);
    }
    forall i | 0 <= i < |dead| ensures Apart(b, e.extent, dead[i].0, dead[i].1) {
      assert Apart(b, live[b].extent, dead[i].0, dead[i].1);
      assert (dead[i].0 + dead[i].1) * BLOCK <= |buf|;
    }
    Grown(buf, live, dead, Zeros(BLOCK));
    Admitted(now, live, dead, b, e);
  }

  /** Count and owner written behind the list: the entry has one owner more. */
  lemma {:induction false} OwnerWritten(buf: seq<Byte>, live: map<nat, Entry>, dead: seq<(nat, nat)>, b: nat, o: Id)
    requires Sound(buf, live, dead) && b in live && o < Pow256(16) && o !in live[b].owners
    requires Used(live[b].value, |live[b].owners| + 1) <= live[b].extent * BLOCK
    ensures var e := live[b];
            var countAt := b * BLOCK + 8 + |e.value|;
            && countAt + 8 + 16 * |e.owners| + 16 <= |buf|
            && Sound(Patch(Patch(buf, countAt, LE(8, |e.owners| + 1)), countAt + 8 + 16 * |e.owners|, LE(16, o)),
                     live[b := e.(owners := e.owners + [o])], dead)
  {
    hide Stands, Sound, Apart, At, LE, Patch, Layout, Pow256;
    var e := live[b];
    var countAt := b * BLOCK + 8 + |e.value|;
    SoundAt(buf, live, dead, b);
    Dropped(buf, live, dead, b);
    var rest := live - {b};
    OwnerPut(buf, b * BLOCK, e.value, e.owners, o) by { LiveStands(buf, b, e); }
    var mid := Patch(buf, countAt, LE(8, |e.owners| + 1));
    WrittenClear(buf, rest, dead, countAt, LE(8, |e.owners| + 1), b, e.extent);
    WrittenClear(mid, rest, dead, countAt + 8 + 16 * |e.owners|, LE(16, o), b, e.extent);
    var now := Patch(mid, countAt + 8 + 16 * |e.owners|, LE(16, o));
    var e2 := e.(owners := e.owners + [o]);
    EntryStands(now, b, e2);
    Admitted(now, rest, dead, b, e2);
    assert rest[b := e2] == live[b := e2];
  }

  lemma {:induction false} LiveStands(buf: seq<Byte>, b: nat, e: Entry)
    requires Stands(buf, b, e)
    ensures At(buf, b * BLOCK, Layout(e.value, e.owners))
    ensures e.owners != [] && ValidOwners(e.owners) && Used(e.value, |e.owners|) <= e.extent * BLOCK
  {
  }

  /** Buffer after owner `i` of an entry is swapped out and the count lowered. */
  function OwnerSwapped(buf: seq<Byte>, p: nat, e: Entry, i: nat): (r: seq<Byte>)
    requires i < |e.owners| && p + Used(e.value, |e.owners|) <= |buf|
    ensures |r| == |buf|
  {
    var last := |e.owners| - 1;
    var swapped := if i == last then buf else Patch(buf, p + 16 + |e.value| + 16 * i, LE(16, e.owners[last]));
    Patch(swapped, p + 8 + |e.value|, LE(8, last))
  }

  lemma {:induction false} SwappedAt(buf: seq<Byte>, p: nat, e: Entry, i: nat)
    requires i < |e.owners| && p + Used(e.value, |e.owners|) <= |buf| && At(buf, p, Layout(e.value, e.owners))
    ensures At(OwnerSwapped(buf, p, e, i), p, Layout(e.value, SwapRemove(e.owners, i)))
  {
    hide At, Layout, LE, Patch;
    var last := |e.owners| - 1;
    if i == last {
      CountPut(buf, p, e.value, e.owners, last);
      assert e.owners[i := e.owners[last]] == e.owners;
    } else {
      OwnerReplaced(buf, p, e.value, e.owners, i, e.owners[last]);
      CountPut(Patch(buf, p + 16 + |e.value| + 16 * i, LE(16, e.owners[last])), p, e.value,
               e.owners[i := e.owners[last]], last);
    }
  }

  /** Dropping owner `i` disturbs no other entry, and leaves this one standing unless that was its last owner. */
  lemma {:induction false} OwnerDropped(buf: seq<Byte>, live: map<nat, Entry>, dead: seq<(nat, nat)>, b: nat, i: nat)
    requires Sound(buf, live, dead) && b in live && i < |live[b].owners|
    ensures b * BLOCK + Used(live[b].value, |live[b].owners|) <= |buf|
    ensures var now := OwnerSwapped(buf, b * BLOCK, live[b], i);
            && (forall rest, gone | Sound(buf, rest, gone) && rest == live - {b} :: Sound(now, rest, gone))
            && (|live[b].owners| > 1 ==>
                  Sound(now, live[b := live[b].(owners := SwapRemove(live[b].owners, i))], dead))
  {
    hide Stands, Sound, Apart, At, LE, Patch, Layout, Pow256;
    var e, p := live[b], b * BLOCK;
    SoundAt(buf, live, dead, b);
    Dropped(buf, live, dead, b);
    var rest := live - {b};
    var now := OwnerSwapped(buf, p, e, i);
    forall gone | Sound(buf, rest, gone) ensures Sound(now, rest, gone) {
      SwapClear(buf, rest, gone, b, e, i);
    }
    if |e.owners| > 1 {
      LiveStands(buf, b, e);
      SwappedAt(buf, p, e, i);
      SwapRemoveDrops(e.owners, i, e.owners[i]);
      var e2 := e.(owners := SwapRemove(e.owners, i));
      EntryStands(now, b, e2);
      Admitted(now, rest, dead, b, e2);
      assert rest[b := e2] == live[b := e2];
    }
  }

  lemma {:induction false} SwapClear(buf: seq<Byte>, rest: map<nat, Entry>, dead: seq<(nat, nat)>, b: nat, e: Entry, i: nat)
    requires Sound(buf, rest, dead) && i < |e.owners|
    requires Used(e.value, |e.owners|) <= e.extent * BLOCK && (b + e.extent) * BLOCK <= |buf|
    requires forall c <- rest :: Apart(c, rest[c].extent, b, e.extent)
    ensures Sound(OwnerSwapped(buf, b * BLOCK, e, i), rest, dead)
  {
    hide Sound, Apart, LE, Patch;
    var last, p := |e.owners| - 1, b * BLOCK;
    var slot := LE(16, e.owners[last]);
    var swapped := buf;
    if i != last {
      WrittenClear(buf, rest, dead, p + 16 + |e.value| + 16 * i, slot, b, e.extent);
      swapped := Patch(buf, p + 16 + |e.value| + 16 * i, slot);
    }
    WrittenClear(swapped, rest, dead, p + 8 + |e.value|, LE(8, last), b, e.extent);
  }

  /** A value of 4064 bytes and one owner fill a block; a second owner that came and went leaves a spare one. */
  method WithSpareBlock(value: seq<Byte>, a: Id, b: Id) returns (heap: HeapFile)
    requires |value| == 4064 && a < Pow256(16) && b < Pow256(16) && a != b
    ensures fresh(heap) && heap.Valid() && |heap.buffer| == 2 * BLOCK
    ensures heap.live == map[0 := Entry(value, [a], 2)] && heap.dead == [] && heap.lost == {}
  {
    hide Pow256, Sound, Accounted, Reported;
    heap := new HeapFile();
    var block := heap.AppendEntry(value, a);
    assert heap.live == map[0 := Entry(value, [a], 1)];
    var moved := heap.AddOwner(block, b);
    assert [a] + [b] == [a, b];
    assert heap.live == map[0 := Entry(value, [a, b], 2)];
    var dies := heap.RemoveOwner(block, b);
    LeavesFirst(a, b);
  }

  /** If the first owner leaves too, one block is freed and the other is lost. */
  method SecondBlockIsLost(value: seq<Byte>, a: Id, b: Id) returns (heap: HeapFile)
    requires |value| == 4064 && a < Pow256(16) && b < Pow256(16) && a != b
    ensures heap.Valid() && |heap.buffer| == 2 * BLOCK
    ensures heap.live == map[] && heap.dead == [(0, 1)] && heap.lost == {1}
  {
    hide Pow256, Sound, Accounted, Reported;
    heap := WithSpareBlock(value, a, b);
    var dies := heap.RemoveOwner(0, a);
    assert Spare(0, Entry(value, [a], 2)) == {1};
  }

  /** If the second owner comes back, the entry moves although its spare block has room, and that block is lost. */
  method MovesAwayFromRoom(value: seq<Byte>, a: Id, b: Id) returns (heap: HeapFile)
    requires |value| == 4064 && a < Pow256(16) && b < Pow256(16) && a != b
    ensures heap.Valid() && heap.live.Keys == {2} && heap.dead == [(0, 1)] && heap.lost == {1}
  {
    hide Pow256, Sound, Accounted, Reported;
    heap := WithSpareBlock(value, a, b);
    var moved := heap.AddOwner(0, b);
    assert Spare(0, Entry(value, [a], 2)) == {1};
  }

  lemma {:induction false} LeavesFirst(a: Id, b: Id)
    requires a != b
    ensures forall i :: 0 <= i < 2 && [a, b][i] == b ==> SwapRemove([a, b], i) == [a]
  {
  }
}
