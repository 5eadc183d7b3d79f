/** The bytes of a heap entry: `[size][value][owner count][owners]`, in whole blocks. */
module HeapLayout {
  import opened Bytes
  import opened Ids

  const BLOCK: nat := 4096
  const HEAP_LIMIT: nat := ALLOCATION_LIMIT

  function BlocksFor(bytes: nat): (r: nat)
    ensures bytes <= r * BLOCK < bytes + BLOCK
  {
    (bytes + 4095) / 4096
  }

  function OwnerBytes(owners: seq<Id>): (r: seq<Byte>)
    ensures |r| == 16 * |owners|
  {
    if owners == [] then [] else LE(16, owners[0]) + OwnerBytes(owners[1..])
  }

  function Head(value: seq<Byte>): (r: seq<Byte>)
    ensures |r| == 8 + |value|
  {
    LE(8, |value|) + value
  }

  function Layout(value: seq<Byte>, owners: seq<Id>): (r: seq<Byte>)
    ensures |r| == Used(value, |owners|)
  {
    Head(value) + LE(8, |owners|) + OwnerBytes(owners)
  }

  /** Bytes in use by an entry with `count` owners. */
  function Used(value: seq<Byte>, count: nat): nat {
    8 + |value| + 8 + 16 * count
  }

  predicate ValidOwners(owners: seq<Id>) {
    && (forall i :: 0 <= i < |owners| ==> owners[i] < Pow256(16))
    && (forall i, j :: 0 <= i < j < |owners| ==> owners[i] != owners[j])
  }

  // ----- Owner lists -----

  lemma {:induction false} OwnerAt(buf: seq<Byte>, p: nat, owners: seq<Id>, i: nat)
    requires At(buf, p, OwnerBytes(owners)) && i < |owners|
    ensures At(buf, p + 16 * i, LE(16, owners[i]))
    decreases i
  {
    hide LE, At;
    AtConcat(buf, p, LE(16, owners[0]), OwnerBytes(owners[1..]));
    if i > 0 {
      OwnerAt(buf, p + 16, owners[1..], i - 1);
    }
  }

  lemma {:induction false} OwnersAppend(owners: seq<Id>, o: Id)
    ensures OwnerBytes(owners + [o]) == OwnerBytes(owners) + LE(16, o)
  {
    hide LE;
    if owners == [] {
      assert [o][1..] == [];
    } else {
      OwnersAppend(owners[1..], o);
      assert (owners + [o])[1..] == owners[1..] + [o];
    }
  }

  lemma {:induction false} OwnersConcat(a: seq<Id>, b: seq<Id>)
    ensures OwnerBytes(a + b) == OwnerBytes(a) + OwnerBytes(b)
  {
    hide LE;
    if a == [] {
      assert a + b == b;
    } else {
      OwnersConcat(a[1..], b);
      assert (a + b)[1..] == a[1..] + b;
    }
  }

  /** Writing owner `o` over owner `i` changes just that owner. */
  lemma {:induction false} OwnersPatched(buf: seq<Byte>, p: nat, owners: seq<Id>, i: nat, o: Id)
    requires At(buf, p, OwnerBytes(owners)) && i < |owners| && p + 16 * |owners| <= |buf|
    ensures At(Patch(buf, p + 16 * i, LE(16, o)), p, OwnerBytes(owners[i := o]))
  {
    hide LE, At, Patch, OwnerBytes;
    var a, b := owners[..i], owners[i + 1..];
    assert owners == a + [owners[i]] + b && owners[i := o] == a + [o] + b;
    SplitOwners(a, owners[i], b);
    SplitOwners(a, o, b);
    AtThree(buf, p, OwnerBytes(a), LE(16, owners[i]), OwnerBytes(b));
    var r := Patch(buf, p + 16 * i, LE(16, o));
    PatchBeside(buf, p + 16 * i, LE(16, o), p, OwnerBytes(a));
    PatchBeside(buf, p + 16 * i, LE(16, o), p + 16 * i + 16, OwnerBytes(b));
    PatchedAt(buf, p + 16 * i, LE(16, o));
    AtThree(r, p, OwnerBytes(a), LE(16, o), OwnerBytes(b));
  }

  lemma {:induction false} SplitOwners(a: seq<Id>, o: Id, b: seq<Id>)
    ensures OwnerBytes(a + [o] + b) == OwnerBytes(a) + LE(16, o) + OwnerBytes(b)
  {
    hide LE;
    OwnersConcat(a + [o], b);
    OwnersAppend(a, o);
  }

  lemma {:induction false} AtThree(buf: seq<Byte>, p: nat, a: seq<Byte>, b: seq<Byte>, c: seq<Byte>)
    ensures At(buf, p, a + b + c) <==> At(buf, p, a) && At(buf, p + |a|, b) && At(buf, p + |a| + |b|, c)
  {
    hide At;
    AtConcat(buf, p, a + b, c);
    AtConcat(buf, p, a, b);
  }

  /** A shorter owner list is what a shorter stretch of the bytes spells. */
  lemma {:induction false} OwnersPrefix(buf: seq<Byte>, p: nat, owners: seq<Id>, n: nat)
    requires At(buf, p, OwnerBytes(owners)) && n <= |owners|
    ensures At(buf, p, OwnerBytes(owners[..n]))
  {
    hide At, LE, OwnerBytes;
    assert owners == owners[..n] + owners[n..];
    OwnersConcat(owners[..n], owners[n..]);
    AtConcat(buf, p, OwnerBytes(owners[..n]), OwnerBytes(owners[n..]));
  }

  lemma {:induction false} OwnerEqual(a: Id, b: Id)
    requires a < Pow256(16) && b < Pow256(16)
    ensures LE(16, a) == LE(16, b) <==> a == b
  {
    hide LE, FromLE, Pow256;
    FromLEOfLE(16, a);
    FromLEOfLE(16, b);
  }

  // ----- Entries -----

  /** Parts of an entry whose count field says `count`. */
  predicate Parts(buf: seq<Byte>, p: nat, value: seq<Byte>, count: nat, list: seq<Byte>) {
    && At(buf, p, LE(8, |value|))
    && At(buf, p + 8, value)
    && At(buf, p + 8 + |value|, LE(8, count))
    && At(buf, p + 16 + |value|, list)
  }

  /** An entry stands at `p` when its parts do. */
  lemma {:induction false} LayoutParts(buf: seq<Byte>, p: nat, value: seq<Byte>, owners: seq<Id>)
    ensures At(buf, p, Layout(value, owners))
       <==> Parts(buf, p, value, |owners|, OwnerBytes(owners))
  {
    hide LE, OwnerBytes, At;
    AtThree(buf, p, Head(value), LE(8, |owners|), OwnerBytes(owners));
    AtConcat(buf, p, LE(8, |value|), value);
  }

  lemma {:induction false} Slot8(buf: seq<Byte>, p: nat, n: nat)
    requires At(buf, p, LE(8, n)) && n < 2 * HEAP_LIMIT
    ensures p + 8 <= |buf| && FromLE(buf[p..p + 8]) == n
  {
    hide LE, FromLE, Pow256;
    Pow256Of8();
    FromLEOfLE(8, n);
    var slot := LE(8, n);
    assert |slot| == 8;
    assert buf[p..p + 8] == slot;
  }

  lemma {:induction false} CountPatched(buf: seq<Byte>, p: nat, value: seq<Byte>, count: nat, list: seq<Byte>, n: nat)
    requires Parts(buf, p, value, count, list) && p + 16 + |value| <= |buf|
    ensures Parts(Patch(buf, p + 8 + |value|, LE(8, n)), p, value, n, list)
  {
    hide LE, At, Patch;
    var countAt, bs := p + 8 + |value|, LE(8, n);
    PatchBeside(buf, countAt, bs, p, LE(8, |value|));
    PatchBeside(buf, countAt, bs, p + 8, value);
    PatchBeside(buf, countAt, bs, p + 16 + |value|, list);
    PatchedAt(buf, countAt, bs);
  }

  lemma {:induction false} ListExtended(buf: seq<Byte>, p: nat, value: seq<Byte>, count: nat, list: seq<Byte>, bs: seq<Byte>)
    requires Parts(buf, p, value, count, list) && p + 16 + |value| + |list| + |bs| <= |buf|
    ensures Parts(Patch(buf, p + 16 + |value| + |list|, bs), p, value, count, list + bs)
  {
    hide LE, At, Patch;
    var at := p + 16 + |value| + |list|;
    PatchBeside(buf, at, bs, p, LE(8, |value|));
    PatchBeside(buf, at, bs, p + 8, value);
    PatchBeside(buf, at, bs, p + 8 + |value|, LE(8, count));
    PatchBeside(buf, at, bs, p + 16 + |value|, list);
    PatchedAt(buf, at, bs);
    AtConcat(Patch(buf, at, bs), p + 16 + |value|, list, bs);
  }

  /** Putting a count and an owner behind the list turns an entry into the one with that owner added. */
  lemma {:induction false} OwnerPut(buf: seq<Byte>, p: nat, value: seq<Byte>, owners: seq<Id>, o: Id)
    requires At(buf, p, Layout(value, owners)) && p + Used(value, |owners| + 1) <= |buf|
    ensures var countAt := p + 8 + |value|;
            var mid := Patch(buf, countAt, LE(8, |owners| + 1));
            At(Patch(mid, countAt + 8 + 16 * |owners|, LE(16, o)), p, Layout(value, owners + [o]))
  {
    hide LE, OwnerBytes, At, Patch;
    LayoutParts(buf, p, value, owners);
    var mid := Patch(buf, p + 8 + |value|, LE(8, |owners| + 1));
    CountPatched(buf, p, value, |owners|, OwnerBytes(owners), |owners| + 1);
    ListExtended(mid, p, value, |owners| + 1, OwnerBytes(owners), LE(16, o));
    OwnersAppend(owners, o);
    LayoutParts(Patch(mid, p + 16 + |value| + 16 * |owners|, LE(16, o)), p, value, owners + [o]);
  }

  /** Lowering the count drops owners from the end of the list. */
  lemma {:induction false} CountPut(buf: seq<Byte>, p: nat, value: seq<Byte>, owners: seq<Id>, n: nat)
    requires At(buf, p, Layout(value, owners)) && n <= |owners| && p + Used(value, |owners|) <= |buf|
    ensures At(Patch(buf, p + 8 + |value|, LE(8, n)), p, Layout(value, owners[..n]))
  {
    hide LE, OwnerBytes, At, Patch;
    LayoutParts(buf, p, value, owners);
    OwnersPrefix(buf, p + 16 + |value|, owners, n);
    CountPatched(buf, p, value, |owners|, OwnerBytes(owners[..n]), n);
    LayoutParts(Patch(buf, p + 8 + |value|, LE(8, n)), p, value, owners[..n]);
  }

  /** Overwriting one owner in place. */
  lemma {:induction false} OwnerReplaced(buf: seq<Byte>, p: nat, value: seq<Byte>, owners: seq<Id>, i: nat, o: Id)
    requires At(buf, p, Layout(value, owners)) && i < |owners| && p + Used(value, |owners|) <= |buf|
    ensures At(Patch(buf, p + 16 + |value| + 16 * i, LE(16, o)), p, Layout(value, owners[i := o]))
  {
    hide LE, OwnerBytes, At, Patch;
    LayoutParts(buf, p, value, owners);
    var at := p + 16 + |value| + 16 * i;
    OwnersPatched(buf, p + 16 + |value|, owners, i, o);
    PatchBeside(buf, at, LE(16, o), p, LE(8, |value|));
    PatchBeside(buf, at, LE(16, o), p + 8, value);
    PatchBeside(buf, at, LE(16, o), p + 8 + |value|, LE(8, |owners|));
    LayoutParts(Patch(buf, at, LE(16, o)), p, value, owners[i := o]);
  }
}
