/** Decoding undoes encoding: exactly for the values whose vectors have slotted elements. */
module WireRoundTrip {
  import opened Bytes
  import opened Wrappers
  import opened Wire
  import opened WireSizes
  import opened WireSteps

  /** `v` stands in `buf` with its stack slots at `sp` and its heap bytes at `hp`. */
  predicate Placed(env: Env, s: Schema, v: Value, buf: seq<Byte>, sp: nat, hp: nat)
    requires Typed(env, s, v)
  {
    sp + StackSize(s) <= hp && hp + |Heap(env, s, v)| <= |buf|
    && At(buf, sp, Stack(env, s, v)) && At(buf, hp, Heap(env, s, v))
  }

  predicate PlacedAll(env: Env, ss: List<Schema>, vs: List<Value>, buf: seq<Byte>, sp: nat, hp: nat)
    requires TypedAll(env, ss, vs)
  {
    sp + StackSum(ss) <= hp && hp + |HeapAll(env, ss, vs)| <= |buf|
    && At(buf, sp, StackAll(env, ss, vs)) && At(buf, hp, HeapAll(env, ss, vs))
  }

  lemma {:induction false} PlacedCons(env: Env, ss: List<Schema>, vs: List<Value>, buf: seq<Byte>, sp: nat, hp: nat)
    requires TypedAll(env, ss, vs) && vs.Cons? && PlacedAll(env, ss, vs, buf, sp, hp)
    ensures Placed(env, ss.head, vs.head, buf, sp, hp)
    ensures PlacedAll(env, ss.tail, vs.tail, buf, sp + StackSize(ss.head), hp + |Heap(env, ss.head, vs.head)|)
  {
    hide At, Stack, Heap, Typed, StackSize;
    AtConcat(buf, sp, Stack(env, ss.head, vs.head), StackAll(env, ss.tail, vs.tail));
    AtConcat(buf, hp, Heap(env, ss.head, vs.head), HeapAll(env, ss.tail, vs.tail));
  }

  lemma {:induction false} SlotReads(n: nat)
    requires n < U32_LIMIT
    ensures FromLE(LE(4, n)) == n
  {
    hide LE, FromLE, Pow256;
    Pow256Of4();
    FromLEOfLE(4, n);
  }

  lemma {:induction false} LeafPlaced(k: Leaf, i: int, buf: seq<Byte>, sp: nat)
    requires LeafValid(k, i) && At(buf, sp, LE(LeafWidth(k), LeafToNat(k, i)))
    ensures ReadLeaf(k, FromLE(buf[sp..sp + LeafWidth(k)])) == Ok(i)
  {
    hide LE, FromLE, Pow256, ReadLeaf, LeafValid;
    LeafToNatToLeaf(k, i);
    FromLEOfLE(LeafWidth(k), LeafToNat(k, i));
  }

  lemma {:induction false} FlagPlaced(buf: seq<Byte>, sp: nat, flag: Byte, rest: seq<Byte>)
    requires At(buf, sp, [flag] + rest)
    ensures sp + 1 + |rest| <= |buf| && buf[sp] == flag && At(buf, sp + 1, rest) && buf[sp + 1..sp + 1 + |rest|] == rest
  {
    AtConcat(buf, sp, [flag], rest);
    assert buf[sp..sp + 1] == [flag];
  }

  /** The length slot of a placed string, vector or enum payload yields its region. */
  lemma {:induction false} RegionFound(buf: seq<Byte>, sp: nat, hp: nat, region: seq<Byte>)
    requires sp + 4 <= hp && |region| < U32_LIMIT
    requires At(buf, sp, LE(4, |region|)) && At(buf, hp, region)
    ensures TakeRegion(buf, sp, hp) == Ok(region)
  {
    hide LE, FromLE, Pow256;
    SlotReads(|region|);
    var slot := LE(4, |region|);
    assert |slot| == 4;
    assert buf[sp..sp + 4] == slot;
  }

  lemma {:induction false} VecRegionFound(env: Env, e: Schema, vs: List<Value>, buf: seq<Byte>, sp: nat, hp: nat)
    requires var v := VList(vs); Typed(env, Vec(e), v) && Fits(env, Vec(e), v) && Placed(env, Vec(e), v, buf, sp, hp)
    ensures TakeRegion(buf, sp, hp) == Ok(Units(env, Rep(Len(vs), e), vs))
  {
    HeapLength(env, Vec(e), VList(vs));
    RegionFound(buf, sp, hp, Units(env, Rep(Len(vs), e), vs));
  }

  lemma {:induction false} PayloadFound(env: Env, k: nat, v: Value, buf: seq<Byte>, sp: nat, hp: nat)
    requires Typed(env, Enum(k), v) && Fits(env, Enum(k), v) && Placed(env, Enum(k), v, buf, sp, hp)
    ensures buf[sp] == v.tag && TakeRegion(buf, sp + 1, hp) == Ok(Heap(env, Enum(k), v))
  {
    HeapLength(env, Enum(k), v);
    FlagPlaced(buf, sp, v.tag, LE(4, HeapSize(env, Enum(k), v)));
    RegionFound(buf, sp + 1, hp, Heap(env, Enum(k), v));
  }

  lemma {:induction false} ReadPlaced(env: Env, strict: bool, s: Schema, v: Value, buf: seq<Byte>, sp: nat, hp: nat)
    requires Typed(env, s, v) && Fits(env, s, v) && Slotted(env, s, v)
    requires Placed(env, s, v, buf, sp, hp)
    ensures Read(env, strict, s, buf, sp, hp) == Ok((v, hp + |Heap(env, s, v)|))
    decreases v
  {
    hide At, Read, ReadAll, ReadElems, ReadPayload, ReadLeaf, LE, FromLE, ValidUtf8;
    match s
    case Leaf(k) =>
      LeafStep(env, strict, k, buf, sp, hp);
      LeafPlaced(k, v.i, buf, sp);
    case Str =>
      RegionFound(buf, sp, hp, v.bytes);
      StrStep(env, strict, buf, sp, hp, v.bytes);
    case Vec(e) =>
      VecRegionFound(env, e, v.vs, buf, sp, hp);
      ReadElemsPlaced(env, strict, e, v.vs);
      VecStep(env, strict, e, buf, sp, hp, Heap(env, s, v));
    case Opt(e) =>
      if v.VNone? {
        FlagPlaced(buf, sp, 0, Zeros(StackSize(e)));
        NoneStep(env, strict, e, buf, sp, hp);
      } else {
        FlagPlaced(buf, sp, 1, Stack(env, e, v.v));
        ReadPlaced(env, strict, e, v.v, buf, sp + 1, hp);
        SomeStep(env, strict, e, buf, sp, hp);
      }
    case Arr(n, e) =>
      ArrStep(env, strict, n, e, buf, sp, hp);
      ReadAllPlaced(env, strict, Rep(n, e), v.vs, buf, sp, hp);
    case Struct(fs) =>
      ReadAllPlaced(env, strict, fs, v.vs, buf, sp, hp);
      StructStep(env, strict, fs, buf, sp, hp);
    case Enum(k) =>
      PayloadFound(env, k, v, buf, sp, hp);
      ReadPayloadPlaced(env, strict, env[k][v.tag], v.vs);
      EnumStep(env, strict, k, buf, sp, hp, Heap(env, s, v));
  }

  lemma {:induction false} ReadAllPlaced(env: Env, strict: bool, ss: List<Schema>, vs: List<Value>, buf: seq<Byte>, sp: nat, hp: nat)
    requires TypedAll(env, ss, vs) && FitsAll(env, ss, vs) && SlottedAll(env, ss, vs)
    requires PlacedAll(env, ss, vs, buf, sp, hp)
    ensures ReadAll(env, strict, ss, buf, sp, hp) == Ok((vs, hp + |HeapAll(env, ss, vs)|))
    decreases vs, 0
  {
    hide At, Read, Stack, Heap, Typed, Fits, Slotted, StackSize;
    if vs.Cons? {
      var hp' := hp + |Heap(env, ss.head, vs.head)|;
      PlacedCons(env, ss, vs, buf, sp, hp);
      ReadPlaced(env, strict, ss.head, vs.head, buf, sp, hp);
      ReadAllPlaced(env, strict, ss.tail, vs.tail, buf, sp + StackSize(ss.head), hp');
      AllStep(env, strict, ss, buf, sp, hp);
    }
  }

  lemma {:induction false} UnitPlaced(env: Env, ss: List<Schema>, vs: List<Value>)
    requires TypedAll(env, ss, vs)
    ensures PlacedAll(env, ss, vs, StackAll(env, ss, vs) + HeapAll(env, ss, vs), 0, StackSum(ss))
  {
    AtConcat(StackAll(env, ss, vs) + HeapAll(env, ss, vs), 0, StackAll(env, ss, vs), HeapAll(env, ss, vs));
  }

  lemma {:induction false} ReadPayloadPlaced(env: Env, strict: bool, ss: List<Schema>, vs: List<Value>)
    requires TypedAll(env, ss, vs) && FitsAll(env, ss, vs) && SlottedAll(env, ss, vs)
    ensures ReadPayload(env, strict, ss, StackAll(env, ss, vs) + HeapAll(env, ss, vs)) == Ok(vs)
    decreases vs, 1
  {
    UnitPlaced(env, ss, vs);
    ReadAllPlaced(env, strict, ss, vs, StackAll(env, ss, vs) + HeapAll(env, ss, vs), 0, StackSum(ss));
  }

  lemma {:induction false} ReadElemsPlaced(env: Env, strict: bool, e: Schema, vs: List<Value>)
    requires TypedAll(env, Rep(Len(vs), e), vs) && FitsAll(env, Rep(Len(vs), e), vs)
    requires Slotted(env, Vec(e), VList(vs))
    ensures ReadElems(env, strict, e, Units(env, Rep(Len(vs), e), vs)) == Ok(vs)
    decreases vs, 1
  {
    var region := Units(env, Rep(Len(vs), e), vs);
    if Fixed(e) {
      FixedAllRep(Len(vs), e);
      FixedUnits(env, Rep(Len(vs), e), vs);
      StackSumRep(Len(vs), e);
      RunStep(env, strict, e, region, Len(vs));
      ReadAllPlaced(env, strict, Rep(Len(vs), e), vs, region, 0, |region|);
    } else if vs.Cons? {
      ReadUnitsPlaced(env, strict, e, vs, region, 0);
    }
  }

  /** Without heap bytes, units back to back are just stack slots back to back. */
  lemma {:induction false} FixedUnits(env: Env, ss: List<Schema>, vs: List<Value>)
    requires TypedAll(env, ss, vs) && FixedAll(ss)
    ensures Units(env, ss, vs) == StackAll(env, ss, vs) && HeapAll(env, ss, vs) == []
    decreases vs
  {
    if vs.Cons? {
      FixedHasNoHeap(env, ss.head, vs.head);
      HeapLength(env, ss.head, vs.head);
      FixedUnits(env, ss.tail, vs.tail);
    }
  }

  lemma {:induction false} ReadUnitsPlaced(env: Env, strict: bool, e: Schema, vs: List<Value>, region: seq<Byte>, offset: nat)
    requires StackSize(e) > 0
    requires TypedAll(env, Rep(Len(vs), e), vs) && FitsAll(env, Rep(Len(vs), e), vs) && SlottedAll(env, Rep(Len(vs), e), vs)
    requires UnitsAt(region, offset, Units(env, Rep(Len(vs), e), vs))
    ensures ReadUnits(env, strict, e, region, offset) == Ok(vs)
    decreases vs, 0
  {
    hide At, Read, Stack, Heap, Typed, Fits, Slotted, StackSize;
    if vs.Cons? {
      var st, hs, us := Stack(env, e, vs.head), Heap(env, e, vs.head), Units(env, Rep(Len(vs.tail), e), vs.tail);
      UnitAt(region, offset, st, hs, us);
      ReadPlaced(env, strict, e, vs.head, region, offset, offset + StackSize(e));
      ReadUnitsPlaced(env, strict, e, vs.tail, region, offset + |st| + |hs|);
      UnitsStep(env, strict, e, region, offset);
    }
  }

  /** `us` is what is left of `region` from `offset` on. */
  predicate UnitsAt(region: seq<Byte>, offset: nat, us: seq<Byte>) {
    offset + |us| == |region| && At(region, offset, us)
  }

  lemma {:induction false} UnitAt(region: seq<Byte>, offset: nat, st: seq<Byte>, hs: seq<Byte>, us: seq<Byte>)
    requires UnitsAt(region, offset, st + hs + us)
    ensures At(region, offset, st) && At(region, offset + |st|, hs)
    ensures UnitsAt(region, offset + |st| + |hs|, us)
  {
    hide At;
    AtConcat(region, offset, st + hs, us);
    AtConcat(region, offset, st, hs);
  }

  // ----- Values that do not come back -----

  /** A value with an unslotted vector is never read back, whatever follows it. */
  lemma {:induction false} UnslottedIsLost(env: Env, strict: bool, s: Schema, v: Value, buf: seq<Byte>, sp: nat, hp: nat)
    requires Typed(env, s, v) && Fits(env, s, v) && !Slotted(env, s, v)
    requires Placed(env, s, v, buf, sp, hp)
    ensures var r := Read(env, strict, s, buf, sp, hp); r.Ok? ==> r.value.0 != v
    decreases v
  {
    hide At, Read, LE, FromLE;
    match s
    case Vec(e) =>
      VecRegionFound(env, e, v.vs, buf, sp, hp);
      UnslottedElemsLost(env, strict, e, v.vs);
      VecStep(env, strict, e, buf, sp, hp, Heap(env, s, v));
    case Opt(e) =>
      FlagPlaced(buf, sp, 1, Stack(env, e, v.v));
      UnslottedIsLost(env, strict, e, v.v, buf, sp + 1, hp);
      SomeStep(env, strict, e, buf, sp, hp);
    case Arr(n, e) =>
      ArrStep(env, strict, n, e, buf, sp, hp);
      UnslottedAllLost(env, strict, Rep(n, e), v.vs, buf, sp, hp);
    case Struct(fs) =>
      UnslottedAllLost(env, strict, fs, v.vs, buf, sp, hp);
      StructStep(env, strict, fs, buf, sp, hp);
    case Enum(k) =>
      var ss := env[k][v.tag];
      var region := Heap(env, s, v);
      PayloadFound(env, k, v, buf, sp, hp);
      UnitPlaced(env, ss, v.vs);
      UnslottedAllLost(env, strict, ss, v.vs, region, 0, StackSum(ss));
      EnumStep(env, strict, k, buf, sp, hp, region);
  }

  lemma {:induction false} UnslottedAllLost(env: Env, strict: bool, ss: List<Schema>, vs: List<Value>, buf: seq<Byte>, sp: nat, hp: nat)
    requires TypedAll(env, ss, vs) && FitsAll(env, ss, vs) && !SlottedAll(env, ss, vs)
    requires PlacedAll(env, ss, vs, buf, sp, hp)
    ensures var r := ReadAll(env, strict, ss, buf, sp, hp); r.Ok? ==> r.value.0 != vs
    decreases vs, 0
  {
    hide At, Read, Stack, Heap, Typed, Fits, Slotted, StackSize, ReadAll;
    PlacedCons(env, ss, vs, buf, sp, hp);
    AllStep(env, strict, ss, buf, sp, hp);
    if Slotted(env, ss.head, vs.head) {
      var hp' := hp + |Heap(env, ss.head, vs.head)|;
      ReadPlaced(env, strict, ss.head, vs.head, buf, sp, hp);
      UnslottedAllLost(env, strict, ss.tail, vs.tail, buf, sp + StackSize(ss.head), hp');
    } else {
      UnslottedIsLost(env, strict, ss.head, vs.head, buf, sp, hp);
    }
  }

  lemma {:induction false} UnslottedElemsLost(env: Env, strict: bool, e: Schema, vs: List<Value>)
    requires TypedAll(env, Rep(Len(vs), e), vs) && FitsAll(env, Rep(Len(vs), e), vs)
    requires !Slotted(env, Vec(e), VList(vs))
    ensures ReadElems(env, strict, e, Units(env, Rep(Len(vs), e), vs)) != Ok(vs)
    decreases vs, 1
  {
    var region := Units(env, Rep(Len(vs), e), vs);
    if Fixed(e) && StackSize(e) > 0 {
      FixedAllRep(Len(vs), e);
      FixedUnits(env, Rep(Len(vs), e), vs);
      StackSumRep(Len(vs), e);
      RunStep(env, strict, e, region, Len(vs));
      UnslottedAllLost(env, strict, Rep(Len(vs), e), vs, region, 0, |region|);
    } else if !Fixed(e) && StackSize(e) > 0 {
      UnslottedUnitsLost(env, strict, e, vs, region, 0);
    } else if !Fixed(e) {
      UnslottedUnitsEmpty(env, e, vs);
    }
  }

  lemma {:induction false} UnslottedUnitsLost(env: Env, strict: bool, e: Schema, vs: List<Value>, region: seq<Byte>, offset: nat)
    requires StackSize(e) > 0
    requires TypedAll(env, Rep(Len(vs), e), vs) && FitsAll(env, Rep(Len(vs), e), vs) && !SlottedAll(env, Rep(Len(vs), e), vs)
    requires UnitsAt(region, offset, Units(env, Rep(Len(vs), e), vs))
    ensures ReadUnits(env, strict, e, region, offset) != Ok(vs)
    decreases vs, 0
  {
    hide At, Read, Stack, Heap, Typed, Fits, Slotted, StackSize, ReadUnits;
    var st, hs, us := Stack(env, e, vs.head), Heap(env, e, vs.head), Units(env, Rep(Len(vs.tail), e), vs.tail);
    UnitAt(region, offset, st, hs, us);
    UnitsStep(env, strict, e, region, offset);
    if Slotted(env, e, vs.head) {
      ReadPlaced(env, strict, e, vs.head, region, offset, offset + StackSize(e));
      UnslottedUnitsLost(env, strict, e, vs.tail, region, offset + |st| + |hs|);
    } else {
      UnslottedIsLost(env, strict, e, vs.head, region, offset, offset + StackSize(e));
    }
  }

  /** A type without stack slots has no length slot either, so it writes nothing at all. */
  lemma {:induction false} NoSlotNoHeap(env: Env, s: Schema, v: Value)
    requires Typed(env, s, v) && StackSize(s) == 0
    ensures Heap(env, s, v) == []
    decreases v
  {
    match s
    case Leaf(_) =>
    case Str =>
    case Vec(_) =>
    case Opt(_) =>
    case Enum(_) =>
    case Arr(n, e) => StackSumRep(n, e); NoSlotNoHeapAll(env, Rep(n, e), v.vs);
    case Struct(fs) => NoSlotNoHeapAll(env, fs, v.vs);
  }

  lemma {:induction false} NoSlotNoHeapAll(env: Env, ss: List<Schema>, vs: List<Value>)
    requires TypedAll(env, ss, vs) && StackSum(ss) == 0
    ensures HeapAll(env, ss, vs) == []
    decreases vs
  {
    if vs.Cons? {
      NoSlotNoHeap(env, ss.head, vs.head);
      NoSlotNoHeapAll(env, ss.tail, vs.tail);
    }
  }

  lemma {:induction false} UnslottedUnitsEmpty(env: Env, e: Schema, vs: List<Value>)
    requires TypedAll(env, Rep(Len(vs), e), vs) && StackSize(e) == 0
    ensures Units(env, Rep(Len(vs), e), vs) == []
    decreases vs
  {
    if vs.Cons? {
      NoSlotNoHeap(env, e, vs.head);
      UnslottedUnitsEmpty(env, e, vs.tail);
    }
  }

  lemma {:induction false} AtWhole(bytes: seq<Byte>)
    ensures At(bytes, 0, bytes)
  {
  }

  /**
   The round trip: a value whose regions fit their length slots is decoded to itself
   if and only if its vectors have slotted elements; and both readers accept it.
   */
  lemma {:induction false} RoundTrip(env: Env, strict: bool, s: Schema, v: Value)
    requires Typed(env, s, v) && Fits(env, s, v)
    ensures Decode(env, strict, s, Encoding(env, s, v)) == Ok(v) <==> Slotted(env, s, v)
  {
    hide Read, Stack, Heap, Typed, Fits, Slotted, StackSize, At;
    AtWhole(Encoding(env, s, v));
    var bytes := Encoding(env, s, v);
    AtConcat(bytes, 0, Stack(env, s, v), Heap(env, s, v));
    if Slotted(env, s, v) {
      ReadPlaced(env, strict, s, v, bytes, 0, StackSize(s));
    } else {
      UnslottedIsLost(env, strict, s, v, bytes, 0, StackSize(s));
    }
  }

  // ----- Types for which the round trip always holds -----

  /** Every vector in the type has elements with stack slots. */
  predicate SlottedType(s: Schema) {
    match s
    case Vec(e) => StackSize(e) > 0 && SlottedType(e)
    case Opt(e) => SlottedType(e)
    case Arr(_, e) => SlottedType(e)
    case Struct(fs) => SlottedTypes(fs)
    case _ => true
  }

  predicate SlottedTypes(ss: List<Schema>) {
    ss.Nil? || (SlottedType(ss.head) && SlottedTypes(ss.tail))
  }

  predicate SlottedEnv(env: Env) {
    forall k, t :: 0 <= k < |env| && 0 <= t < |env[k]| ==> SlottedTypes(env[k][t])
  }

  lemma {:induction false} SlottedTypesRep(n: nat, e: Schema)
    requires SlottedType(e)
    ensures SlottedTypes(Rep(n, e))
  {
    if n > 0 {
      SlottedTypesRep(n - 1, e);
    }
  }

  lemma {:induction false} ValuesOfSlottedType(env: Env, s: Schema, v: Value)
    requires SlottedEnv(env) && SlottedType(s) && Typed(env, s, v)
    ensures Slotted(env, s, v)
    decreases v
  {
    match s
    case Leaf(_) =>
    case Str =>
    case Vec(e) =>
      SlottedTypesRep(Len(v.vs), e);
      ValuesOfSlottedTypes(env, Rep(Len(v.vs), e), v.vs);
    case Opt(e) => if v.VSome? { ValuesOfSlottedType(env, e, v.v); }
    case Arr(n, e) =>
      SlottedTypesRep(n, e);
      ValuesOfSlottedTypes(env, Rep(n, e), v.vs);
    case Struct(fs) => ValuesOfSlottedTypes(env, fs, v.vs);
    case Enum(k) => ValuesOfSlottedTypes(env, env[k][v.tag], v.vs);
  }

  lemma {:induction false} ValuesOfSlottedTypes(env: Env, ss: List<Schema>, vs: List<Value>)
    requires SlottedEnv(env) && SlottedTypes(ss) && TypedAll(env, ss, vs)
    ensures SlottedAll(env, ss, vs)
    decreases vs
  {
    if vs.Cons? {
      ValuesOfSlottedType(env, ss.head, vs.head);
      ValuesOfSlottedTypes(env, ss.tail, vs.tail);
    }
  }

  /** For types whose vector elements have stack slots, every value that fits comes back. */
  lemma {:induction false} RoundTripOfSlottedType(env: Env, strict: bool, s: Schema, v: Value)
    requires SlottedEnv(env) && SlottedType(s) && Typed(env, s, v) && Fits(env, s, v)
    ensures Decode(env, strict, s, Encoding(env, s, v)) == Ok(v)
  {
    ValuesOfSlottedType(env, s, v);
    RoundTrip(env, strict, s, v);
  }
}
