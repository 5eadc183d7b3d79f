/** What the reader accepts: well-typed values, and exactly the canonical bytes once padding is checked. */
module WireCanonical {
  import opened Bytes
  import opened Wrappers
  import opened Wire
  import opened WireSizes
  import opened WireSteps
  import opened WireRoundTrip

  // ----- Types without Option -----

  predicate NoOpt(s: Schema) {
    match s
    case Vec(e) => NoOpt(e)
    case Opt(_) => false
    case Arr(_, e) => NoOpt(e)
    case Struct(fs) => NoOptAll(fs)
    case _ => true
  }

  predicate NoOptAll(ss: List<Schema>) {
    ss.Nil? || (NoOpt(ss.head) && NoOptAll(ss.tail))
  }

  predicate NoOptEnv(env: Env) {
    forall k, t :: 0 <= k < |env| && 0 <= t < |env[k]| ==> NoOptAll(env[k][t])
  }

  lemma {:induction false} NoOptRep(n: nat, s: Schema)
    requires NoOpt(s)
    ensures NoOptAll(Rep(n, s))
  {
    if n > 0 {
      NoOptRep(n - 1, s);
    }
  }

  /** Every byte of the value is determined by the value. */
  predicate Exact(env: Env, strict: bool, s: Schema) {
    strict || (NoOptEnv(env) && NoOpt(s))
  }

  predicate ExactAll(env: Env, strict: bool, ss: List<Schema>) {
    strict || (NoOptEnv(env) && NoOptAll(ss))
  }

  // ----- The reader is sound -----

  /** A value the reader can return. */
  predicate Readable(env: Env, s: Schema, v: Value) {
    Typed(env, s, v) && Fits(env, s, v) && Slotted(env, s, v)
  }

  /** `v` is a value the writer could have been given, and it takes the heap bytes from `hp` to `end`. */
  predicate Plausible(env: Env, s: Schema, v: Value, hp: nat, end: nat) {
    Typed(env, s, v) && Fits(env, s, v) && Slotted(env, s, v) && end == hp + HeapSize(env, s, v)
  }

  predicate PlausibleAll(env: Env, ss: List<Schema>, vs: List<Value>) {
    TypedAll(env, ss, vs) && FitsAll(env, ss, vs) && SlottedAll(env, ss, vs)
  }

  /** What reading `v` from `hp` to `end` establishes. */
  predicate Sound(env: Env, strict: bool, s: Schema, v: Value, buf: seq<Byte>, sp: nat, hp: nat, end: nat) {
    Plausible(env, s, v, hp, end) && (Exact(env, strict, s) ==> Placed(env, s, v, buf, sp, hp))
  }

  predicate SoundAll(env: Env, strict: bool, ss: List<Schema>, vs: List<Value>, buf: seq<Byte>, sp: nat, hp: nat, end: nat) {
    PlausibleAll(env, ss, vs) && end == hp + HeapSum(env, ss, vs)
    && (ExactAll(env, strict, ss) ==> PlacedAll(env, ss, vs, buf, sp, hp))
  }

  predicate SoundUnits(env: Env, strict: bool, e: Schema, vs: List<Value>, region: seq<Byte>, offset: nat) {
    var ss := Rep(Len(vs), e);
    PlausibleAll(env, ss, vs) && offset + UnitSizes(env, ss, vs) == |region|
    && (Exact(env, strict, e) ==> UnitsAt(region, offset, Units(env, ss, vs)))
  }

  lemma {:induction false} SlotOf(buf: seq<Byte>, sp: nat, hp: nat, region: seq<Byte>)
    requires sp + 4 <= hp <= |buf| && TakeRegion(buf, sp, hp) == Ok(region)
    ensures hp + |region| <= |buf| && |region| < U32_LIMIT && At(buf, hp, region) && At(buf, sp, LE(4, |region|))
  {
    hide LE, FromLE, Pow256;
    var slot := buf[sp..sp + 4];
    LEOfFromLE(slot);
    Pow256Of4();
    assert At(buf, sp, slot);
  }

  lemma {:induction false} ReadSound(env: Env, strict: bool, s: Schema, buf: seq<Byte>, sp: nat, hp: nat, v: Value, end: nat)
    requires sp + StackSize(s) <= hp <= |buf| && Read(env, strict, s, buf, sp, hp) == Ok((v, end))
    ensures Sound(env, strict, s, v, buf, sp, hp, end)
    decreases |buf|, Weight(s), 1
  {
    match s
    case Leaf(k) => LeafSound(env, strict, k, buf, sp, hp, v, end);
    case Str => StrSound(env, strict, buf, sp, hp, v, end);
    case Vec(e) => VecSound(env, strict, e, buf, sp, hp, v, end);
    case Opt(e) => OptSound(env, strict, e, buf, sp, hp, v, end);
    case Arr(n, e) => ArrSound(env, strict, n, e, buf, sp, hp, v, end);
    case Struct(fs) => StructSound(env, strict, fs, buf, sp, hp, v, end);
    case Enum(k) => EnumSound(env, strict, k, buf, sp, hp, v, end);
  }

  lemma {:induction false} LeafSound(env: Env, strict: bool, k: Leaf, buf: seq<Byte>, sp: nat, hp: nat, v: Value, end: nat)
    requires sp + LeafWidth(k) <= hp <= |buf| && Read(env, strict, Leaf(k), buf, sp, hp) == Ok((v, end))
    ensures Plausible(env, Leaf(k), v, hp, end) && Placed(env, Leaf(k), v, buf, sp, hp)
  {
    hide LE, FromLE, Pow256, Read;
    LeafStep(env, strict, k, buf, sp, hp);
    var slot := buf[sp..sp + LeafWidth(k)];
    LEOfFromLE(slot);
    NatToLeafToNat(k, FromLE(slot));
  }

  lemma {:induction false} StrSound(env: Env, strict: bool, buf: seq<Byte>, sp: nat, hp: nat, v: Value, end: nat)
    requires sp + 4 <= hp <= |buf| && Read(env, strict, Str, buf, sp, hp) == Ok((v, end))
    ensures Plausible(env, Str, v, hp, end) && Placed(env, Str, v, buf, sp, hp)
  {
    hide LE, FromLE, At, ValidUtf8;
    var region := TakeRegion(buf, sp, hp).value;
    StrStep(env, strict, buf, sp, hp, region);
    SlotOf(buf, sp, hp, region);
  }

  lemma {:induction false} VecSound(env: Env, strict: bool, e: Schema, buf: seq<Byte>, sp: nat, hp: nat, v: Value, end: nat)
    requires sp + 4 <= hp <= |buf| && Read(env, strict, Vec(e), buf, sp, hp) == Ok((v, end))
    ensures Sound(env, strict, Vec(e), v, buf, sp, hp, end)
    decreases |buf|, 0, 0
  {
    hide LE, FromLE, At, ReadElems, Units;
    var region := TakeRegion(buf, sp, hp).value;
    VecStep(env, strict, e, buf, sp, hp, region);
    SlotOf(buf, sp, hp, region);
    ElemsSound(env, strict, e, region, v.vs);
  }

  lemma {:induction false} OptSound(env: Env, strict: bool, e: Schema, buf: seq<Byte>, sp: nat, hp: nat, v: Value, end: nat)
    requires sp + 1 + StackSize(e) <= hp <= |buf| && Read(env, strict, Opt(e), buf, sp, hp) == Ok((v, end))
    ensures Plausible(env, Opt(e), v, hp, end)
    ensures strict ==> Placed(env, Opt(e), v, buf, sp, hp)
    decreases |buf|, Weight(e), 2
  {
    var flag := buf[sp];
    assert At(buf, sp, [flag]);
    if flag == 0 {
      NoneStep(env, strict, e, buf, sp, hp);
      assert At(buf, hp, []);
      if strict {
        AtConcat(buf, sp, [0], Zeros(StackSize(e)));
      }
    } else {
      SomeStep(env, strict, e, buf, sp, hp);
      ReadSound(env, strict, e, buf, sp + 1, hp, v.v, end);
      if strict {
        AtConcat(buf, sp, [1], Stack(env, e, v.v));
      }
    }
  }

  lemma {:induction false} ArrSound(env: Env, strict: bool, n: nat, e: Schema, buf: seq<Byte>, sp: nat, hp: nat, v: Value, end: nat)
    requires sp + StackSize(Arr(n, e)) <= hp <= |buf| && Read(env, strict, Arr(n, e), buf, sp, hp) == Ok((v, end))
    ensures Sound(env, strict, Arr(n, e), v, buf, sp, hp, end)
    decreases |buf|, Weight(Arr(n, e)), 0
  {
    hide Read, ReadAll, At, StackAll, HeapAll, TypedAll, FitsAll, SlottedAll, HeapSum, Rep;
    ArrStep(env, strict, n, e, buf, sp, hp);
    WeightAllRep(n, e);
    AllSound(env, strict, Rep(n, e), buf, sp, hp, v.vs, end);
    ArrHeapSize(env, n, e, v.vs);
    if NoOpt(e) {
      NoOptRep(n, e);
    }
  }

  lemma {:induction false} StructSound(env: Env, strict: bool, fs: List<Schema>, buf: seq<Byte>, sp: nat, hp: nat, v: Value, end: nat)
    requires sp + StackSum(fs) <= hp <= |buf| && Read(env, strict, Struct(fs), buf, sp, hp) == Ok((v, end))
    ensures Sound(env, strict, Struct(fs), v, buf, sp, hp, end)
    decreases |buf|, WeightAll(fs), 1
  {
    hide Read, ReadAll, At;
    StructStep(env, strict, fs, buf, sp, hp);
    AllSound(env, strict, fs, buf, sp, hp, v.vs, end);
  }

  lemma {:induction false} EnumSound(env: Env, strict: bool, k: nat, buf: seq<Byte>, sp: nat, hp: nat, v: Value, end: nat)
    requires sp + 5 <= hp <= |buf| && Read(env, strict, Enum(k), buf, sp, hp) == Ok((v, end))
    ensures Sound(env, strict, Enum(k), v, buf, sp, hp, end)
    decreases |buf|, 0, 0
  {
    hide LE, FromLE, ReadPayload;
    var region := TakeRegion(buf, sp + 1, hp).value;
    var tag := buf[sp];
    var ss := env[k][tag];
    EnumStep(env, strict, k, buf, sp, hp, region);
    SlotOf(buf, sp + 1, hp, region);
    PayloadSound(env, strict, ss, region, v.vs);
    assert At(buf, sp, [tag]);
    AtConcat(buf, sp, [tag], LE(4, |region|));
  }

  lemma {:induction false} PlacedJoin(env: Env, ss: List<Schema>, vs: List<Value>, buf: seq<Byte>, sp: nat, hp: nat)
    requires vs.Cons? && TypedAll(env, ss, vs) && Placed(env, ss.head, vs.head, buf, sp, hp)
    requires sp + StackSum(ss) <= hp
    requires PlacedAll(env, ss.tail, vs.tail, buf, sp + StackSize(ss.head), hp + HeapSize(env, ss.head, vs.head))
    ensures PlacedAll(env, ss, vs, buf, sp, hp)
  {
    hide At, Stack, Heap, Typed, StackSize, HeapSize;
    HeapLength(env, ss.head, vs.head);
    AtConcat(buf, sp, Stack(env, ss.head, vs.head), StackAll(env, ss.tail, vs.tail));
    AtConcat(buf, hp, Heap(env, ss.head, vs.head), HeapAll(env, ss.tail, vs.tail));
  }

  lemma {:induction false} SoundCons(env: Env, strict: bool, ss: List<Schema>, vs: List<Value>, buf: seq<Byte>, sp: nat, hp: nat, mid: nat, end: nat)
    requires ss.Cons? && vs.Cons? && sp + StackSum(ss) <= hp
    requires Sound(env, strict, ss.head, vs.head, buf, sp, hp, mid)
    requires SoundAll(env, strict, ss.tail, vs.tail, buf, sp + StackSize(ss.head), mid, end)
    ensures SoundAll(env, strict, ss, vs, buf, sp, hp, end)
  {
    hide At, Stack, Heap, Typed, Fits, Slotted, StackSize, HeapSize, NoOpt;
    if ExactAll(env, strict, ss) {
      PlacedJoin(env, ss, vs, buf, sp, hp);
    }
  }

  lemma {:induction false} AllSound(env: Env, strict: bool, ss: List<Schema>, buf: seq<Byte>, sp: nat, hp: nat, vs: List<Value>, end: nat)
    requires sp + StackSum(ss) <= hp <= |buf| && ReadAll(env, strict, ss, buf, sp, hp) == Ok((vs, end))
    ensures SoundAll(env, strict, ss, vs, buf, sp, hp, end)
    decreases |buf|, WeightAll(ss), 0
  {
    if ss.Nil? {
      EmptyAt(buf, sp);
      EmptyAt(buf, hp);
      return;
    }
    hide Read, ReadAll, Sound, SoundAll, StackSize;
    AllStep(env, strict, ss, buf, sp, hp);
    var mid := Read(env, strict, ss.head, buf, sp, hp).value.1;
    ReadSound(env, strict, ss.head, buf, sp, hp, vs.head, mid);
    AllSound(env, strict, ss.tail, buf, sp + StackSize(ss.head), mid, vs.tail, end);
    SoundCons(env, strict, ss, vs, buf, sp, hp, mid, end);
  }

  lemma {:induction false} PayloadSound(env: Env, strict: bool, ss: List<Schema>, region: seq<Byte>, vs: List<Value>)
    requires ReadPayload(env, strict, ss, region) == Ok(vs)
    ensures PlausibleAll(env, ss, vs) && |region| == UnitSize(env, ss, vs)
    ensures ExactAll(env, strict, ss) ==> region == StackAll(env, ss, vs) + HeapAll(env, ss, vs)
    decreases |region|, WeightAll(ss), 1
  {
    AllSound(env, strict, ss, region, 0, StackSum(ss), vs, |region|);
    HeapLengths(env, ss, vs);
    if ExactAll(env, strict, ss) {
      AtConcat(region, 0, StackAll(env, ss, vs), HeapAll(env, ss, vs));
      assert region[0..|region|] == region;
    }
  }

  lemma {:induction false} ElemsSound(env: Env, strict: bool, e: Schema, region: seq<Byte>, vs: List<Value>)
    requires ReadElems(env, strict, e, region) == Ok(vs)
    ensures PlausibleAll(env, Rep(Len(vs), e), vs) && Slotted(env, Vec(e), VList(vs))
    ensures |region| == HeapSize(env, Vec(e), VList(vs))
    ensures Exact(env, strict, e) ==> region == Units(env, Rep(Len(vs), e), vs)
    decreases |region| + 1, 0, 1
  {
    if Fixed(e) {
      RunSound(env, strict, e, region, vs);
    } else {
      UnitsSound(env, strict, e, region, 0, vs);
      if Exact(env, strict, e) {
        assert region[0..|region|] == region;
      }
    }
    VecRegionSize(env, e, vs);
  }

  lemma {:induction false} RunSound(env: Env, strict: bool, e: Schema, region: seq<Byte>, vs: List<Value>)
    requires Fixed(e) && ReadRun(env, strict, e, region) == Ok(vs)
    ensures StackSize(e) > 0 && PlausibleAll(env, Rep(Len(vs), e), vs)
    ensures |region| == UnitSizes(env, Rep(Len(vs), e), vs)
    ensures Exact(env, strict, e) ==> region == Units(env, Rep(Len(vs), e), vs)
    decreases |region| + 1, 0, 0
  {
    var count := |region| / StackSize(e);
    WholeQuotient(|region|, StackSize(e));
    RunStep(env, strict, e, region, count);
    AllSound(env, strict, Rep(count, e), region, 0, |region|, vs, ReadAll(env, strict, Rep(count, e), region, 0, |region|).value.1);
    RepLength(env, count, e, vs);
    FixedAllRep(count, e);
    FixedUnits(env, Rep(count, e), vs);
    FixedAllHaveNoHeap(env, Rep(count, e), vs);
    if Exact(env, strict, e) {
      if !strict {
        NoOptRep(count, e);
      }
      assert region[0..|region|] == region;
    }
  }

  lemma {:induction false} RepLength(env: Env, n: nat, e: Schema, vs: List<Value>)
    requires TypedAll(env, Rep(n, e), vs)
    ensures Len(vs) == n
    decreases vs
  {
    if vs.Cons? {
      RepLength(env, n - 1, e, vs.tail);
    }
  }

  lemma {:induction false} NoSlotUnits(env: Env, strict: bool, e: Schema, region: seq<Byte>, offset: nat, vs: List<Value>)
    requires StackSize(e) == 0 && offset <= |region| && ReadUnits(env, strict, e, region, offset) == Ok(vs)
    ensures offset == |region|
    decreases |region|, Weight(e) + 1, 0
  {
    if offset < |region| {
      var (v, next) := Read(env, strict, e, region, offset, offset).value;
      assert next != offset;
      hide Typed, Fits, Slotted, Heap, HeapSize, Read, ReadUnits, Placed, Exact, StackSize;
      ReadSound(env, strict, e, region, offset, offset, v, next);
      NoSlotNoHeap(env, e, v);
      HeapLength(env, e, v);
      assert false;
    }
  }

  lemma {:induction false} SoundUnit(env: Env, strict: bool, e: Schema, vs: List<Value>, region: seq<Byte>, offset: nat, mid: nat)
    requires vs.Cons? && Sound(env, strict, e, vs.head, region, offset, offset + StackSize(e), mid)
    requires SoundUnits(env, strict, e, vs.tail, region, mid)
    ensures SoundUnits(env, strict, e, vs, region, offset)
  {
    hide At, Stack, Heap, Typed, Fits, Slotted, StackSize, HeapSize, NoOpt;
    HeapLength(env, e, vs.head);
    UnitsJoin(region, offset, Stack(env, e, vs.head), Heap(env, e, vs.head), Units(env, Rep(Len(vs.tail), e), vs.tail));
  }

  lemma {:induction false} UnitsSound(env: Env, strict: bool, e: Schema, region: seq<Byte>, offset: nat, vs: List<Value>)
    requires offset <= |region| && ReadUnits(env, strict, e, region, offset) == Ok(vs)
    ensures StackSize(e) == 0 ==> vs.Nil?
    ensures SoundUnits(env, strict, e, vs, region, offset)
    decreases |region|, Weight(e) + 1, |region| - offset, 1
  {
    if offset == |region| {
      EmptyAt(region, offset);
      return;
    }
    if StackSize(e) == 0 {
      NoSlotUnits(env, strict, e, region, offset, vs);
      return;
    }
    FullUnit(env, strict, e, region, offset);
    hide *;
    UnitSound(env, strict, e, region, offset, vs);
  }

  lemma {:induction false} UnitSound(env: Env, strict: bool, e: Schema, region: seq<Byte>, offset: nat, vs: List<Value>)
    requires StackSize(e) > 0 && offset + StackSize(e) <= |region| && ReadUnits(env, strict, e, region, offset) == Ok(vs)
    ensures SoundUnits(env, strict, e, vs, region, offset)
    decreases |region|, Weight(e) + 1, |region| - offset, 0
  {
    hide Read, ReadUnits, Sound, SoundUnits, StackSize, Weight;
    UnitsStep(env, strict, e, region, offset);
    var mid := Read(env, strict, e, region, offset, offset + StackSize(e)).value.1;
    ReadSound(env, strict, e, region, offset, offset + StackSize(e), vs.head, mid);
    UnitsSound(env, strict, e, region, mid, vs.tail);
    SoundUnit(env, strict, e, vs, region, offset, mid);
  }

  lemma {:induction false} FullUnit(env: Env, strict: bool, e: Schema, region: seq<Byte>, offset: nat)
    requires offset < |region| && ReadUnits(env, strict, e, region, offset).Ok?
    ensures offset + StackSize(e) <= |region|
  {
    hide Read;
  }

  lemma {:induction false} UnitsJoin(region: seq<Byte>, offset: nat, st: seq<Byte>, hs: seq<Byte>, us: seq<Byte>)
    ensures At(region, offset, st) && At(region, offset + |st|, hs) && UnitsAt(region, offset + |st| + |hs|, us)
        ==> UnitsAt(region, offset, st + hs + us)
  {
    hide At;
    AtConcat(region, offset, st + hs, us);
    AtConcat(region, offset, st, hs);
  }

  // ----- Main results -----

  /** Whatever bytes are decoded, the value has the type asked for, and has the size of the bytes. */
  lemma {:induction false} DecodeSound(env: Env, strict: bool, s: Schema, bytes: seq<Byte>, v: Value)
    requires Decode(env, strict, s, bytes) == Ok(v)
    ensures Typed(env, s, v) && Fits(env, s, v) && Slotted(env, s, v)
    ensures |Encoding(env, s, v)| == |bytes|
    ensures Exact(env, strict, s) ==> bytes == Encoding(env, s, v)
  {
    hide Read, Stack, Heap, Typed, Fits, Slotted, StackSize, HeapSize, NoOpt;
    ReadSound(env, strict, s, bytes, 0, StackSize(s), v, |bytes|);
    EncodingLength(env, s, v);
    if Exact(env, strict, s) {
      AtConcat(bytes, 0, Stack(env, s, v), Heap(env, s, v));
      assert bytes[0..|bytes|] == bytes;
    }
  }

  /** Bytes that the reader accepts are the encoding of what it returns exactly if the strict reader accepts them too. */
  lemma {:induction false} CanonicalIffStrict(env: Env, s: Schema, bytes: seq<Byte>, v: Value)
    requires Decode(env, false, s, bytes) == Ok(v)
    ensures Typed(env, s, v)
    ensures bytes == Encoding(env, s, v) <==> Decode(env, true, s, bytes).Ok?
    ensures Decode(env, true, s, bytes).Ok? ==> Decode(env, true, s, bytes) == Ok(v)
  {
    DecodeSound(env, false, s, bytes, v);
    RoundTrip(env, true, s, v);
    var r := Decode(env, true, s, bytes);
    if r.Ok? {
      DecodeSound(env, true, s, bytes, r.value);
      RoundTrip(env, false, s, r.value);
    }
  }

  /** Without `Option` anywhere, every accepted byte string is canonical. */
  lemma {:induction false} OptionFreeIsCanonical(env: Env, s: Schema, bytes: seq<Byte>, v: Value)
    requires NoOptEnv(env) && NoOpt(s) && Decode(env, false, s, bytes) == Ok(v)
    ensures Typed(env, s, v) && bytes == Encoding(env, s, v)
  {
    DecodeSound(env, false, s, bytes, v);
  }

  /** Two byte strings for one value: the padding of `None` is not looked at. */
  lemma {:induction false} PaddingIsIgnored()
    ensures Decode([], false, Opt(Leaf(U(1))), [0, 7]) == Ok(VNone)
    ensures Decode([], false, Opt(Leaf(U(1))), [0, 0]) == Ok(VNone)
    ensures Encoding([], Opt(Leaf(U(1))), VNone) == [0, 0] && [0, 0] != [0, 7]
  {
  }
}
