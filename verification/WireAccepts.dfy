/** Exactly which bytes the decoder accepts, and as what: every byte of the value is there, padding behind a `None` is free. */
module WireAccepts {
  import opened Bytes
  import opened Wrappers
  import opened Wire
  import opened WireSizes
  import opened WireSteps
  import opened WireRoundTrip
  import opened WireCanonical

  /** `buf` shows `v` with its slots at `sp` and its heap bytes at `hp`. The slots behind a `None` may hold anything. */
  predicate Shows(env: Env, s: Schema, v: Value, buf: seq<Byte>, sp: nat, hp: nat)
    requires Typed(env, s, v)
    decreases v
  {
    match s
    case Leaf(k) => At(buf, sp, LE(LeafWidth(k), LeafToNat(k, v.i)))
    case Str => At(buf, sp, LE(4, |v.bytes|)) && At(buf, hp, v.bytes)
    case Opt(e) => sp < |buf| && if v.VNone? then buf[sp] == 0 else buf[sp] == 1 && Shows(env, e, v.v, buf, sp + 1, hp)
    case Arr(n, e) => ShowsAll(env, Rep(n, e), v.vs, buf, sp, hp)
    case Struct(fs) => ShowsAll(env, fs, v.vs, buf, sp, hp)
    case Vec(e) =>
      var len := HeapSize(env, s, v);
      && At(buf, sp, LE(4, len)) && hp + len <= |buf|
      && (if Fixed(e) then ShowsAll(env, Rep(Len(v.vs), e), v.vs, buf[hp..hp + len], 0, len)
          else ShowsUnits(env, Rep(Len(v.vs), e), v.vs, buf[hp..hp + len], 0))
    case Enum(k) =>
      var len := HeapSize(env, s, v);
      && sp < |buf| && buf[sp] == v.tag && At(buf, sp + 1, LE(4, len)) && hp + len <= |buf|
      && ShowsAll(env, env[k][v.tag], v.vs, buf[hp..hp + len], 0, StackSum(env[k][v.tag]))
  }

  predicate ShowsAll(env: Env, ss: List<Schema>, vs: List<Value>, buf: seq<Byte>, sp: nat, hp: nat)
    requires TypedAll(env, ss, vs)
    decreases vs
  {
    vs.Cons? ==>
      && Shows(env, ss.head, vs.head, buf, sp, hp)
      && ShowsAll(env, ss.tail, vs.tail, buf, sp + StackSize(ss.head), hp + HeapSize(env, ss.head, vs.head))
  }

  /** Elements written as one unit each. */
  predicate ShowsUnits(env: Env, ss: List<Schema>, vs: List<Value>, buf: seq<Byte>, at: nat)
    requires TypedAll(env, ss, vs)
    decreases vs
  {
    vs.Cons? ==>
      && Shows(env, ss.head, vs.head, buf, at, at + StackSize(ss.head))
      && ShowsUnits(env, ss.tail, vs.tail, buf, at + StackSize(ss.head) + HeapSize(env, ss.head, vs.head))
  }

  // ----- What is read is shown -----

  lemma {:induction false} ReadShows(env: Env, s: Schema, buf: seq<Byte>, sp: nat, hp: nat, v: Value, end: nat)
    requires sp + StackSize(s) <= hp <= |buf| && Read(env, false, s, buf, sp, hp) == Ok((v, end))
    ensures Plausible(env, s, v, hp, end) && Shows(env, s, v, buf, sp, hp)
    decreases |buf|, Weight(s), 1
  {
    ReadSound(env, false, s, buf, sp, hp, v, end);
    hide Read, Shows;
    match s
    case Leaf(k) => LeafShows(env, k, buf, sp, hp, v, end);
    case Str => StrShows(env, buf, sp, hp, v, end);
    case Vec(e) => VecShows(env, e, buf, sp, hp, v, end);
    case Opt(e) => OptShows(env, e, buf, sp, hp, v, end);
    case Arr(n, e) => ArrShows(env, n, e, buf, sp, hp, v, end);
    case Struct(fs) => StructShows(env, fs, buf, sp, hp, v, end);
    case Enum(k) => EnumShows(env, k, buf, sp, hp, v, end);
  }

  lemma {:induction false} LeafShows(env: Env, k: Leaf, buf: seq<Byte>, sp: nat, hp: nat, v: Value, end: nat)
    requires sp + LeafWidth(k) <= hp <= |buf| && Read(env, false, Leaf(k), buf, sp, hp) == Ok((v, end))
    ensures Typed(env, Leaf(k), v) && Shows(env, Leaf(k), v, buf, sp, hp)
  {
    hide Read, LE, FromLE, Pow256;
    LeafSound(env, false, k, buf, sp, hp, v, end);
  }

  lemma {:induction false} StrShows(env: Env, buf: seq<Byte>, sp: nat, hp: nat, v: Value, end: nat)
    requires sp + 4 <= hp <= |buf| && Read(env, false, Str, buf, sp, hp) == Ok((v, end))
    ensures Typed(env, Str, v) && Shows(env, Str, v, buf, sp, hp)
  {
    hide LE, FromLE, Pow256, ValidUtf8;
    SlotOf(buf, sp, hp, TakeRegion(buf, sp, hp).value);
  }

  lemma {:induction false} OptShows(env: Env, e: Schema, buf: seq<Byte>, sp: nat, hp: nat, v: Value, end: nat)
    requires sp + 1 + StackSize(e) <= hp <= |buf| && Read(env, false, Opt(e), buf, sp, hp) == Ok((v, end)) && Typed(env, Opt(e), v)
    ensures Shows(env, Opt(e), v, buf, sp, hp)
    decreases |buf|, 1 + Weight(e), 0
  {
    assert buf[sp] == 0 || buf[sp] == 1;
    hide Read;
    if buf[sp] == 0 {
      NoneStep(env, false, e, buf, sp, hp);
    } else {
      SomeStep(env, false, e, buf, sp, hp);
      ReadShows(env, e, buf, sp + 1, hp, v.v, end);
    }
  }

  lemma {:induction false} ArrShows(env: Env, n: nat, e: Schema, buf: seq<Byte>, sp: nat, hp: nat, v: Value, end: nat)
    requires sp + StackSize(Arr(n, e)) <= hp <= |buf| && Read(env, false, Arr(n, e), buf, sp, hp) == Ok((v, end)) && Typed(env, Arr(n, e), v)
    ensures Shows(env, Arr(n, e), v, buf, sp, hp)
    decreases |buf|, Weight(Arr(n, e)), 0
  {
    hide Read, ReadAll;
    WeightAllRep(n, e);
    ArrStep(env, false, n, e, buf, sp, hp);
    AllShows(env, Rep(n, e), buf, sp, hp, v.vs, end);
  }

  lemma {:induction false} StructShows(env: Env, fs: List<Schema>, buf: seq<Byte>, sp: nat, hp: nat, v: Value, end: nat)
    requires sp + StackSum(fs) <= hp <= |buf| && Read(env, false, Struct(fs), buf, sp, hp) == Ok((v, end)) && Typed(env, Struct(fs), v)
    ensures Shows(env, Struct(fs), v, buf, sp, hp)
    decreases |buf|, Weight(Struct(fs)), 0
  {
    hide Read, ReadAll;
    StructStep(env, false, fs, buf, sp, hp);
    AllShows(env, fs, buf, sp, hp, v.vs, end);
  }

  lemma {:induction false} VecShows(env: Env, e: Schema, buf: seq<Byte>, sp: nat, hp: nat, v: Value, end: nat)
    requires sp + 4 <= hp <= |buf| && Read(env, false, Vec(e), buf, sp, hp) == Ok((v, end))
    requires Typed(env, Vec(e), v) && end == hp + HeapSize(env, Vec(e), v)
    ensures Shows(env, Vec(e), v, buf, sp, hp)
    decreases |buf|, 0, 0
  {
    hide FromLE, LE;
    var region := TakeRegion(buf, sp, hp).value;
    hide Read, ReadElems, HeapSize, Shows, ShowsAll, ShowsUnits, TakeRegion, Typed;
    VecStep(env, false, e, buf, sp, hp, region);
    ElemsShow(env, e, region, v.vs);
    RegionShows(env, e, v, buf, sp, hp, region);
  }

  lemma {:induction false} RegionShows(env: Env, e: Schema, v: Value, buf: seq<Byte>, sp: nat, hp: nat, region: seq<Byte>)
    requires sp + 4 <= hp <= |buf| && TakeRegion(buf, sp, hp) == Ok(region)
    requires Typed(env, Vec(e), v) && |region| == HeapSize(env, Vec(e), v)
    requires if Fixed(e) then ShowsAll(env, Rep(Len(v.vs), e), v.vs, region, 0, |region|)
             else ShowsUnits(env, Rep(Len(v.vs), e), v.vs, region, 0)
    ensures Shows(env, Vec(e), v, buf, sp, hp)
  {
    hide LE, FromLE, HeapSize, ShowsAll, ShowsUnits;
    SlotOf(buf, sp, hp, region);
    assert buf[hp..hp + |region|] == region;
  }

  lemma {:induction false} EnumShows(env: Env, k: nat, buf: seq<Byte>, sp: nat, hp: nat, v: Value, end: nat)
    requires sp + 5 <= hp <= |buf| && Read(env, false, Enum(k), buf, sp, hp) == Ok((v, end))
    requires Typed(env, Enum(k), v) && end == hp + HeapSize(env, Enum(k), v)
    ensures Shows(env, Enum(k), v, buf, sp, hp)
    decreases |buf|, 0, 0
  {
    hide FromLE, LE;
    var region := TakeRegion(buf, sp + 1, hp).value;
    assert HasVariant(env, k, buf[sp]);
    EnumStep(env, false, k, buf, sp, hp, region);
    hide Read, ReadAll, HeapSize, Shows, ShowsAll, Typed, TakeRegion;
    var ss := env[k][buf[sp]];
    AllShows(env, ss, region, 0, StackSum(ss), v.vs, |region|);
    PayloadShows(env, k, v, buf, sp, hp, region);
  }

  lemma {:induction false} PayloadShows(env: Env, k: nat, v: Value, buf: seq<Byte>, sp: nat, hp: nat, region: seq<Byte>)
    requires sp + 5 <= hp <= |buf| && TakeRegion(buf, sp + 1, hp) == Ok(region)
    requires Typed(env, Enum(k), v) && v.tag == buf[sp] && |region| == HeapSize(env, Enum(k), v)
    requires ShowsAll(env, env[k][v.tag], v.vs, region, 0, StackSum(env[k][v.tag]))
    ensures Shows(env, Enum(k), v, buf, sp, hp)
  {
    hide LE, FromLE, HeapSize, ShowsAll;
    SlotOf(buf, sp + 1, hp, region);
    assert buf[hp..hp + |region|] == region;
  }

  lemma {:induction false} AllShows(env: Env, ss: List<Schema>, buf: seq<Byte>, sp: nat, hp: nat, vs: List<Value>, end: nat)
    requires sp + StackSum(ss) <= hp <= |buf| && ReadAll(env, false, ss, buf, sp, hp) == Ok((vs, end))
    ensures TypedAll(env, ss, vs) && ShowsAll(env, ss, vs, buf, sp, hp)
    decreases |buf|, WeightAll(ss), 1
  {
    if ss.Cons? {
      hide *;
      NextShows(env, ss, buf, sp, hp, vs, end);
    }
  }

  lemma {:induction false} NextShows(env: Env, ss: List<Schema>, buf: seq<Byte>, sp: nat, hp: nat, vs: List<Value>, end: nat)
    requires ss.Cons? && sp + StackSum(ss) <= hp <= |buf| && ReadAll(env, false, ss, buf, sp, hp) == Ok((vs, end))
    ensures TypedAll(env, ss, vs) && ShowsAll(env, ss, vs, buf, sp, hp)
    decreases |buf|, WeightAll(ss), 0
  {
    hide Read, ReadAll, Shows, ShowsAll, Typed, TypedAll, Fits, Slotted, HeapSize, StackSize, Weight;
    AllStep(env, false, ss, buf, sp, hp);
    var mid := Read(env, false, ss.head, buf, sp, hp).value.1;
    ReadShows(env, ss.head, buf, sp, hp, vs.head, mid);
    AllShows(env, ss.tail, buf, sp + StackSize(ss.head), mid, vs.tail, end);
    ShowsNext(env, ss, vs, buf, sp, hp);
  }

  lemma {:induction false} ShowsNext(env: Env, ss: List<Schema>, vs: List<Value>, buf: seq<Byte>, sp: nat, hp: nat)
    requires ss.Cons? && vs.Cons? && Typed(env, ss.head, vs.head) && TypedAll(env, ss.tail, vs.tail)
    ensures TypedAll(env, ss, vs)
    ensures ShowsAll(env, ss, vs, buf, sp, hp) <==>
            && Shows(env, ss.head, vs.head, buf, sp, hp)
            && ShowsAll(env, ss.tail, vs.tail, buf, sp + StackSize(ss.head), hp + HeapSize(env, ss.head, vs.head))
  {
    hide Shows, Typed, StackSize, HeapSize;
  }

  lemma {:induction false} ElemsShow(env: Env, e: Schema, region: seq<Byte>, vs: List<Value>)
    requires ReadElems(env, false, e, region) == Ok(vs)
    ensures TypedAll(env, Rep(Len(vs), e), vs)
    ensures if Fixed(e) then ShowsAll(env, Rep(Len(vs), e), vs, region, 0, |region|) else ShowsUnits(env, Rep(Len(vs), e), vs, region, 0)
    decreases |region| + 1, 0, 1
  {
    hide ReadRun, ReadUnits, ShowsAll, ShowsUnits;
    if Fixed(e) {
      RunShows(env, e, region, vs);
    } else {
      UnitsShow(env, e, region, 0, vs);
    }
  }

  lemma {:induction false} RunShows(env: Env, e: Schema, region: seq<Byte>, vs: List<Value>)
    requires Fixed(e) && ReadRun(env, false, e, region) == Ok(vs)
    ensures TypedAll(env, Rep(Len(vs), e), vs) && ShowsAll(env, Rep(Len(vs), e), vs, region, 0, |region|)
    decreases |region| + 1, 0, 0
  {
    hide ReadAll, ShowsAll;
    var size := StackSize(e);
    var count := |region| / size;
    StackSumRep(count, e);
    WholeQuotient(|region|, size);
    var r := ReadAll(env, false, Rep(count, e), region, 0, |region|).value;
    AllShows(env, Rep(count, e), region, 0, |region|, vs, r.1);
    RepLength(env, count, e, vs);
  }

  lemma {:induction false} UnitsShow(env: Env, e: Schema, region: seq<Byte>, offset: nat, vs: List<Value>)
    requires offset <= |region| && ReadUnits(env, false, e, region, offset) == Ok(vs)
    ensures TypedAll(env, Rep(Len(vs), e), vs) && ShowsUnits(env, Rep(Len(vs), e), vs, region, offset)
    decreases |region|, Weight(e) + 1, |region| - offset, 1
  {
    if StackSize(e) == 0 {
      hide *;
      NoSlotUnits(env, false, e, region, offset, vs);
    }
    if offset < |region| {
      FullUnit(env, false, e, region, offset);
      hide *;
      UnitShows(env, e, region, offset, vs);
    }
  }

  lemma {:induction false} UnitShows(env: Env, e: Schema, region: seq<Byte>, offset: nat, vs: List<Value>)
    requires StackSize(e) > 0 && offset + StackSize(e) <= |region| && ReadUnits(env, false, e, region, offset) == Ok(vs)
    ensures TypedAll(env, Rep(Len(vs), e), vs) && ShowsUnits(env, Rep(Len(vs), e), vs, region, offset)
    decreases |region|, Weight(e) + 1, |region| - offset, 0
  {
    hide Read, ReadUnits, Shows, ShowsUnits, Typed, TypedAll, Fits, Slotted, HeapSize, StackSize, Rep, Len, Weight;
    UnitsStep(env, false, e, region, offset);
    var mid := Read(env, false, e, region, offset, offset + StackSize(e)).value.1;
    ReadShows(env, e, region, offset, offset + StackSize(e), vs.head, mid);
    UnitsShow(env, e, region, mid, vs.tail);
    ShowsUnit(env, e, vs, region, offset);
  }

  lemma {:induction false} ShowsUnit(env: Env, e: Schema, vs: List<Value>, buf: seq<Byte>, at: nat)
    requires vs.Cons? && Typed(env, e, vs.head) && TypedAll(env, Rep(Len(vs.tail), e), vs.tail)
    ensures TypedAll(env, Rep(Len(vs), e), vs)
    ensures ShowsUnits(env, Rep(Len(vs), e), vs, buf, at) <==>
            && Shows(env, e, vs.head, buf, at, at + StackSize(e))
            && ShowsUnits(env, Rep(Len(vs.tail), e), vs.tail, buf, at + StackSize(e) + HeapSize(env, e, vs.head))
  {
    hide Shows, Typed, StackSize, HeapSize;
  }

  // ----- What is shown is read -----

  lemma {:induction false} ShownReads(env: Env, s: Schema, v: Value, buf: seq<Byte>, sp: nat, hp: nat)
    requires Readable(env, s, v) && Shows(env, s, v, buf, sp, hp)
    requires sp + StackSize(s) <= hp && hp + HeapSize(env, s, v) <= |buf|
    ensures Read(env, false, s, buf, sp, hp) == Ok((v, hp + HeapSize(env, s, v)))
    decreases v, 2
  {
    hide Read, Readable, Shows, HeapSize, StackSize;
    match s
    case Leaf(k) => ShownLeaf(env, k, v, buf, sp, hp);
    case Str => ShownStr(env, v, buf, sp, hp);
    case Vec(e) => ShownVec(env, e, v, buf, sp, hp);
    case Opt(e) => ShownOpt(env, e, v, buf, sp, hp);
    case Arr(n, e) => ShownArr(env, n, e, v, buf, sp, hp);
    case Struct(fs) => ShownStruct(env, fs, v, buf, sp, hp);
    case Enum(k) => ShownEnum(env, k, v, buf, sp, hp);
  }

  lemma {:induction false} ShownLeaf(env: Env, k: Leaf, v: Value, buf: seq<Byte>, sp: nat, hp: nat)
    requires Readable(env, Leaf(k), v) && Shows(env, Leaf(k), v, buf, sp, hp) && sp + StackSize(Leaf(k)) <= hp <= |buf|
    ensures Read(env, false, Leaf(k), buf, sp, hp) == Ok((v, hp + HeapSize(env, Leaf(k), v)))
  {
    hide Read, ReadLeaf, LE, FromLE, Pow256;
    LeafStep(env, false, k, buf, sp, hp);
    LeafPlaced(k, v.i, buf, sp);
  }

  lemma {:induction false} ShownStr(env: Env, v: Value, buf: seq<Byte>, sp: nat, hp: nat)
    requires Readable(env, Str, v) && Shows(env, Str, v, buf, sp, hp) && sp + StackSize(Str) <= hp <= |buf|
    ensures Read(env, false, Str, buf, sp, hp) == Ok((v, hp + HeapSize(env, Str, v)))
  {
    hide Read, LE, FromLE, Pow256, ValidUtf8;
    RegionFound(buf, sp, hp, v.bytes);
    StrStep(env, false, buf, sp, hp, v.bytes);
  }

  lemma {:induction false} ShownArr(env: Env, n: nat, e: Schema, v: Value, buf: seq<Byte>, sp: nat, hp: nat)
    requires Readable(env, Arr(n, e), v) && Shows(env, Arr(n, e), v, buf, sp, hp)
    requires sp + StackSize(Arr(n, e)) <= hp && hp + HeapSize(env, Arr(n, e), v) <= |buf|
    ensures Read(env, false, Arr(n, e), buf, sp, hp) == Ok((v, hp + HeapSize(env, Arr(n, e), v)))
    decreases v, 1
  {
    hide Read, ReadAll, ShowsAll, TypedAll, FitsAll, SlottedAll, HeapSum;
    ArrStep(env, false, n, e, buf, sp, hp);
    ArrHeapSize(env, n, e, v.vs);
    ShownAll(env, Rep(n, e), v.vs, buf, sp, hp);
  }

  lemma {:induction false} ShownStruct(env: Env, fs: List<Schema>, v: Value, buf: seq<Byte>, sp: nat, hp: nat)
    requires Readable(env, Struct(fs), v) && Shows(env, Struct(fs), v, buf, sp, hp)
    requires sp + StackSize(Struct(fs)) <= hp && hp + HeapSize(env, Struct(fs), v) <= |buf|
    ensures Read(env, false, Struct(fs), buf, sp, hp) == Ok((v, hp + HeapSize(env, Struct(fs), v)))
    decreases v, 1
  {
    hide Read, ReadAll, ShowsAll, TypedAll, FitsAll, SlottedAll, HeapSum;
    StructStep(env, false, fs, buf, sp, hp);
    ShownAll(env, fs, v.vs, buf, sp, hp);
  }

  lemma {:induction false} ShownOpt(env: Env, e: Schema, v: Value, buf: seq<Byte>, sp: nat, hp: nat)
    requires Readable(env, Opt(e), v) && Shows(env, Opt(e), v, buf, sp, hp)
    requires sp + StackSize(Opt(e)) <= hp && hp + HeapSize(env, Opt(e), v) <= |buf|
    ensures Read(env, false, Opt(e), buf, sp, hp) == Ok((v, hp + HeapSize(env, Opt(e), v)))
    decreases v, 1
  {
    hide Read, Readable, Shows, HeapSize, StackSize;
    OptParts(env, e, v, buf, sp, hp);
    if v.VNone? {
      NoneStep(env, false, e, buf, sp, hp);
    } else {
      ShownReads(env, e, v.v, buf, sp + 1, hp);
      SomeStep(env, false, e, buf, sp, hp);
    }
  }

  lemma {:induction false} OptParts(env: Env, e: Schema, v: Value, buf: seq<Byte>, sp: nat, hp: nat)
    requires Readable(env, Opt(e), v) && Shows(env, Opt(e), v, buf, sp, hp)
    ensures v.VNone? || v.VSome?
    ensures StackSize(Opt(e)) == 1 + StackSize(e)
    ensures sp < |buf| && buf[sp] == if v.VNone? then 0 else 1
    ensures HeapSize(env, Opt(e), v) == if v.VNone? then 0 else HeapSize(env, e, v.v)
    ensures v.VSome? ==> Readable(env, e, v.v) && Shows(env, e, v.v, buf, sp + 1, hp)
  {
  }

  lemma {:induction false} ShownVec(env: Env, e: Schema, v: Value, buf: seq<Byte>, sp: nat, hp: nat)
    requires Readable(env, Vec(e), v) && Shows(env, Vec(e), v, buf, sp, hp) && sp + StackSize(Vec(e)) <= hp
    ensures Read(env, false, Vec(e), buf, sp, hp) == Ok((v, hp + HeapSize(env, Vec(e), v)))
    decreases v, 1
  {
    hide Read, ReadElems, LE, FromLE, ShowsAll, ShowsUnits, Slotted, TypedAll, FitsAll, UnitSizes;
    var region := buf[hp..hp + HeapSize(env, Vec(e), v)];
    RegionFound(buf, sp, hp, region);
    VecStep(env, false, e, buf, sp, hp, region);
    ShownElems(env, e, v, region);
  }

  lemma {:induction false} ShownElems(env: Env, e: Schema, v: Value, region: seq<Byte>)
    requires Readable(env, Vec(e), v) && |region| == HeapSize(env, Vec(e), v)
    requires if Fixed(e) then ShowsAll(env, Rep(Len(v.vs), e), v.vs, region, 0, |region|)
             else ShowsUnits(env, Rep(Len(v.vs), e), v.vs, region, 0)
    ensures ReadElems(env, false, e, region) == Ok(v.vs)
    decreases v, 0
  {
    hide ReadAll, ReadUnits, ReadRun, ShowsAll, ShowsUnits;
    var n := Len(v.vs);
    if Fixed(e) {
      RunStep(env, false, e, region, n);
      FixedAllRep(n, e);
      FixedAllHaveNoHeap(env, Rep(n, e), v.vs);
      ShownAll(env, Rep(n, e), v.vs, region, 0, |region|);
    } else if v.vs.Cons? {
      ShownUnits(env, e, v.vs, region, 0);
    } else {
      NoUnits(env, e, region, 0);
    }
  }

  lemma {:induction false} NoUnits(env: Env, e: Schema, region: seq<Byte>, at: nat)
    requires at == |region|
    ensures ReadUnits(env, false, e, region, at) == Ok(Nil)
  {
  }

  lemma {:induction false} ShownEnum(env: Env, k: nat, v: Value, buf: seq<Byte>, sp: nat, hp: nat)
    requires Readable(env, Enum(k), v) && Shows(env, Enum(k), v, buf, sp, hp) && sp + StackSize(Enum(k)) <= hp
    ensures Read(env, false, Enum(k), buf, sp, hp) == Ok((v, hp + HeapSize(env, Enum(k), v)))
    decreases v, 1
  {
    hide Read, ReadAll, LE, FromLE, ShowsAll, TypedAll, FitsAll, SlottedAll, HeapSum;
    var ss, len := env[k][v.tag], HeapSize(env, Enum(k), v);
    var region := buf[hp..hp + len];
    RegionFound(buf, sp + 1, hp, region);
    EnumStep(env, false, k, buf, sp, hp, region);
    assert len == UnitSize(env, ss, v.vs);
    ShownAll(env, ss, v.vs, region, 0, StackSum(ss));
  }

  lemma {:induction false} ShownAll(env: Env, ss: List<Schema>, vs: List<Value>, buf: seq<Byte>, sp: nat, hp: nat)
    requires PlausibleAll(env, ss, vs) && ShowsAll(env, ss, vs, buf, sp, hp)
    requires sp + StackSum(ss) <= hp && hp + HeapSum(env, ss, vs) <= |buf|
    ensures ReadAll(env, false, ss, buf, sp, hp) == Ok((vs, hp + HeapSum(env, ss, vs)))
    decreases vs, 3
  {
    if vs.Cons? {
      hide *;
      ShownNext(env, ss, vs, buf, sp, hp);
    }
  }

  lemma {:induction false} ShownNext(env: Env, ss: List<Schema>, vs: List<Value>, buf: seq<Byte>, sp: nat, hp: nat)
    requires vs.Cons? && PlausibleAll(env, ss, vs) && ShowsAll(env, ss, vs, buf, sp, hp)
    requires sp + StackSum(ss) <= hp && hp + HeapSum(env, ss, vs) <= |buf|
    ensures ReadAll(env, false, ss, buf, sp, hp) == Ok((vs, hp + HeapSum(env, ss, vs)))
    decreases vs, 2
  {
    hide Read, ReadAll, Shows, ShowsAll, Readable, PlausibleAll, HeapSize, HeapSum, StackSize, StackSum;
    AllParts(env, ss, vs);
    AllStep(env, false, ss, buf, sp, hp);
    ShowsNext(env, ss, vs, buf, sp, hp);
    ShownReads(env, ss.head, vs.head, buf, sp, hp);
    ShownAll(env, ss.tail, vs.tail, buf, sp + StackSize(ss.head), hp + HeapSize(env, ss.head, vs.head));
  }

  lemma {:induction false} AllParts(env: Env, ss: List<Schema>, vs: List<Value>)
    requires PlausibleAll(env, ss, vs) && vs.Cons?
    ensures ss.Cons? && Typed(env, ss.head, vs.head) && TypedAll(env, ss.tail, vs.tail) && TypedAll(env, ss, vs)
    ensures Readable(env, ss.head, vs.head) && PlausibleAll(env, ss.tail, vs.tail)
    ensures StackSum(ss) == StackSize(ss.head) + StackSum(ss.tail)
    ensures HeapSum(env, ss, vs) == HeapSize(env, ss.head, vs.head) + HeapSum(env, ss.tail, vs.tail)
    ensures UnitSizes(env, ss, vs) == StackSize(ss.head) + HeapSize(env, ss.head, vs.head) + UnitSizes(env, ss.tail, vs.tail)
  {
    hide Typed, Fits, Slotted, StackSize, HeapSize;
  }

  lemma {:induction false} ShownUnits(env: Env, e: Schema, vs: List<Value>, region: seq<Byte>, at: nat)
    requires StackSize(e) > 0 && PlausibleAll(env, Rep(Len(vs), e), vs) && ShowsUnits(env, Rep(Len(vs), e), vs, region, at)
    requires at + UnitSizes(env, Rep(Len(vs), e), vs) == |region|
    ensures ReadUnits(env, false, e, region, at) == Ok(vs)
    decreases vs, 3
  {
    if vs.Cons? {
      RepStep(e, vs);
      hide *;
      ShownUnit(env, e, vs, region, at);
    } else {
      NoUnits(env, e, region, at);
    }
  }

  lemma {:induction false} RepStep(e: Schema, vs: List<Value>)
    requires vs.Cons?
    ensures Rep(Len(vs), e) == Cons(e, Rep(Len(vs.tail), e))
  {
  }

  lemma {:induction false} ShownUnit(env: Env, e: Schema, vs: List<Value>, region: seq<Byte>, at: nat)
    requires vs.Cons? && Rep(Len(vs), e) == Cons(e, Rep(Len(vs.tail), e))
    requires StackSize(e) > 0 && PlausibleAll(env, Rep(Len(vs), e), vs) && ShowsUnits(env, Rep(Len(vs), e), vs, region, at)
    requires at + UnitSizes(env, Rep(Len(vs), e), vs) == |region|
    ensures ReadUnits(env, false, e, region, at) == Ok(vs)
    decreases vs, 2
  {
    hide Read, ReadUnits, Shows, ShowsUnits, Readable, PlausibleAll, HeapSize, UnitSizes, StackSize, StackSum, HeapSum, Rep, Len;
    AllParts(env, Rep(Len(vs), e), vs);
    UnitsStep(env, false, e, region, at);
    ShowsUnit(env, e, vs, region, at);
    ShownReads(env, e, vs.head, region, at, at + StackSize(e));
    ShownUnits(env, e, vs.tail, region, at + StackSize(e) + HeapSize(env, e, vs.head));
  }

  // ----- Main result -----

  /**
   Decoding succeeds with `v` if and only if `v` is a value of the type that fits and has no slotless vector elements,
   the bytes are as many as its encoding, and every one of them is as written, except behind a `None`.
   */
  lemma {:induction false} AcceptsIff(env: Env, s: Schema, bytes: seq<Byte>, v: Value)
    ensures Decode(env, false, s, bytes) == Ok(v) <==>
            && Readable(env, s, v)
            && |bytes| == StackSize(s) + HeapSize(env, s, v)
            && Shows(env, s, v, bytes, 0, StackSize(s))
  {
    hide Read, Shows, Typed, Fits, Slotted, HeapSize;
    if Decode(env, false, s, bytes) == Ok(v) {
      ReadShows(env, s, bytes, 0, StackSize(s), v, |bytes|);
    } else if Readable(env, s, v) && |bytes| == StackSize(s) + HeapSize(env, s, v) && Shows(env, s, v, bytes, 0, StackSize(s)) {
      ShownReads(env, s, v, bytes, 0, StackSize(s));
    }
  }
}
