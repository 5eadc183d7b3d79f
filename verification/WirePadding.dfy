/** The one freedom of the format: the slots behind a `None`. Accepted bytes are canonical exactly if they are zero. */
module WirePadding {
  import opened Bytes
  import opened Wrappers
  import opened Wire
  import opened WireSteps
  import opened WireCanonical

  /** The `n` bytes from `p` on. */
  function Cut(buf: seq<Byte>, p: nat, n: nat): seq<Byte> {
    if p + n <= |buf| then buf[p..p + n] else []
  }

  /** Where `v` stands with its slots at `sp` and its heap bytes at `hp`, the unused slots of every `None` in it are zero. */
  predicate ZeroPadded(env: Env, s: Schema, v: Value, buf: seq<Byte>, sp: nat, hp: nat)
    requires Typed(env, s, v)
    decreases v
  {
    match s
    case Leaf(_) => true
    case Str => true
    case Opt(e) => if v.VNone? then Cut(buf, sp + 1, StackSize(e)) == Zeros(StackSize(e)) else ZeroPadded(env, e, v.v, buf, sp + 1, hp)
    case Arr(n, e) => PaddedAll(env, Rep(n, e), v.vs, buf, sp, hp)
    case Struct(fs) => PaddedAll(env, fs, v.vs, buf, sp, hp)
    case Vec(e) =>
      var region := Cut(buf, hp, HeapSize(env, s, v));
      if Fixed(e) then PaddedAll(env, Rep(Len(v.vs), e), v.vs, region, 0, |region|)
      else PaddedUnits(env, Rep(Len(v.vs), e), v.vs, region, 0)
    case Enum(k) =>
      var region := Cut(buf, hp, HeapSize(env, s, v));
      PaddedAll(env, env[k][v.tag], v.vs, region, 0, StackSum(env[k][v.tag]))
  }

  predicate PaddedAll(env: Env, ss: List<Schema>, vs: List<Value>, buf: seq<Byte>, sp: nat, hp: nat)
    requires TypedAll(env, ss, vs)
    decreases vs
  {
    vs.Cons? ==>
      && ZeroPadded(env, ss.head, vs.head, buf, sp, hp)
      && PaddedAll(env, ss.tail, vs.tail, buf, sp + StackSize(ss.head), hp + HeapSize(env, ss.head, vs.head))
  }

  /** Elements written as one unit each. */
  predicate PaddedUnits(env: Env, ss: List<Schema>, vs: List<Value>, buf: seq<Byte>, at: nat)
    requires TypedAll(env, ss, vs)
    decreases vs
  {
    vs.Cons? ==>
      && ZeroPadded(env, ss.head, vs.head, buf, at, at + StackSize(ss.head))
      && PaddedUnits(env, ss.tail, vs.tail, buf, at + StackSize(ss.head) + HeapSize(env, ss.head, vs.head))
  }

  lemma {:induction false} PaddedNext(env: Env, ss: List<Schema>, vs: List<Value>, buf: seq<Byte>, sp: nat, hp: nat)
    requires ss.Cons? && vs.Cons? && Typed(env, ss.head, vs.head) && TypedAll(env, ss.tail, vs.tail)
    ensures TypedAll(env, ss, vs)
    ensures PaddedAll(env, ss, vs, buf, sp, hp) <==>
            && ZeroPadded(env, ss.head, vs.head, buf, sp, hp)
            && PaddedAll(env, ss.tail, vs.tail, buf, sp + StackSize(ss.head), hp + HeapSize(env, ss.head, vs.head))
  {
    hide ZeroPadded, Typed, StackSize, HeapSize;
  }

  lemma {:induction false} PaddedUnit(env: Env, e: Schema, vs: List<Value>, buf: seq<Byte>, at: nat)
    requires vs.Cons? && Typed(env, e, vs.head) && TypedAll(env, Rep(Len(vs.tail), e), vs.tail)
    ensures TypedAll(env, Rep(Len(vs), e), vs)
    ensures PaddedUnits(env, Rep(Len(vs), e), vs, buf, at) <==>
            && ZeroPadded(env, e, vs.head, buf, at, at + StackSize(e))
            && PaddedUnits(env, Rep(Len(vs.tail), e), vs.tail, buf, at + StackSize(e) + HeapSize(env, e, vs.head))
  {
    hide ZeroPadded, Typed, StackSize, HeapSize;
  }

  function Checked<T>(padded: bool, value: T): Result<T> {
    if padded then Ok(value) else Err(NonZeroPadding)
  }

  // ----- A reader that checks padding refuses exactly what is not zero-padded -----

  lemma {:induction false} StrictRead(env: Env, s: Schema, buf: seq<Byte>, sp: nat, hp: nat, v: Value, end: nat)
    requires sp + StackSize(s) <= hp <= |buf| && Read(env, false, s, buf, sp, hp) == Ok((v, end))
    ensures Typed(env, s, v) && end == hp + HeapSize(env, s, v)
    ensures Read(env, true, s, buf, sp, hp) == Checked(ZeroPadded(env, s, v, buf, sp, hp), (v, end))
    decreases |buf|, Weight(s), 1
  {
    ReadSound(env, false, s, buf, sp, hp, v, end);
    match s
    case Leaf(k) => LeafStrict(env, k, buf, sp, hp);
    case Str => StrStrict(env, buf, sp, hp);
    case Vec(e) => VecStrict(env, e, buf, sp, hp, v, end);
    case Opt(e) => OptStrict(env, e, buf, sp, hp, v, end);
    case Arr(n, e) => ArrStrict(env, n, e, buf, sp, hp, v, end);
    case Struct(fs) => StructStrict(env, fs, buf, sp, hp, v, end);
    case Enum(k) => EnumStrict(env, k, buf, sp, hp, v, end);
  }

  lemma {:induction false} LeafStrict(env: Env, k: Leaf, buf: seq<Byte>, sp: nat, hp: nat)
    requires sp + LeafWidth(k) <= hp <= |buf|
    ensures Read(env, true, Leaf(k), buf, sp, hp) == Read(env, false, Leaf(k), buf, sp, hp)
  {
    hide Read, FromLE, ReadLeaf;
    LeafStep(env, true, k, buf, sp, hp);
    LeafStep(env, false, k, buf, sp, hp);
  }

  lemma {:induction false} StrStrict(env: Env, buf: seq<Byte>, sp: nat, hp: nat)
    requires sp + 4 <= hp <= |buf| && Read(env, false, Str, buf, sp, hp).Ok?
    ensures Read(env, true, Str, buf, sp, hp) == Read(env, false, Str, buf, sp, hp)
  {
    hide FromLE;
    var region := TakeRegion(buf, sp, hp).value;
    hide Read;
    StrStep(env, true, buf, sp, hp, region);
    StrStep(env, false, buf, sp, hp, region);
  }

  lemma {:induction false} OptStrict(env: Env, e: Schema, buf: seq<Byte>, sp: nat, hp: nat, v: Value, end: nat)
    requires sp + 1 + StackSize(e) <= hp <= |buf| && Read(env, false, Opt(e), buf, sp, hp) == Ok((v, end))
    requires Typed(env, Opt(e), v)
    ensures Read(env, true, Opt(e), buf, sp, hp) == Checked(ZeroPadded(env, Opt(e), v, buf, sp, hp), (v, end))
    decreases |buf|, 1 + Weight(e), 0
  {
    assert buf[sp] == 0 || buf[sp] == 1;
    hide Read;
    if buf[sp] == 0 {
      NoneStep(env, true, e, buf, sp, hp);
      NoneStep(env, false, e, buf, sp, hp);
    } else {
      SomeStep(env, true, e, buf, sp, hp);
      SomeStep(env, false, e, buf, sp, hp);
      var inner := Read(env, false, e, buf, sp + 1, hp);
      StrictRead(env, e, buf, sp + 1, hp, inner.value.0, inner.value.1);
    }
  }

  lemma {:induction false} ArrStrict(env: Env, n: nat, e: Schema, buf: seq<Byte>, sp: nat, hp: nat, v: Value, end: nat)
    requires sp + StackSize(Arr(n, e)) <= hp <= |buf| && Read(env, false, Arr(n, e), buf, sp, hp) == Ok((v, end))
    requires Typed(env, Arr(n, e), v)
    ensures Read(env, true, Arr(n, e), buf, sp, hp) == Checked(ZeroPadded(env, Arr(n, e), v, buf, sp, hp), (v, end))
    decreases |buf|, Weight(Arr(n, e)), 0
  {
    hide Read, ReadAll;
    WeightAllRep(n, e);
    ArrStep(env, true, n, e, buf, sp, hp);
    ArrStep(env, false, n, e, buf, sp, hp);
    AllStrict(env, Rep(n, e), buf, sp, hp, v.vs, end);
  }

  lemma {:induction false} StructStrict(env: Env, fs: List<Schema>, buf: seq<Byte>, sp: nat, hp: nat, v: Value, end: nat)
    requires sp + StackSum(fs) <= hp <= |buf| && Read(env, false, Struct(fs), buf, sp, hp) == Ok((v, end))
    requires Typed(env, Struct(fs), v)
    ensures Read(env, true, Struct(fs), buf, sp, hp) == Checked(ZeroPadded(env, Struct(fs), v, buf, sp, hp), (v, end))
    decreases |buf|, Weight(Struct(fs)), 0
  {
    hide Read, ReadAll;
    StructStep(env, true, fs, buf, sp, hp);
    StructStep(env, false, fs, buf, sp, hp);
    AllStrict(env, fs, buf, sp, hp, v.vs, end);
  }

  lemma {:induction false} VecStrict(env: Env, e: Schema, buf: seq<Byte>, sp: nat, hp: nat, v: Value, end: nat)
    requires sp + 4 <= hp <= |buf| && Read(env, false, Vec(e), buf, sp, hp) == Ok((v, end))
    requires Typed(env, Vec(e), v) && end == hp + HeapSize(env, Vec(e), v)
    ensures Read(env, true, Vec(e), buf, sp, hp) == Checked(ZeroPadded(env, Vec(e), v, buf, sp, hp), (v, end))
    decreases |buf|, 0, 0
  {
    hide FromLE;
    var region := TakeRegion(buf, sp, hp).value;
    hide Read, ReadElems, HeapSize;
    VecStep(env, true, e, buf, sp, hp, region);
    VecStep(env, false, e, buf, sp, hp, region);
    ElemsStrict(env, e, region, v.vs);
    assert Cut(buf, hp, |region|) == region;
  }

  lemma {:induction false} EnumStrict(env: Env, k: nat, buf: seq<Byte>, sp: nat, hp: nat, v: Value, end: nat)
    requires sp + 5 <= hp <= |buf| && Read(env, false, Enum(k), buf, sp, hp) == Ok((v, end))
    requires Typed(env, Enum(k), v) && end == hp + HeapSize(env, Enum(k), v)
    ensures Read(env, true, Enum(k), buf, sp, hp) == Checked(ZeroPadded(env, Enum(k), v, buf, sp, hp), (v, end))
    decreases |buf|, 0, 0
  {
    hide FromLE;
    var region := TakeRegion(buf, sp + 1, hp).value;
    assert HasVariant(env, k, buf[sp]);
    hide Read, ReadPayload, HeapSize;
    EnumStep(env, true, k, buf, sp, hp, region);
    EnumStep(env, false, k, buf, sp, hp, region);
    PayloadStrict(env, env[k][buf[sp]], region, v.vs);
    assert Cut(buf, hp, |region|) == region;
  }

  lemma {:induction false} AllStrict(env: Env, ss: List<Schema>, buf: seq<Byte>, sp: nat, hp: nat, vs: List<Value>, end: nat)
    requires sp + StackSum(ss) <= hp <= |buf| && ReadAll(env, false, ss, buf, sp, hp) == Ok((vs, end))
    ensures TypedAll(env, ss, vs)
    ensures ReadAll(env, true, ss, buf, sp, hp) == Checked(PaddedAll(env, ss, vs, buf, sp, hp), (vs, end))
    decreases |buf|, WeightAll(ss), 1
  {
    if ss.Cons? {
      hide *;
      NextStrict(env, ss, buf, sp, hp, vs, end);
    }
  }

  lemma {:induction false} NextStrict(env: Env, ss: List<Schema>, buf: seq<Byte>, sp: nat, hp: nat, vs: List<Value>, end: nat)
    requires ss.Cons? && sp + StackSum(ss) <= hp <= |buf| && ReadAll(env, false, ss, buf, sp, hp) == Ok((vs, end))
    ensures TypedAll(env, ss, vs)
    ensures ReadAll(env, true, ss, buf, sp, hp) == Checked(PaddedAll(env, ss, vs, buf, sp, hp), (vs, end))
    decreases |buf|, WeightAll(ss), 0
  {
    hide Read, ReadAll, ZeroPadded, PaddedAll, Typed, TypedAll, HeapSize, StackSize, Weight;
    AllStep(env, true, ss, buf, sp, hp);
    AllStep(env, false, ss, buf, sp, hp);
    var mid := Read(env, false, ss.head, buf, sp, hp).value.1;
    StrictRead(env, ss.head, buf, sp, hp, vs.head, mid);
    AllStrict(env, ss.tail, buf, sp + StackSize(ss.head), mid, vs.tail, end);
    PaddedNext(env, ss, vs, buf, sp, hp);
  }

  lemma {:induction false} PayloadStrict(env: Env, ss: List<Schema>, region: seq<Byte>, vs: List<Value>)
    requires ReadPayload(env, false, ss, region) == Ok(vs)
    ensures TypedAll(env, ss, vs)
    ensures ReadPayload(env, true, ss, region) == Checked(PaddedAll(env, ss, vs, region, 0, StackSum(ss)), vs)
    decreases |region|, WeightAll(ss), 2
  {
    hide ReadAll, PaddedAll;
    AllStrict(env, ss, region, 0, StackSum(ss), vs, |region|);
  }

  lemma {:induction false} ElemsStrict(env: Env, e: Schema, region: seq<Byte>, vs: List<Value>)
    requires ReadElems(env, false, e, region) == Ok(vs)
    ensures TypedAll(env, Rep(Len(vs), e), vs)
    ensures ReadElems(env, true, e, region)
         == Checked(if Fixed(e) then PaddedAll(env, Rep(Len(vs), e), vs, region, 0, |region|)
                    else PaddedUnits(env, Rep(Len(vs), e), vs, region, 0), vs)
    decreases |region| + 1, 0, 1
  {
    hide ReadRun, ReadUnits, PaddedAll, PaddedUnits;
    if Fixed(e) {
      RunStrict(env, e, region, vs);
    } else {
      UnitsStrict(env, e, region, 0, vs);
    }
  }

  lemma {:induction false} RunStrict(env: Env, e: Schema, region: seq<Byte>, vs: List<Value>)
    requires Fixed(e) && ReadRun(env, false, e, region) == Ok(vs)
    ensures TypedAll(env, Rep(Len(vs), e), vs)
    ensures ReadRun(env, true, e, region) == Checked(PaddedAll(env, Rep(Len(vs), e), vs, region, 0, |region|), vs)
    decreases |region| + 1, 0, 0
  {
    hide ReadAll, PaddedAll;
    var size := StackSize(e);
    var count := |region| / size;
    StackSumRep(count, e);
    WholeQuotient(|region|, size);
    var r := ReadAll(env, false, Rep(count, e), region, 0, |region|).value;
    AllStrict(env, Rep(count, e), region, 0, |region|, vs, r.1);
    RepLength(env, count, e, vs);
  }

  lemma {:induction false} UnitsStrict(env: Env, e: Schema, region: seq<Byte>, offset: nat, vs: List<Value>)
    requires offset <= |region| && ReadUnits(env, false, e, region, offset) == Ok(vs)
    ensures TypedAll(env, Rep(Len(vs), e), vs)
    ensures ReadUnits(env, true, e, region, offset) == Checked(PaddedUnits(env, Rep(Len(vs), e), vs, region, offset), vs)
    decreases |region|, Weight(e) + 1, |region| - offset, 1
  {
    if StackSize(e) == 0 {
      hide *;
      NoSlotUnits(env, false, e, region, offset, vs);
    }
    if offset < |region| {
      FullUnit(env, false, e, region, offset);
      hide *;
      UnitStrict(env, e, region, offset, vs);
    }
  }

  lemma {:induction false} UnitStrict(env: Env, e: Schema, region: seq<Byte>, offset: nat, vs: List<Value>)
    requires StackSize(e) > 0 && offset + StackSize(e) <= |region| && ReadUnits(env, false, e, region, offset) == Ok(vs)
    ensures TypedAll(env, Rep(Len(vs), e), vs)
    ensures ReadUnits(env, true, e, region, offset) == Checked(PaddedUnits(env, Rep(Len(vs), e), vs, region, offset), vs)
    decreases |region|, Weight(e) + 1, |region| - offset, 0
  {
    hide Read, ReadUnits, ZeroPadded, PaddedUnits, Typed, TypedAll, HeapSize, StackSize, Rep, Len, Weight;
    UnitsStep(env, true, e, region, offset);
    UnitsStep(env, false, e, region, offset);
    var mid := Read(env, false, e, region, offset, offset + StackSize(e)).value.1;
    StrictRead(env, e, region, offset, offset + StackSize(e), vs.head, mid);
    UnitsStrict(env, e, region, mid, vs.tail);
    PaddedUnit(env, e, vs, region, offset);
  }

  /** Bytes the reader accepts are the encoding of what it returns if and only if every `None` in them is padded with zeros. */
  lemma {:induction false} CanonicalIffZeroPadded(env: Env, s: Schema, bytes: seq<Byte>, v: Value)
    requires Decode(env, false, s, bytes) == Ok(v)
    ensures Typed(env, s, v)
    ensures bytes == Encoding(env, s, v) <==> ZeroPadded(env, s, v, bytes, 0, StackSize(s))
  {
    hide Read, ZeroPadded, Encoding, Typed, HeapSize;
    StrictRead(env, s, bytes, 0, StackSize(s), v, |bytes|);
    CanonicalIffStrict(env, s, bytes, v);
  }
}
