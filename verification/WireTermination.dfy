/** When reading ends: on arbitrary bytes, exactly the vectors of dynamic elements without stack slots can stall it. */
module WireTermination {
  import opened Bytes
  import opened Wrappers
  import opened Wire
  import opened WireSteps

  // ----- Types that never stall -----

  /** Every vector in the type has elements with stack slots, or elements that can carry no heap bytes. */
  predicate EndingType(s: Schema) {
    match s
    case Vec(e) => (StackSize(e) > 0 || Fixed(e)) && EndingType(e)
    case Opt(e) => EndingType(e)
    case Arr(_, e) => EndingType(e)
    case Struct(fs) => EndingTypes(fs)
    case _ => true
  }

  predicate EndingTypes(ss: List<Schema>) {
    ss.Nil? || (EndingType(ss.head) && EndingTypes(ss.tail))
  }

  predicate EndingEnv(env: Env) {
    forall k, t :: 0 <= k < |env| && 0 <= t < |env[k]| ==> EndingTypes(env[k][t])
  }

  lemma {:induction false} EndingTypesRep(n: nat, e: Schema)
    requires EndingType(e)
    ensures EndingTypes(Rep(n, e))
  {
    if n > 0 {
      EndingTypesRep(n - 1, e);
    }
  }

  lemma {:induction false} ReadEnds(env: Env, strict: bool, s: Schema, buf: seq<Byte>, sp: nat, hp: nat)
    requires EndingEnv(env) && EndingType(s) && sp + StackSize(s) <= hp <= |buf|
    ensures Read(env, strict, s, buf, sp, hp) != Err(Stalls)
    decreases |buf|, Weight(s), 0
  {
    match s
    case Leaf(k) => LeafEnds(env, strict, k, buf, sp, hp);
    case Str =>
    case Vec(e) =>
      var region := TakeRegion(buf, sp, hp);
      if region.Ok? {
        VecStep(env, strict, e, buf, sp, hp, region.value);
        ElemsEnd(env, strict, e, region.value);
      }
    case Opt(e) => OptEnds(env, strict, e, buf, sp, hp);
    case Arr(n, e) =>
      hide Read;
      WeightAllRep(n, e);
      ArrStep(env, strict, n, e, buf, sp, hp);
      EndingTypesRep(n, e);
      AllEnd(env, strict, Rep(n, e), buf, sp, hp);
    case Struct(fs) =>
      hide Read;
      StructStep(env, strict, fs, buf, sp, hp);
      AllEnd(env, strict, fs, buf, sp, hp);
    case Enum(k) =>
      var region := TakeRegion(buf, sp + 1, hp);
      if region.Ok? && HasVariant(env, k, buf[sp]) {
        EnumStep(env, strict, k, buf, sp, hp, region.value);
        PayloadEnds(env, strict, env[k][buf[sp]], region.value);
      }
  }

  lemma {:induction false} LeafEnds(env: Env, strict: bool, k: Leaf, buf: seq<Byte>, sp: nat, hp: nat)
    requires sp + LeafWidth(k) <= hp <= |buf|
    ensures Read(env, strict, Leaf(k), buf, sp, hp) != Err(Stalls)
  {
    hide Read, FromLE, LeafValid;
    LeafStep(env, strict, k, buf, sp, hp);
  }

  lemma {:induction false} OptEnds(env: Env, strict: bool, e: Schema, buf: seq<Byte>, sp: nat, hp: nat)
    requires EndingEnv(env) && EndingType(e) && sp + 1 + StackSize(e) <= hp <= |buf|
    ensures Read(env, strict, Opt(e), buf, sp, hp) != Err(Stalls)
    decreases |buf|, 1 + Weight(e), -1
  {
    hide EndingEnv, EndingType;
    if buf[sp] > 1 {
      OptRefused(env, strict, e, buf, sp, hp);
    }
    hide Read;
    if buf[sp] == 0 {
      NoneStep(env, strict, e, buf, sp, hp);
    } else if buf[sp] == 1 {
      SomeStep(env, strict, e, buf, sp, hp);
      ReadEnds(env, strict, e, buf, sp + 1, hp);
    }
  }

  lemma {:induction false} OptRefused(env: Env, strict: bool, e: Schema, buf: seq<Byte>, sp: nat, hp: nat)
    requires sp + 1 + StackSize(e) <= hp <= |buf| && buf[sp] > 1
    ensures Read(env, strict, Opt(e), buf, sp, hp) == Err(InvalidBool(buf[sp]))
  {
  }

  lemma {:induction false} AllEnd(env: Env, strict: bool, ss: List<Schema>, buf: seq<Byte>, sp: nat, hp: nat)
    requires EndingEnv(env) && EndingTypes(ss) && sp + StackSum(ss) <= hp <= |buf|
    ensures ReadAll(env, strict, ss, buf, sp, hp) != Err(Stalls)
    decreases |buf|, WeightAll(ss), 0
  {
    if ss.Cons? {
      hide Read;
      AllStep(env, strict, ss, buf, sp, hp);
      ReadEnds(env, strict, ss.head, buf, sp, hp);
      var r := Read(env, strict, ss.head, buf, sp, hp);
      if r.Ok? {
        AllEnd(env, strict, ss.tail, buf, sp + StackSize(ss.head), r.value.1);
      }
    }
  }

  lemma {:induction false} PayloadEnds(env: Env, strict: bool, ss: List<Schema>, region: seq<Byte>)
    requires EndingEnv(env) && EndingTypes(ss)
    ensures ReadPayload(env, strict, ss, region) != Err(Stalls)
    decreases |region|, WeightAll(ss), 1
  {
    hide ReadAll;
    if StackSum(ss) <= |region| {
      AllEnd(env, strict, ss, region, 0, StackSum(ss));
    }
  }

  lemma {:induction false} ElemsEnd(env: Env, strict: bool, e: Schema, region: seq<Byte>)
    requires EndingEnv(env) && EndingType(e) && (StackSize(e) > 0 || Fixed(e))
    ensures ReadElems(env, strict, e, region) != Err(Stalls)
    decreases |region| + 1, 0, 1
  {
    if Fixed(e) {
      RunEnds(env, strict, e, region);
    } else {
      UnitsEnd(env, strict, e, region, 0);
    }
  }

  lemma {:induction false} RunEnds(env: Env, strict: bool, e: Schema, region: seq<Byte>)
    requires EndingEnv(env) && EndingType(e)
    ensures ReadRun(env, strict, e, region) != Err(Stalls)
    decreases |region| + 1, 0, 0
  {
    hide ReadAll;
    var size := StackSize(e);
    if size > 0 && |region| % size == 0 {
      var count := |region| / size;
      StackSumRep(count, e);
      WholeQuotient(|region|, size);
      EndingTypesRep(count, e);
      AllEnd(env, strict, Rep(count, e), region, 0, |region|);
    }
  }

  lemma {:induction false} UnitsEnd(env: Env, strict: bool, e: Schema, region: seq<Byte>, offset: nat)
    requires EndingEnv(env) && EndingType(e) && StackSize(e) > 0 && offset <= |region|
    ensures ReadUnits(env, strict, e, region, offset) != Err(Stalls)
    decreases |region|, Weight(e) + 1, |region| - offset
  {
    hide EndingEnv, EndingType;
    if offset < |region| && offset + StackSize(e) <= |region| {
      hide Read, ReadUnits, StackSize;
      UnitsStep(env, strict, e, region, offset);
      ReadEnds(env, strict, e, region, offset, offset + StackSize(e));
      var r := Read(env, strict, e, region, offset, offset + StackSize(e));
      if r.Ok? {
        UnitsEnd(env, strict, e, region, r.value.1);
      }
    }
  }

  /** For types without vectors of dynamic slotless elements, decoding ends on every byte string, with a value or an error. */
  lemma {:induction false} DecodeEnds(env: Env, strict: bool, s: Schema, bytes: seq<Byte>)
    requires EndingEnv(env) && EndingType(s)
    ensures Decode(env, strict, s, bytes) != Err(Stalls)
  {
    hide Read;
    if StackSize(s) <= |bytes| {
      ReadEnds(env, strict, s, bytes, 0, StackSize(s));
    }
  }

  // ----- The others do -----

  /** A type without stack slots is read from nothing. */
  lemma {:induction false} NoSlotReads(env: Env, strict: bool, s: Schema, buf: seq<Byte>, sp: nat, hp: nat)
    requires StackSize(s) == 0 && sp <= hp <= |buf|
    ensures var r := Read(env, strict, s, buf, sp, hp); r.Ok? && r.value.1 == hp
    decreases |buf|, Weight(s), 0
  {
    match s
    case Arr(n, e) =>
      hide Read;
      WeightAllRep(n, e);
      ArrStep(env, strict, n, e, buf, sp, hp);
      NoSlotReadAll(env, strict, Rep(n, e), buf, sp, hp);
    case Struct(fs) =>
      hide Read;
      StructStep(env, strict, fs, buf, sp, hp);
      NoSlotReadAll(env, strict, fs, buf, sp, hp);
  }

  lemma {:induction false} NoSlotReadAll(env: Env, strict: bool, ss: List<Schema>, buf: seq<Byte>, sp: nat, hp: nat)
    requires StackSum(ss) == 0 && sp <= hp <= |buf|
    ensures var r := ReadAll(env, strict, ss, buf, sp, hp); r.Ok? && r.value.1 == hp
    decreases |buf|, WeightAll(ss), 0
  {
    if ss.Cons? {
      hide Read;
      AllStep(env, strict, ss, buf, sp, hp);
      NoSlotReads(env, strict, ss.head, buf, sp, hp);
      NoSlotReadAll(env, strict, ss.tail, buf, sp + StackSize(ss.head), hp);
    }
  }

  /** A vector region of dynamic elements without stack slots stalls the read loop if and only if it is not empty. */
  lemma {:induction false} StallsUnlessEmpty(env: Env, strict: bool, e: Schema, region: seq<Byte>)
    requires !Fixed(e) && StackSize(e) == 0
    ensures ReadElems(env, strict, e, region) == if region == [] then Ok(Nil) else Err(Stalls)
  {
    hide Read;
    if region != [] {
      NoSlotReads(env, strict, e, region, 0, 0);
    }
  }

  /** Decoding such a vector stalls exactly on the byte strings that hold a region of at least one byte. */
  lemma {:induction false} DecodeStallsIff(env: Env, strict: bool, e: Schema, bytes: seq<Byte>)
    requires !Fixed(e) && StackSize(e) == 0
    ensures Decode(env, strict, Vec(e), bytes) == Err(Stalls)
       <==> |bytes| >= 4 && 0 < FromLE(bytes[..4]) <= |bytes| - 4
  {
    hide Read, FromLE, ReadElems;
    if |bytes| >= 4 {
      assert bytes[0..4] == bytes[..4];
      var region := TakeRegion(bytes, 0, 4);
      if region.Ok? {
        VecStep(env, strict, e, bytes, 0, 4, region.value);
        StallsUnlessEmpty(env, strict, e, region.value);
      } else {
        VecRefused(env, strict, e, bytes);
      }
    }
  }

  lemma {:induction false} VecRefused(env: Env, strict: bool, e: Schema, bytes: seq<Byte>)
    requires |bytes| >= 4 && TakeRegion(bytes, 0, 4).Err?
    ensures Read(env, strict, Vec(e), bytes, 0, 4) == Err(TakeRegion(bytes, 0, 4).error) != Err(Stalls)
  {
    hide FromLE;
  }

  /** Five bytes that stall the decoder of any such vector. */
  lemma {:induction false} FiveBytesStall(env: Env, strict: bool, e: Schema)
    requires !Fixed(e) && StackSize(e) == 0
    ensures Decode(env, strict, Vec(e), [1, 0, 0, 0, 0]) == Err(Stalls)
  {
    var bytes: seq<Byte> := [1, 0, 0, 0, 0];
    assert bytes[..4] == [1, 0, 0, 0];
    assert FromLE(bytes[..4]) == 1 by {
      assert bytes[..4][1..] == [0, 0, 0] && [0, 0, 0][1..] == [0, 0] && [0, 0][1..] == [0] && [0][1..] == [];
    }
    hide Decode;
    DecodeStallsIff(env, strict, e, bytes);
  }
}
