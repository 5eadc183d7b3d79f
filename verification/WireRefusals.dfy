/** What the decoder says of bytes that are wrong in one place. */
module WireRefusals {
  import opened Bytes
  import opened Wrappers
  import opened Wire
  import opened WireSteps
  import opened WirePrefix

  /** A length slot and its region, behind `front`. */
  function Framed(front: seq<Byte>, region: seq<Byte>): seq<Byte> {
    front + LE(4, |region|) + region
  }

  lemma {:induction false} RegionTaken(front: seq<Byte>, region: seq<Byte>)
    requires |region| < U32_LIMIT
    ensures TakeRegion(Framed(front, region), |front|, |front| + 4) == Ok(region)
  {
    hide LE, FromLE, Pow256;
    Pow256Of4();
    FromLEOfLE(4, |region|);
    var buf := Framed(front, region);
    assert buf[|front|..|front| + 4] == LE(4, |region|);
    assert buf[|front| + 4..|front| + 4 + |region|] == region;
  }

  /** A text that is not UTF-8. */
  lemma {:induction false} BrokenText(env: Env, strict: bool, text: seq<Byte>)
    requires !ValidUtf8(text) && |text| < U32_LIMIT
    ensures Decode(env, strict, Str, Framed([], text)) == Err(InvalidUtf8)
  {
    hide LE, ValidUtf8, TakeRegion, Read;
    RegionTaken([], text);
    StrStep(env, strict, Framed([], text), 0, 4, text);
  }

  /** A region that is no whole number of fixed elements, or whose elements have no slots. */
  lemma {:induction false} RaggedRegion(env: Env, strict: bool, e: Schema, region: seq<Byte>)
    requires Fixed(e) && |region| < U32_LIMIT && (StackSize(e) == 0 || |region| % StackSize(e) != 0)
    ensures Decode(env, strict, Vec(e), Framed([], region)) ==
            Err(RegionMismatch(if StackSize(e) == 0 then 0 else |region| % StackSize(e), |region|))
  {
    assert ReadElems(env, strict, e, region) == ReadRun(env, strict, e, region);
    hide LE, TakeRegion, Read, ReadAll, ReadElems;
    RegionTaken([], region);
    VecStep(env, strict, e, Framed([], region), 0, 4, region);
  }

  /** A tag that names no variant. */
  lemma {:induction false} UnknownTag(env: Env, strict: bool, k: nat, tag: Byte, region: seq<Byte>)
    requires !HasVariant(env, k, tag) && |region| < U32_LIMIT
    ensures Decode(env, strict, Enum(k), Framed([tag], region)) == Err(InvalidTag(tag))
  {
    hide LE, TakeRegion, HasVariant;
    RegionTaken([tag], region);
    assert Read(env, strict, Enum(k), Framed([tag], region), 0, 5) == Err(InvalidTag(tag));
  }

  /** A payload that ends before its region does. */
  lemma {:induction false} PaddedPayload(env: Env, strict: bool, k: nat, tag: Byte, unit: seq<Byte>, more: seq<Byte>)
    requires HasVariant(env, k, tag) && ReadPayload(env, strict, env[k][tag], unit).Ok? && more != [] && |unit + more| < U32_LIMIT
    ensures Decode(env, strict, Enum(k), Framed([tag], unit + more)) == Err(RegionMismatch(|unit|, |unit + more|))
  {
    var ss := env[k][tag];
    assert (unit + more)[..|unit|] == unit;
    PayloadParts(env, strict, ss, unit);
    AllCut(env, strict, ss, unit + more, |unit|, 0, StackSum(ss));
    assert ReadPayload(env, strict, ss, unit + more) == Err(RegionMismatch(|unit|, |unit + more|)) by { hide Read, ReadAll; }
    hide LE, TakeRegion, Read, ReadAll, ReadPayload, HasVariant;
    RegionTaken([tag], unit + more);
    EnumStep(env, strict, k, Framed([tag], unit + more), 0, 5, unit + more);
  }

  lemma {:induction false} PayloadParts(env: Env, strict: bool, ss: List<Schema>, unit: seq<Byte>)
    requires ReadPayload(env, strict, ss, unit).Ok?
    ensures StackSum(ss) <= |unit|
    ensures var r := ReadAll(env, strict, ss, unit, 0, StackSum(ss)); r.Ok? && r.value.1 == |unit|
  {
    hide Read, ReadAll;
  }
}
