/** Which types can stall the decoder: exactly those with a way to a vector of dynamic slotless elements. */
module WireStalls {
  import opened Bytes
  import opened Wrappers
  import opened Wire
  import opened WireSizes
  import opened WireSteps
  import opened WireRoundTrip
  import opened WireCanonical
  import opened WireTermination

  /** A way into a type, past values that are read first. */
  datatype Way =
    | Bottom                                            // a vector of dynamic elements without stack slots
    | Element(way: Way)                                 // into the first element of another vector
    | Inner(way: Way)                                   // into an option
    | Member(before: List<Value>, way: Way)             // into an array or a struct
    | Payload(tag: nat, before: List<Value>, way: Way)  // into a variant of an enum

  predicate Leads(env: Env, s: Schema, way: Way)
    decreases way, 0
  {
    match way
    case Bottom => s.Vec? && !Fixed(s.elem) && StackSize(s.elem) == 0
    case Element(w) => s.Vec? && !Fixed(s.elem) && StackSize(s.elem) > 0 && Leads(env, s.elem, w)
    case Inner(w) => s.Opt? && Leads(env, s.elem, w)
    case Member(b, w) => (s.Arr? || s.Struct?) && LeadsIn(env, Members(s), b, w)
    case Payload(tag, b, w) => s.Enum? && HasVariant(env, s.k, tag) && LeadsIn(env, env[s.k][tag], b, w)
  }

  function Members(s: Schema): List<Schema>
    requires s.Arr? || s.Struct?
  {
    if s.Arr? then Rep(s.n, s.elem) else s.fields
  }

  predicate LeadsIn(env: Env, ss: List<Schema>, before: List<Value>, way: Way)
    decreases way, 1 + Len(before)
  {
    && ss.Cons?
    && if before.Nil? then Leads(env, ss.head, way)
       else Readable(env, ss.head, before.head) && LeadsIn(env, ss.tail, before.tail, way)
  }

  // ----- The bytes that take that way -----

  function WayStack(env: Env, s: Schema, way: Way): (r: seq<Byte>)
    requires Leads(env, s, way)
    ensures |r| == StackSize(s)
    decreases way, 0
  {
    match way
    case Bottom => LE(4, 1)
    case Element(w) => LE(4, StackSize(s.elem) + |WayHeap(env, s.elem, w)|)
    case Inner(w) => [1] + WayStack(env, s.elem, w)
    case Member(b, w) =>
      if s.Arr? then StackSumRep(s.n, s.elem); StackIn(env, Members(s), b, w) else StackIn(env, Members(s), b, w)
    case Payload(tag, b, w) => [tag] + LE(4, StackSum(env[s.k][tag]) + |HeapIn(env, env[s.k][tag], b, w)|)
  }

  function StackIn(env: Env, ss: List<Schema>, before: List<Value>, way: Way): (r: seq<Byte>)
    requires LeadsIn(env, ss, before, way)
    ensures |r| == StackSum(ss)
    decreases way, 1 + Len(before)
  {
    if before.Nil? then WayStack(env, ss.head, way) + Zeros(StackSum(ss.tail))
    else Stack(env, ss.head, before.head) + StackIn(env, ss.tail, before.tail, way)
  }

  function WayHeap(env: Env, s: Schema, way: Way): seq<Byte>
    requires Leads(env, s, way)
    decreases way, 0
  {
    match way
    case Bottom => [0]
    case Element(w) => WayStack(env, s.elem, w) + WayHeap(env, s.elem, w)
    case Inner(w) => WayHeap(env, s.elem, w)
    case Member(b, w) => HeapIn(env, Members(s), b, w)
    case Payload(tag, b, w) => StackIn(env, env[s.k][tag], b, w) + HeapIn(env, env[s.k][tag], b, w)
  }

  function HeapIn(env: Env, ss: List<Schema>, before: List<Value>, way: Way): seq<Byte>
    requires LeadsIn(env, ss, before, way)
    decreases way, 1 + Len(before)
  {
    if before.Nil? then WayHeap(env, ss.head, way)
    else Heap(env, ss.head, before.head) + HeapIn(env, ss.tail, before.tail, way)
  }

  /** Its regions have lengths that a slot can hold. */
  predicate WayFits(env: Env, s: Schema, way: Way)
    requires Leads(env, s, way)
    decreases way, 0
  {
    match way
    case Bottom => true
    case Element(w) => |WayHeap(env, s, way)| < U32_LIMIT && WayFits(env, s.elem, w)
    case Inner(w) => WayFits(env, s.elem, w)
    case Member(b, w) => FitsIn(env, Members(s), b, w)
    case Payload(tag, b, w) => |WayHeap(env, s, way)| < U32_LIMIT && FitsIn(env, env[s.k][tag], b, w)
  }

  predicate FitsIn(env: Env, ss: List<Schema>, before: List<Value>, way: Way)
    requires LeadsIn(env, ss, before, way)
    decreases way, 1 + Len(before)
  {
    if before.Nil? then WayFits(env, ss.head, way) else FitsIn(env, ss.tail, before.tail, way)
  }

  // ----- They stall the reader -----

  lemma {:induction false} WayStalls(env: Env, strict: bool, s: Schema, way: Way, buf: seq<Byte>, sp: nat, hp: nat)
    requires Leads(env, s, way) && WayFits(env, s, way) && sp + StackSize(s) <= hp <= |buf|
    requires At(buf, sp, WayStack(env, s, way)) && At(buf, hp, WayHeap(env, s, way))
    ensures Read(env, strict, s, buf, sp, hp) == Err(Stalls)
    decreases way, 0
  {
    hide At, Read, ReadAll, ReadElems, ReadPayload, LE, Stack, Heap;
    match way
    case Bottom =>
      RegionFound(buf, sp, hp, [0]);
      VecStep(env, strict, s.elem, buf, sp, hp, [0]);
      StallsUnlessEmpty(env, strict, s.elem, [0]);
    case Element(w) =>
      var unit := WayHeap(env, s, way);
      RegionFound(buf, sp, hp, unit);
      VecStep(env, strict, s.elem, buf, sp, hp, unit);
      UnitStalls(env, strict, s.elem, w);
    case Inner(w) =>
      FlagPlaced(buf, sp, 1, WayStack(env, s.elem, w));
      WayStalls(env, strict, s.elem, w, buf, sp + 1, hp);
      SomeStep(env, strict, s.elem, buf, sp, hp);
    case Member(b, w) =>
      if s.Arr? {
        ArrStep(env, strict, s.n, s.elem, buf, sp, hp);
      } else {
        StructStep(env, strict, s.fields, buf, sp, hp);
      }
      InStalls(env, strict, Members(s), b, w, buf, sp, hp);
    case Payload(tag, b, w) =>
      var unit := WayHeap(env, s, way);
      FlagPlaced(buf, sp, tag, LE(4, |unit|));
      RegionFound(buf, sp + 1, hp, unit);
      EnumStep(env, strict, s.k, buf, sp, hp, unit);
      PayloadStalls(env, strict, env[s.k][tag], b, w);
  }

  lemma {:induction false} UnitStalls(env: Env, strict: bool, e: Schema, way: Way)
    requires Leads(env, e, way) && WayFits(env, e, way) && !Fixed(e) && StackSize(e) > 0
    ensures ReadElems(env, strict, e, WayStack(env, e, way) + WayHeap(env, e, way)) == Err(Stalls)
    decreases way, 1
  {
    hide Read, ReadUnits, WayStack, WayHeap, Leads, WayFits, At;
    var st, hs := WayStack(env, e, way), WayHeap(env, e, way);
    WholeAt(st, hs);
    WayStalls(env, strict, e, way, st + hs, 0, StackSize(e));
    UnitsStep(env, strict, e, st + hs, 0);
  }

  lemma {:induction false} WholeAt(a: seq<Byte>, b: seq<Byte>)
    ensures At(a + b, 0, a) && At(a + b, |a|, b)
  {
    assert At(a + b, 0, a + b);
    AtConcat(a + b, 0, a, b);
  }

  lemma {:induction false} PayloadStalls(env: Env, strict: bool, ss: List<Schema>, before: List<Value>, way: Way)
    requires LeadsIn(env, ss, before, way) && FitsIn(env, ss, before, way)
    ensures ReadPayload(env, strict, ss, StackIn(env, ss, before, way) + HeapIn(env, ss, before, way)) == Err(Stalls)
    decreases way, 2 + Len(before)
  {
    hide ReadAll, StackIn, HeapIn, LeadsIn, FitsIn, At;
    var st, hs := StackIn(env, ss, before, way), HeapIn(env, ss, before, way);
    WholeAt(st, hs);
    InStalls(env, strict, ss, before, way, st + hs, 0, StackSum(ss));
  }

  lemma {:induction false} InStalls(env: Env, strict: bool, ss: List<Schema>, before: List<Value>, way: Way, buf: seq<Byte>, sp: nat, hp: nat)
    requires LeadsIn(env, ss, before, way) && FitsIn(env, ss, before, way) && sp + StackSum(ss) <= hp <= |buf|
    requires At(buf, sp, StackIn(env, ss, before, way)) && At(buf, hp, HeapIn(env, ss, before, way))
    ensures ReadAll(env, strict, ss, buf, sp, hp) == Err(Stalls)
    decreases way, 1 + Len(before)
  {
    hide At, Read, ReadAll, Stack, Heap, WayStack, WayHeap, StackSize;
    AllStep(env, strict, ss, buf, sp, hp);
    if before.Nil? {
      AtConcat(buf, sp, WayStack(env, ss.head, way), Zeros(StackSum(ss.tail)));
      WayStalls(env, strict, ss.head, way, buf, sp, hp);
    } else {
      var v := before.head;
      AtConcat(buf, sp, Stack(env, ss.head, v), StackIn(env, ss.tail, before.tail, way));
      AtConcat(buf, hp, Heap(env, ss.head, v), HeapIn(env, ss.tail, before.tail, way));
      AtBound(buf, hp, Heap(env, ss.head, v));
      AtBound(buf, hp + |Heap(env, ss.head, v)|, HeapIn(env, ss.tail, before.tail, way));
      ReadPlaced(env, strict, ss.head, v, buf, sp, hp);
      InStalls(env, strict, ss.tail, before.tail, way, buf, sp + StackSize(ss.head), hp + |Heap(env, ss.head, v)|);
    }
  }

  lemma {:induction false} AtBound(buf: seq<Byte>, p: nat, bs: seq<Byte>)
    requires At(buf, p, bs)
    ensures p + |bs| <= |buf|
  {
  }

  // ----- Nothing else does -----

  lemma {:induction false} FixedLeadsNowhere(env: Env, s: Schema, way: Way)
    requires Fixed(s)
    ensures !Leads(env, s, way)
    decreases way, 0
  {
    match way
    case Bottom =>
    case Element(w) =>
    case Inner(w) =>
      if s.Opt? {
        FixedLeadsNowhere(env, s.elem, w);
      }
    case Member(b, w) =>
      if s.Arr? {
        FixedAllRep(s.n, s.elem);
      }
      if s.Arr? || s.Struct? {
        FixedLeadsNowhereIn(env, Members(s), b, w);
      }
    case Payload(tag, b, w) =>
  }

  lemma {:induction false} FixedLeadsNowhereIn(env: Env, ss: List<Schema>, before: List<Value>, way: Way)
    requires FixedAll(ss)
    ensures !LeadsIn(env, ss, before, way)
    decreases way, 1 + Len(before)
  {
    if ss.Cons? {
      if before.Nil? {
        FixedLeadsNowhere(env, ss.head, way);
      } else {
        FixedLeadsNowhereIn(env, ss.tail, before.tail, way);
      }
    }
  }

  /** The way fits, and its heap bytes would stand in the buffer. */
  ghost predicate Found(env: Env, s: Schema, way: Way, hp: nat, size: nat) {
    Leads(env, s, way) && WayFits(env, s, way) && hp + |WayHeap(env, s, way)| <= size
  }

  ghost predicate FoundIn(env: Env, ss: List<Schema>, before: List<Value>, way: Way, hp: nat, size: nat) {
    LeadsIn(env, ss, before, way) && FitsIn(env, ss, before, way) && hp + |HeapIn(env, ss, before, way)| <= size
  }

  lemma {:induction false} StalledRead(env: Env, strict: bool, s: Schema, buf: seq<Byte>, sp: nat, hp: nat) returns (way: Way)
    requires sp + StackSize(s) <= hp <= |buf| && Read(env, strict, s, buf, sp, hp) == Err(Stalls)
    ensures Found(env, s, way, hp, |buf|)
    decreases |buf|, Weight(s), 0
  {
    hide Read, Found;
    match s
    case Leaf(k) => LeafEnds(env, strict, k, buf, sp, hp);
    case Str => StrEnds(env, strict, buf, sp, hp);
    case Vec(e) => way := StalledVec(env, strict, e, buf, sp, hp);
    case Opt(e) => way := StalledOpt(env, strict, e, buf, sp, hp);
    case Arr(n, e) => way := StalledArr(env, strict, n, e, buf, sp, hp);
    case Struct(fs) => way := StalledStruct(env, strict, fs, buf, sp, hp);
    case Enum(k) => way := StalledEnum(env, strict, k, buf, sp, hp);
  }

  lemma {:induction false} StrEnds(env: Env, strict: bool, buf: seq<Byte>, sp: nat, hp: nat)
    requires sp + 4 <= hp <= |buf|
    ensures Read(env, strict, Str, buf, sp, hp) != Err(Stalls)
  {
    hide FromLE, ValidUtf8;
  }

  lemma {:induction false} StalledOpt(env: Env, strict: bool, e: Schema, buf: seq<Byte>, sp: nat, hp: nat) returns (way: Way)
    requires sp + 1 + StackSize(e) <= hp <= |buf| && Read(env, strict, Opt(e), buf, sp, hp) == Err(Stalls)
    ensures Found(env, Opt(e), way, hp, |buf|)
    decreases |buf|, 1 + Weight(e), -1
  {
    assert buf[sp] == 1;
    SomeStep(env, strict, e, buf, sp, hp);
    hide Read;
    var w := StalledRead(env, strict, e, buf, sp + 1, hp);
    way := Inner(w);
  }

  lemma {:induction false} StalledArr(env: Env, strict: bool, n: nat, e: Schema, buf: seq<Byte>, sp: nat, hp: nat) returns (way: Way)
    requires sp + StackSize(Arr(n, e)) <= hp <= |buf| && Read(env, strict, Arr(n, e), buf, sp, hp) == Err(Stalls)
    ensures Found(env, Arr(n, e), way, hp, |buf|)
    decreases |buf|, Weight(Arr(n, e)), -1
  {
    hide Read, ReadAll, LeadsIn, FitsIn, HeapIn;
    WeightAllRep(n, e);
    ArrStep(env, strict, n, e, buf, sp, hp);
    var b, w := StalledAll(env, strict, Rep(n, e), buf, sp, hp);
    way := Member(b, w);
  }

  lemma {:induction false} StalledStruct(env: Env, strict: bool, fs: List<Schema>, buf: seq<Byte>, sp: nat, hp: nat) returns (way: Way)
    requires sp + StackSum(fs) <= hp <= |buf| && Read(env, strict, Struct(fs), buf, sp, hp) == Err(Stalls)
    ensures Found(env, Struct(fs), way, hp, |buf|)
    decreases |buf|, 1 + WeightAll(fs), -1
  {
    hide Read, ReadAll, LeadsIn, FitsIn, HeapIn;
    StructStep(env, strict, fs, buf, sp, hp);
    var b, w := StalledAll(env, strict, fs, buf, sp, hp);
    way := Member(b, w);
  }

  lemma {:induction false} StalledVec(env: Env, strict: bool, e: Schema, buf: seq<Byte>, sp: nat, hp: nat) returns (way: Way)
    requires sp + 4 <= hp <= |buf| && Read(env, strict, Vec(e), buf, sp, hp) == Err(Stalls)
    ensures Found(env, Vec(e), way, hp, |buf|)
    decreases |buf|, 0, -1
  {
    hide FromLE;
    var region := TakeRegion(buf, sp, hp).value;
    VecStep(env, strict, e, buf, sp, hp, region);
    hide Read, ReadUnits, ReadRun;
    SlotOf(buf, sp, hp, region);
    if Fixed(e) {
      FixedRunEnds(env, strict, e, region);
    }
    assert !Fixed(e);
    if StackSize(e) == 0 {
      StallsUnlessEmpty(env, strict, e, region);
      way := Bottom;
    } else {
      var w := StalledUnits(env, strict, e, region, 0);
      way := Element(w);
    }
  }

  lemma {:induction false} FixedRunEnds(env: Env, strict: bool, e: Schema, region: seq<Byte>)
    requires Fixed(e)
    ensures ReadRun(env, strict, e, region) != Err(Stalls)
    decreases |region| + 1, 0, 0
  {
    hide ReadAll, LeadsIn;
    if ReadRun(env, strict, e, region) == Err(Stalls) {
      var count := |region| / StackSize(e);
      StackSumRep(count, e);
      WholeQuotient(|region|, StackSize(e));
      FixedAllRep(count, e);
      var b, w := StalledAll(env, strict, Rep(count, e), region, 0, |region|);
      FixedLeadsNowhereIn(env, Rep(count, e), b, w);
    }
  }

  lemma {:induction false} StalledUnits(env: Env, strict: bool, e: Schema, region: seq<Byte>, offset: nat) returns (way: Way)
    requires StackSize(e) > 0 && offset <= |region| && ReadUnits(env, strict, e, region, offset) == Err(Stalls)
    ensures Found(env, e, way, offset + StackSize(e), |region|)
    decreases |region|, Weight(e) + 1, |region| - offset
  {
    assert offset + StackSize(e) <= |region|;
    UnitsStep(env, strict, e, region, offset);
    hide Read, ReadUnits, Found, StackSize;
    var r := Read(env, strict, e, region, offset, offset + StackSize(e));
    if r.Err? {
      way := StalledRead(env, strict, e, region, offset, offset + StackSize(e));
    } else {
      way := StalledUnits(env, strict, e, region, r.value.1);
      FoundEarlier(env, e, way, offset + StackSize(e), r.value.1 + StackSize(e), |region|);
    }
  }

  lemma {:induction false} FoundEarlier(env: Env, s: Schema, way: Way, hp: nat, hp': nat, size: nat)
    requires Found(env, s, way, hp', size) && hp <= hp'
    ensures Found(env, s, way, hp, size)
  {
  }

  lemma {:induction false} StalledEnum(env: Env, strict: bool, k: nat, buf: seq<Byte>, sp: nat, hp: nat) returns (way: Way)
    requires sp + 5 <= hp <= |buf| && Read(env, strict, Enum(k), buf, sp, hp) == Err(Stalls)
    ensures Found(env, Enum(k), way, hp, |buf|)
    decreases |buf|, 0, -1
  {
    hide FromLE;
    var region := TakeRegion(buf, sp + 1, hp).value;
    EnumStep(env, strict, k, buf, sp, hp, region);
    hide Read, ReadAll, LeadsIn, FitsIn, HeapIn;
    SlotOf(buf, sp + 1, hp, region);
    var ss := env[k][buf[sp]];
    var b, w := StalledAll(env, strict, ss, region, 0, StackSum(ss));
    way := Payload(buf[sp], b, w);
  }

  lemma {:induction false} StalledAll(env: Env, strict: bool, ss: List<Schema>, buf: seq<Byte>, sp: nat, hp: nat)
    returns (before: List<Value>, way: Way)
    requires sp + StackSum(ss) <= hp <= |buf| && ReadAll(env, strict, ss, buf, sp, hp) == Err(Stalls)
    ensures FoundIn(env, ss, before, way, hp, |buf|)
    decreases |buf|, WeightAll(ss), 0
  {
    AllStep(env, strict, ss, buf, sp, hp);
    hide Read, ReadAll, StackSize, Found, FoundIn, Sound;
    var r := Read(env, strict, ss.head, buf, sp, hp);
    if r.Err? {
      before := Nil;
      way := StalledRead(env, strict, ss.head, buf, sp, hp);
      FoundFirst(env, ss, way, hp, |buf|);
    } else {
      var (v, mid) := r.value;
      ReadSound(env, strict, ss.head, buf, sp, hp, v, mid);
      var b;
      b, way := StalledAll(env, strict, ss.tail, buf, sp + StackSize(ss.head), mid);
      before := Cons(v, b);
      FoundPast(env, strict, ss, v, b, way, buf, sp, hp, mid);
    }
  }

  lemma {:induction false} FoundFirst(env: Env, ss: List<Schema>, way: Way, hp: nat, size: nat)
    requires ss.Cons? && Found(env, ss.head, way, hp, size)
    ensures FoundIn(env, ss, Nil, way, hp, size)
  {
    hide Leads, WayFits, WayHeap;
  }

  lemma {:induction false} FoundPast(env: Env, strict: bool, ss: List<Schema>, v: Value, before: List<Value>, way: Way,
                                     buf: seq<Byte>, sp: nat, hp: nat, mid: nat)
    requires ss.Cons? && Sound(env, strict, ss.head, v, buf, sp, hp, mid) && FoundIn(env, ss.tail, before, way, mid, |buf|)
    ensures FoundIn(env, ss, Cons(v, before), way, hp, |buf|)
  {
    hide Typed, Fits, Slotted, Heap, HeapSize, Placed, Exact, Leads, WayFits, WayHeap;
    HeapLength(env, ss.head, v);
  }

  // ----- Main result -----

  lemma {:induction false} WayBytesStall(env: Env, strict: bool, s: Schema, way: Way)
    requires Leads(env, s, way) && WayFits(env, s, way)
    ensures Decode(env, strict, s, WayStack(env, s, way) + WayHeap(env, s, way)) == Err(Stalls)
  {
    hide Read, Leads, WayFits, WayStack, WayHeap, At;
    WholeAt(WayStack(env, s, way), WayHeap(env, s, way));
    WayStalls(env, strict, s, way, WayStack(env, s, way) + WayHeap(env, s, way), 0, StackSize(s));
  }

  /**
   Some bytes stall the decoder of a type if and only if a way leads from it, past values that can be read, to a
   vector of dynamic elements without stack slots.
   */
  lemma {:induction false} StallsIffWay(env: Env, strict: bool, s: Schema)
    ensures (exists bytes :: Decode(env, strict, s, bytes) == Err(Stalls))
       <==> (exists way :: Leads(env, s, way) && WayFits(env, s, way))
  {
    hide Read, Leads, WayFits, WayStack, WayHeap;
    if way :| Leads(env, s, way) && WayFits(env, s, way) {
      WayBytesStall(env, strict, s, way);
    }
    if bytes :| Decode(env, strict, s, bytes) == Err(Stalls) {
      var way := StalledRead(env, strict, s, bytes, 0, StackSize(s));
      assert Leads(env, s, way) && WayFits(env, s, way);
    }
  }
}
