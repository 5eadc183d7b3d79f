/** Sizes: what `heap_size` and `FIXED` promise about the bytes that are written. */
module WireSizes {
  import opened Bytes
  import opened Wire

  /** `FIXED` types never carry heap bytes. */
  lemma {:induction false} FixedHasNoHeap(env: Env, s: Schema, v: Value)
    requires Typed(env, s, v) && Fixed(s)
    ensures HeapSize(env, s, v) == 0
    decreases v
  {
    match s
    case Leaf(_) =>
    case Opt(e) => if v.VSome? { FixedHasNoHeap(env, e, v.v); }
    case Arr(n, e) =>
    case Struct(fs) => FixedAllHaveNoHeap(env, fs, v.vs);
  }

  lemma {:induction false} FixedAllHaveNoHeap(env: Env, ss: List<Schema>, vs: List<Value>)
    requires TypedAll(env, ss, vs) && FixedAll(ss)
    ensures HeapSum(env, ss, vs) == 0
    ensures UnitSizes(env, ss, vs) == StackSum(ss)
    decreases vs
  {
    if vs.Cons? {
      FixedHasNoHeap(env, ss.head, vs.head);
      FixedAllHaveNoHeap(env, ss.tail, vs.tail);
    }
  }

  /** The sum the original takes element by element, whether or not it used the shortcut. */
  lemma {:induction false} VecRegionSize(env: Env, e: Schema, vs: List<Value>)
    requires TypedAll(env, Rep(Len(vs), e), vs)
    ensures HeapSize(env, Vec(e), VList(vs)) == UnitSizes(env, Rep(Len(vs), e), vs)
  {
    if Fixed(e) {
      FixedAllRep(Len(vs), e);
      FixedAllHaveNoHeap(env, Rep(Len(vs), e), vs);
      StackSumRep(Len(vs), e);
    }
  }

  lemma {:induction false} ArrHeapSize(env: Env, n: nat, e: Schema, vs: List<Value>)
    requires TypedAll(env, Rep(n, e), vs)
    ensures HeapSize(env, Arr(n, e), VList(vs)) == HeapSum(env, Rep(n, e), vs)
  {
    if Fixed(e) {
      FixedAllRep(n, e);
      FixedAllHaveNoHeap(env, Rep(n, e), vs);
    }
  }

  /** The heap section has exactly `heap_size()` bytes. */
  lemma {:induction false} HeapLength(env: Env, s: Schema, v: Value)
    requires Typed(env, s, v)
    ensures |Heap(env, s, v)| == HeapSize(env, s, v)
    decreases v
  {
    match s
    case Leaf(_) =>
    case Str =>
    case Vec(e) => VecRegionSize(env, e, v.vs); HeapLengths(env, Rep(Len(v.vs), e), v.vs);
    case Opt(e) => if v.VSome? { HeapLength(env, e, v.v); }
    case Arr(n, e) => ArrHeapSize(env, n, e, v.vs); HeapLengths(env, Rep(n, e), v.vs);
    case Struct(fs) => HeapLengths(env, fs, v.vs);
    case Enum(k) => HeapLengths(env, env[k][v.tag], v.vs);
  }

  lemma {:induction false} HeapLengths(env: Env, ss: List<Schema>, vs: List<Value>)
    requires TypedAll(env, ss, vs)
    ensures |HeapAll(env, ss, vs)| == HeapSum(env, ss, vs)
    ensures |Units(env, ss, vs)| == UnitSizes(env, ss, vs)
    decreases vs
  {
    if vs.Cons? {
      HeapLength(env, ss.head, vs.head);
      HeapLengths(env, ss.tail, vs.tail);
    }
  }

  /** The buffer that `to_wire` allocates up front is exactly what gets written. */
  lemma {:induction false} EncodingLength(env: Env, s: Schema, v: Value)
    requires Typed(env, s, v)
    ensures |Encoding(env, s, v)| == StackSize(s) + HeapSize(env, s, v)
  {
    HeapLength(env, s, v);
  }

  /** A heap section that fits `u32` as a whole has no region that does not. */
  lemma {:induction false} SmallHeapFits(env: Env, s: Schema, v: Value)
    requires Typed(env, s, v) && HeapSize(env, s, v) < U32_LIMIT
    ensures Fits(env, s, v)
    decreases v
  {
    match s
    case Leaf(_) =>
    case Str =>
    case Vec(e) => VecRegionSize(env, e, v.vs); SmallUnitsFit(env, Rep(Len(v.vs), e), v.vs);
    case Opt(e) => if v.VSome? { SmallHeapFits(env, e, v.v); }
    case Arr(n, e) => ArrHeapSize(env, n, e, v.vs); SmallHeapsFit(env, Rep(n, e), v.vs);
    case Struct(fs) => SmallHeapsFit(env, fs, v.vs);
    case Enum(k) => SmallHeapsFit(env, env[k][v.tag], v.vs);
  }

  lemma {:induction false} SmallHeapsFit(env: Env, ss: List<Schema>, vs: List<Value>)
    requires TypedAll(env, ss, vs) && HeapSum(env, ss, vs) < U32_LIMIT
    ensures FitsAll(env, ss, vs)
    decreases vs
  {
    if vs.Cons? {
      SmallHeapFits(env, ss.head, vs.head);
      SmallHeapsFit(env, ss.tail, vs.tail);
    }
  }

  lemma {:induction false} SmallUnitsFit(env: Env, ss: List<Schema>, vs: List<Value>)
    requires TypedAll(env, ss, vs) && UnitSizes(env, ss, vs) < U32_LIMIT
    ensures FitsAll(env, ss, vs)
    decreases vs
  {
    if vs.Cons? {
      SmallHeapFits(env, ss.head, vs.head);
      SmallUnitsFit(env, ss.tail, vs.tail);
    }
  }
}
