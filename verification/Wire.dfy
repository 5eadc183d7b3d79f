/**
 The wire format: schemas, typed values, the two sections a value is written
 to, and the reader that takes them apart again.

 A schema is a type that implements `Wire`. `Box<T>` is written as `T`, so it
 has no constructor of its own. Enums with payloads are named by an index into
 an environment of enum declarations, which is what lets a type such as the
 query expression contain itself.
 */
module Wire {
  import opened Bytes
  import opened Wrappers

  datatype List<T> = Nil | Cons(head: T, tail: List<T>)

  function Len<T>(xs: List<T>): nat {
    if xs.Nil? then 0 else 1 + Len(xs.tail)
  }

  type Width = w: nat | w == 1 || w == 2 || w == 4 || w == 8 || w == 16 witness 1

  /** Types of constant width. A float is its bit pattern; `Tag(n)` is an enum of `n` field-less variants. */
  datatype Leaf = U(w: Width) | I(w: Width) | F(w: Width) | Bool | Char | Tag(n: nat)

  datatype Schema =
    | Leaf(leaf: Leaf)
    | Str
    | Vec(elem: Schema)
    | Opt(elem: Schema)
    | Arr(n: nat, elem: Schema)
    | Struct(fields: List<Schema>)
    | Enum(k: nat)

  /** For each payload enum, the field types of each of its variants. */
  type Env = seq<seq<List<Schema>>>

  datatype Value =
    | VInt(i: int)
    | VStr(bytes: seq<Byte>)
    | VNone
    | VSome(v: Value)
    | VList(vs: List<Value>)
    | VEnum(tag: nat, vs: List<Value>)

  datatype WireError =
    | UnexpectedEnd(needed: nat, offset: nat, len: nat)
    | LengthOverflow(size: nat)
    | InvalidBool(byte: nat)
    | InvalidChar(scalar: nat)
    | InvalidUtf8
    | InvalidTag(tag: nat)
    | RegionMismatch(consumed: nat, expected: nat)
    | TrailingBytes(consumed: nat, len: nat)
    | NonZeroPadding  // raised by the strict reader only
    | Stalls          // the read loop of the original never ends here

  type Result<+T> = Either<T, WireError>

  // ----- Leaves -----

  function LeafWidth(k: Leaf): (r: nat)
    ensures r >= 1
  {
    match k
    case U(w) => w
    case I(w) => w
    case F(w) => w
    case Bool => 1
    case Char => 4
    case Tag(_) => 1
  }

  predicate LeafValid(k: Leaf, i: int) {
    match k
    case U(w) => 0 <= i < Pow256(w)
    case I(w) => -(Pow256(w) / 2) <= i < Pow256(w) / 2
    case F(w) => 0 <= i < Pow256(w)
    case Bool => 0 <= i < 2
    case Char => 0 <= i < 0xD800 || 0xE000 <= i < 0x110000
    case Tag(n) => 0 <= i < n && i < 256
  }

  /** The number written for leaf value `i`: two's complement for signed types. */
  function LeafToNat(k: Leaf, i: int): nat
    requires LeafValid(k, i)
  {
    if i < 0 then i + Pow256(LeafWidth(k)) else i
  }

  function LeafOfNat(k: Leaf, n: nat): int {
    if k.I? && n >= Pow256(k.w) / 2 then n - Pow256(k.w) else n
  }

  function ReadLeaf(k: Leaf, n: nat): Result<int> {
    if LeafValid(k, LeafOfNat(k, n)) then Ok(LeafOfNat(k, n))
    else if k.Char? then Err(InvalidChar(n))
    else if k.Tag? then Err(InvalidTag(n))
    else Err(InvalidBool(n))
  }

  lemma {:induction false} LeafToNatToLeaf(k: Leaf, i: int)
    requires LeafValid(k, i)
    ensures LeafToNat(k, i) < Pow256(LeafWidth(k))
    ensures ReadLeaf(k, LeafToNat(k, i)) == Ok(i)
  {
    Pow256Of4();
    assert Pow256(1) == 256;
    if k.I? {
      assert Pow256(k.w) == 256 * Pow256(k.w - 1);
    }
  }

  lemma {:induction false} NatToLeafToNat(k: Leaf, n: nat)
    requires n < Pow256(LeafWidth(k)) && LeafValid(k, LeafOfNat(k, n))
    ensures LeafToNat(k, LeafOfNat(k, n)) == n
  {
  }

  // ----- UTF-8 (String holds its bytes) -----

  predicate Continuation(b: Byte) { 0x80 <= b < 0xC0 }

  /** Length of the well-formed sequence that starts `bs`, or 0 (table 3-7 of the Unicode Standard). */
  function Utf8Head(bs: seq<Byte>): (r: nat)
    ensures r <= |bs| && r <= 4
  {
    if |bs| >= 1 && bs[0] < 0x80 then 1
    else if |bs| >= 2 && 0xC2 <= bs[0] < 0xE0 && Continuation(bs[1]) then 2
    else if |bs| >= 3 && 0xE0 <= bs[0] < 0xF0 && Continuation(bs[1]) && Continuation(bs[2])
            && (bs[0] == 0xE0 ==> bs[1] >= 0xA0) && (bs[0] == 0xED ==> bs[1] < 0xA0) then 3
    else if |bs| >= 4 && 0xF0 <= bs[0] < 0xF5 && Continuation(bs[1]) && Continuation(bs[2]) && Continuation(bs[3])
            && (bs[0] == 0xF0 ==> bs[1] >= 0x90) && (bs[0] == 0xF4 ==> bs[1] < 0x90) then 4
    else 0
  }

  predicate ValidUtf8(bs: seq<Byte>) {
    bs == [] || (Utf8Head(bs) > 0 && ValidUtf8(bs[Utf8Head(bs)..]))
  }

  // ----- Layout constants of a type -----

  /** `n` copies of `s`: the element types of an array or vector. */
  function Rep(n: nat, s: Schema): List<Schema> {
    if n == 0 then Nil else Cons(s, Rep(n - 1, s))
  }

  /** `n * k` as a sum, which keeps products out of the proofs about layouts. */
  function Times(n: nat, k: nat): nat {
    if n == 0 then 0 else k + Times(n - 1, k)
  }

  lemma {:induction false} TimesIsProduct(n: nat, k: nat)
    ensures Times(n, k) == n * k
  {
    if n > 0 {
      TimesIsProduct(n - 1, k);
      assert n * k == (n - 1) * k + k;
    }
  }

  /** `T::STACK_SIZE` */
  function StackSize(s: Schema): nat {
    match s
    case Leaf(k) => LeafWidth(k)
    case Str => 4
    case Vec(_) => 4
    case Opt(e) => 1 + StackSize(e)
    case Arr(n, e) => Times(n, StackSize(e))
    case Struct(fs) => StackSum(fs)
    case Enum(_) => 1 + 4
  }

  function StackSum(ss: List<Schema>): nat {
    if ss.Nil? then 0 else StackSize(ss.head) + StackSum(ss.tail)
  }

  /** `T::FIXED` */
  predicate Fixed(s: Schema) {
    match s
    case Leaf(_) => true
    case Opt(e) => Fixed(e)
    case Arr(_, e) => Fixed(e)
    case Struct(fs) => FixedAll(fs)
    case _ => false
  }

  predicate FixedAll(ss: List<Schema>) {
    ss.Nil? || (Fixed(ss.head) && FixedAll(ss.tail))
  }

  lemma {:induction false} StackSumRep(n: nat, s: Schema)
    ensures StackSum(Rep(n, s)) == Times(n, StackSize(s))
  {
    if n > 0 {
      StackSumRep(n - 1, s);
    }
  }

  lemma {:induction false} WholeQuotient(n: nat, d: nat)
    requires d > 0 && n % d == 0
    ensures Times(n / d, d) == n
  {
    TimesIsProduct(n / d, d);
  }

  lemma {:induction false} FixedAllRep(n: nat, s: Schema)
    requires Fixed(s)
    ensures FixedAll(Rep(n, s))
  {
    if n > 0 {
      FixedAllRep(n - 1, s);
    }
  }

  // ----- Typed values -----

  predicate Typed(env: Env, s: Schema, v: Value)
    decreases v
  {
    match s
    case Leaf(k) => v.VInt? && LeafValid(k, v.i)
    case Str => v.VStr? && ValidUtf8(v.bytes)
    case Opt(e) => v.VNone? || (v.VSome? && Typed(env, e, v.v))
    case Enum(k) => v.VEnum? && HasVariant(env, k, v.tag) && TypedAll(env, env[k][v.tag], v.vs)
    case Vec(e) => v.VList? && TypedAll(env, Rep(Len(v.vs), e), v.vs)
    case Arr(n, e) => v.VList? && TypedAll(env, Rep(n, e), v.vs)
    case Struct(fs) => v.VList? && TypedAll(env, fs, v.vs)
  }

  predicate TypedAll(env: Env, ss: List<Schema>, vs: List<Value>)
    decreases vs
  {
    if vs.Nil? then ss.Nil? else ss.Cons? && Typed(env, ss.head, vs.head) && TypedAll(env, ss.tail, vs.tail)
  }

  predicate HasVariant(env: Env, k: nat, tag: nat) {
    k < |env| && tag < |env[k]| && tag < 256
  }

  // ----- Sizes -----

  /** `value.heap_size()`, with the shortcut the original takes for fixed elements. */
  function HeapSize(env: Env, s: Schema, v: Value): nat
    requires Typed(env, s, v)
    decreases v
  {
    match s
    case Leaf(_) => 0
    case Str => |v.bytes|
    case Vec(e) => if Fixed(e) then StackSize(Arr(Len(v.vs), e)) else UnitSizes(env, Rep(Len(v.vs), e), v.vs)
    case Opt(e) => if v.VNone? then 0 else HeapSize(env, e, v.v)
    case Arr(n, e) => if Fixed(e) then 0 else HeapSum(env, Rep(n, e), v.vs)
    case Struct(fs) => HeapSum(env, fs, v.vs)
    case Enum(k) => UnitSize(env, env[k][v.tag], v.vs)
  }

  function HeapSum(env: Env, ss: List<Schema>, vs: List<Value>): nat
    requires TypedAll(env, ss, vs)
    decreases vs, 1
  {
    if vs.Nil? then 0 else HeapSize(env, ss.head, vs.head) + HeapSum(env, ss.tail, vs.tail)
  }

  /** Size of the members `vs` written as one `[stack][heap]` unit. */
  function UnitSize(env: Env, ss: List<Schema>, vs: List<Value>): nat
    requires TypedAll(env, ss, vs)
    decreases vs, 2
  {
    StackSum(ss) + HeapSum(env, ss, vs)
  }

  /** Total size of `vs` written as one unit each. */
  function UnitSizes(env: Env, ss: List<Schema>, vs: List<Value>): nat
    requires TypedAll(env, ss, vs)
    decreases vs, 1
  {
    if vs.Nil? then 0
    else StackSize(ss.head) + HeapSize(env, ss.head, vs.head) + UnitSizes(env, ss.tail, vs.tail)
  }

  // ----- The two sections of an encoded value -----

  function Stack(env: Env, s: Schema, v: Value): (r: seq<Byte>)
    requires Typed(env, s, v)
    ensures |r| == StackSize(s)
    decreases v
  {
    match s
    case Leaf(k) => LE(LeafWidth(k), LeafToNat(k, v.i))
    case Str => LE(4, |v.bytes|)
    case Vec(_) => LE(4, HeapSize(env, s, v))
    case Opt(e) => if v.VNone? then [0] + Zeros(StackSize(e)) else [1] + Stack(env, e, v.v)
    case Arr(n, e) => StackSumRep(n, e); StackAll(env, Rep(n, e), v.vs)
    case Struct(fs) => StackAll(env, fs, v.vs)
    case Enum(_) => [v.tag] + LE(4, HeapSize(env, s, v))
  }

  function StackAll(env: Env, ss: List<Schema>, vs: List<Value>): (r: seq<Byte>)
    requires TypedAll(env, ss, vs)
    ensures |r| == StackSum(ss)
    decreases vs
  {
    if vs.Nil? then [] else Stack(env, ss.head, vs.head) + StackAll(env, ss.tail, vs.tail)
  }

  function Heap(env: Env, s: Schema, v: Value): seq<Byte>
    requires Typed(env, s, v)
    decreases v
  {
    match s
    case Leaf(_) => []
    case Str => v.bytes
    case Vec(e) => Units(env, Rep(Len(v.vs), e), v.vs)
    case Opt(e) => if v.VNone? then [] else Heap(env, e, v.v)
    case Arr(n, e) => HeapAll(env, Rep(n, e), v.vs)
    case Struct(fs) => HeapAll(env, fs, v.vs)
    case Enum(k) => StackAll(env, env[k][v.tag], v.vs) + HeapAll(env, env[k][v.tag], v.vs)
  }

  function HeapAll(env: Env, ss: List<Schema>, vs: List<Value>): seq<Byte>
    requires TypedAll(env, ss, vs)
    decreases vs
  {
    if vs.Nil? then [] else Heap(env, ss.head, vs.head) + HeapAll(env, ss.tail, vs.tail)
  }

  function Units(env: Env, ss: List<Schema>, vs: List<Value>): seq<Byte>
    requires TypedAll(env, ss, vs)
    decreases vs
  {
    if vs.Nil? then []
    else Stack(env, ss.head, vs.head) + Heap(env, ss.head, vs.head) + Units(env, ss.tail, vs.tail)
  }

  /** `[stack][heap]` */
  function Encoding(env: Env, s: Schema, v: Value): seq<Byte>
    requires Typed(env, s, v)
  {
    Stack(env, s, v) + Heap(env, s, v)
  }

  /** Every heap region of `v` can be described by a `u32` length slot. */
  predicate Fits(env: Env, s: Schema, v: Value)
    requires Typed(env, s, v)
    decreases v
  {
    match s
    case Leaf(_) => true
    case Str => |v.bytes| < U32_LIMIT
    case Vec(e) => HeapSize(env, s, v) < U32_LIMIT && FitsAll(env, Rep(Len(v.vs), e), v.vs)
    case Opt(e) => v.VNone? || Fits(env, e, v.v)
    case Arr(n, e) => FitsAll(env, Rep(n, e), v.vs)
    case Struct(fs) => FitsAll(env, fs, v.vs)
    case Enum(k) => HeapSize(env, s, v) < U32_LIMIT && FitsAll(env, env[k][v.tag], v.vs)
  }

  predicate FitsAll(env: Env, ss: List<Schema>, vs: List<Value>)
    requires TypedAll(env, ss, vs)
    decreases vs
  {
    vs.Cons? ==> Fits(env, ss.head, vs.head) && FitsAll(env, ss.tail, vs.tail)
  }

  // ----- Reading -----

  /** Termination weight of a type. */
  function Weight(s: Schema): nat {
    match s
    case Opt(e) => 1 + Weight(e)
    case Arr(n, e) => 1 + Times(n, 1 + Weight(e))
    case Struct(fs) => 1 + WeightAll(fs)
    case _ => 0
  }

  function WeightAll(ss: List<Schema>): nat {
    if ss.Nil? then 0 else 1 + Weight(ss.head) + WeightAll(ss.tail)
  }

  lemma {:induction false} WeightAllRep(n: nat, s: Schema)
    ensures WeightAll(Rep(n, s)) == Times(n, 1 + Weight(s))
  {
    if n > 0 {
      WeightAllRep(n - 1, s);
    }
  }

  /** The heap region that the length slot at `sp` claims from heap position `hp`. */
  function TakeRegion(buf: seq<Byte>, sp: nat, hp: nat): (r: Result<seq<Byte>>)
    requires sp + 4 <= hp <= |buf|
    ensures r.Ok? ==> |r.value| == FromLE(buf[sp..sp + 4]) && At(buf, hp, r.value)
  {
    var len := FromLE(buf[sp..sp + 4]);
    if hp + len <= |buf| then Ok(buf[hp..hp + len]) else Err(UnexpectedEnd(len, hp, |buf|))
  }

  /**
   Reads a value of type `s` whose stack slots start at `sp` and whose heap bytes start at `hp`;
   returns it with the heap position after it. The original reader is `strict == false`; the
   strict one differs in one branch, and refuses a `None` whose padding is not zero.
   */
  function Read(env: Env, strict: bool, s: Schema, buf: seq<Byte>, sp: nat, hp: nat): (r: Result<(Value, nat)>)
    requires sp + StackSize(s) <= hp <= |buf|
    ensures r.Ok? ==> hp <= r.value.1 <= |buf|
    decreases |buf|, Weight(s), 0
  {
    match s
    case Leaf(k) =>
      var i :- ReadLeaf(k, FromLE(buf[sp..sp + LeafWidth(k)]));
      Ok((VInt(i), hp))
    case Str =>
      var region :- TakeRegion(buf, sp, hp);
      if ValidUtf8(region) then Ok((VStr(region), hp + |region|)) else Err(InvalidUtf8)
    case Vec(e) =>
      var region :- TakeRegion(buf, sp, hp);
      var vs :- ReadElems(env, strict, e, region);
      Ok((VList(vs), hp + |region|))
    case Opt(e) =>
      if buf[sp] == 0 then
        if strict && buf[sp + 1..sp + 1 + StackSize(e)] != Zeros(StackSize(e)) then Err(NonZeroPadding)
        else Ok((VNone, hp))
      else if buf[sp] == 1 then
        var (v, hp') :- Read(env, strict, e, buf, sp + 1, hp);
        Ok((VSome(v), hp'))
      else Err(InvalidBool(buf[sp]))
    case Arr(n, e) =>
      StackSumRep(n, e);
      WeightAllRep(n, e);
      var (vs, hp') :- ReadAll(env, strict, Rep(n, e), buf, sp, hp);
      Ok((VList(vs), hp'))
    case Struct(fs) =>
      var (vs, hp') :- ReadAll(env, strict, fs, buf, sp, hp);
      Ok((VList(vs), hp'))
    case Enum(k) =>
      var region :- TakeRegion(buf, sp + 1, hp);
      if !HasVariant(env, k, buf[sp]) then Err(InvalidTag(buf[sp]))
      else
        var vs :- ReadPayload(env, strict, env[k][buf[sp]], region);
        Ok((VEnum(buf[sp], vs), hp + |region|))
  }

  function ReadAll(env: Env, strict: bool, ss: List<Schema>, buf: seq<Byte>, sp: nat, hp: nat): (r: Result<(List<Value>, nat)>)
    requires sp + StackSum(ss) <= hp <= |buf|
    ensures r.Ok? ==> hp <= r.value.1 <= |buf|
    decreases |buf|, WeightAll(ss), 0
  {
    if ss.Nil? then Ok((Nil, hp))
    else
      var (v, hp1) :- Read(env, strict, ss.head, buf, sp, hp);
      var (vs, hp2) :- ReadAll(env, strict, ss.tail, buf, sp + StackSize(ss.head), hp1);
      Ok((Cons(v, vs), hp2))
  }

  /** The variant payload of an enum: one unit that must fill its region. */
  function ReadPayload(env: Env, strict: bool, ss: List<Schema>, region: seq<Byte>): Result<List<Value>>
    decreases |region|, WeightAll(ss), 1
  {
    if StackSum(ss) > |region| then Err(UnexpectedEnd(StackSum(ss), 0, |region|))
    else
      var (vs, end) :- ReadAll(env, strict, ss, region, 0, StackSum(ss));
      if end == |region| then Ok(vs) else Err(RegionMismatch(end, |region|))
  }

  /** The elements of a vector region: a run of stack slots if they are fixed, else back-to-back units. */
  function ReadElems(env: Env, strict: bool, e: Schema, region: seq<Byte>): Result<List<Value>>
    decreases |region| + 1, 0, 1
  {
    if Fixed(e) then ReadRun(env, strict, e, region) else ReadUnits(env, strict, e, region, 0)
  }

  function ReadRun(env: Env, strict: bool, e: Schema, region: seq<Byte>): Result<List<Value>>
    decreases |region| + 1, 0, 0
  {
    var size := StackSize(e);
    if size == 0 then Err(RegionMismatch(0, |region|))
    else if |region| % size != 0 then Err(RegionMismatch(|region| % size, |region|))
    else
      var count := |region| / size;
      StackSumRep(count, e);
      WholeQuotient(|region|, size);
      var (vs, _) :- ReadAll(env, strict, Rep(count, e), region, 0, |region|);
      Ok(vs)
  }

  function ReadUnits(env: Env, strict: bool, e: Schema, region: seq<Byte>, offset: nat): Result<List<Value>>
    requires offset <= |region|
    decreases |region|, Weight(e) + 1, |region| - offset
  {
    if offset == |region| then Ok(Nil)
    else if offset + StackSize(e) > |region| then Err(UnexpectedEnd(StackSize(e), offset, |region|))
    else
      var (v, next) :- Read(env, strict, e, region, offset, offset + StackSize(e));
      if next == offset then Err(Stalls)
      else
        var vs :- ReadUnits(env, strict, e, region, next);
        Ok(Cons(v, vs))
  }

  /** `from_wire`: one unit at the front, and nothing after it. */
  function Decode(env: Env, strict: bool, s: Schema, bytes: seq<Byte>): Result<Value> {
    if StackSize(s) > |bytes| then Err(UnexpectedEnd(StackSize(s), 0, |bytes|))
    else
      var (v, end) :- Read(env, strict, s, bytes, 0, StackSize(s));
      if end == |bytes| then Ok(v) else Err(TrailingBytes(end, |bytes|))
  }

  /**
   No vector in `v` has elements without stack slots, except an empty vector
   of elements that could carry heap bytes.
   */
  predicate Slotted(env: Env, s: Schema, v: Value)
    requires Typed(env, s, v)
    decreases v
  {
    match s
    case Leaf(_) => true
    case Str => true
    case Vec(e) => if StackSize(e) == 0 then !Fixed(e) && v.vs.Nil? else SlottedAll(env, Rep(Len(v.vs), e), v.vs)
    case Opt(e) => v.VNone? || Slotted(env, e, v.v)
    case Arr(n, e) => SlottedAll(env, Rep(n, e), v.vs)
    case Struct(fs) => SlottedAll(env, fs, v.vs)
    case Enum(k) => SlottedAll(env, env[k][v.tag], v.vs)
  }

  predicate SlottedAll(env: Env, ss: List<Schema>, vs: List<Value>)
    requires TypedAll(env, ss, vs)
    decreases vs
  {
    vs.Cons? ==> Slotted(env, ss.head, vs.head) && SlottedAll(env, ss.tail, vs.tail)
  }
}
