/** Layouts byte by byte: stack before heap, a flag before an option, tag and length before a payload. */
module WireExamples {
  import opened Bytes
  import opened Wire

  lemma {:induction false} Two(n: nat)
    ensures LE(2, n) == [n % 256, n / 256 % 256]
  {
    assert LE(0, n / 256 / 256) == [];
    assert LE(1, n / 256) == [n / 256 % 256];
  }

  /** A number: four bytes, the least significant first. */
  lemma {:induction false} NumberBytes(env: Env, n: nat)
    requires n < 0x1_0000_0000
    ensures Typed(env, Leaf(U(4)), VInt(n))
    ensures Encoding(env, Leaf(U(4)), VInt(n)) == [n % 256, n / 256 % 256, n / 0x1_0000 % 256, n / 0x100_0000]
  {
    hide Pow256;
    Pow256Of4();
    Two(n / 0x1_0000);
    assert LE(3, n / 256) == [n / 256 % 256] + LE(2, n / 256 / 256);
    assert n / 256 / 256 == n / 0x1_0000 && n / 0x1_0000 / 256 == n / 0x100_0000;
  }

  /** A text: its length, then its bytes. */
  lemma {:induction false} TextBytes(env: Env, text: seq<Byte>)
    requires ValidUtf8(text)
    ensures Encoding(env, Str, VStr(text)) == LE(4, |text|) + text
  {
    hide LE, ValidUtf8;
  }

  // ----- Fixed elements -----

  ghost function Numbers(xs: seq<nat>): List<Value> {
    if xs == [] then Nil else Cons(VInt(xs[0]), Numbers(xs[1..]))
  }

  /** Slots of `w` bytes back to back. */
  ghost function Slots(w: nat, xs: seq<nat>): seq<Byte> {
    if xs == [] then [] else LE(w, xs[0]) + Slots(w, xs[1..])
  }

  /** A list of numbers: the length of the region, then the numbers back to back. */
  lemma {:induction false} FixedElementBytes(env: Env, k: Leaf, xs: seq<nat>)
    requires k.U? && forall i :: 0 <= i < |xs| ==> xs[i] < Pow256(k.w)
    ensures var v := VList(Numbers(xs));
            && Typed(env, Vec(Leaf(k)), v)
            && Encoding(env, Vec(Leaf(k)), v) == LE(4, |xs| * k.w) + Slots(k.w, xs)
  {
    hide LE, Pow256;
    ElementsTyped(env, k, xs);
    TimesIsProduct(|xs|, k.w);
  }

  lemma {:induction false} ElementsTyped(env: Env, k: Leaf, xs: seq<nat>)
    requires k.U? && forall i :: 0 <= i < |xs| ==> xs[i] < Pow256(k.w)
    ensures Len(Numbers(xs)) == |xs|
    ensures var ss := Rep(|xs|, Leaf(k)); TypedAll(env, ss, Numbers(xs)) && Units(env, ss, Numbers(xs)) == Slots(k.w, xs)
  {
    hide LE, Pow256;
    if xs != [] {
      ElementsTyped(env, k, xs[1..]);
      LeafParts(env, k, xs[0]);
      OneMember(env, Leaf(k), VInt(xs[0]), Rep(|xs| - 1, Leaf(k)), Numbers(xs[1..]));
      assert Rep(|xs|, Leaf(k)) == Cons(Leaf(k), Rep(|xs| - 1, Leaf(k)));
      hide Typed, TypedAll, Units, Stack, Heap, Rep;
      assert LE(k.w, xs[0]) + [] == LE(k.w, xs[0]);
    }
  }

  // ----- Options, enums, records -----

  /** A flag, then the value or as many zeros. */
  lemma {:induction false} OptionBytes(env: Env, k: Leaf, n: nat)
    requires k.U? && n < Pow256(k.w)
    ensures var s := Opt(Leaf(k));
            && Typed(env, s, VNone) && Encoding(env, s, VNone) == [0] + Zeros(k.w)
            && Typed(env, s, VSome(VInt(n))) && Encoding(env, s, VSome(VInt(n))) == [1] + LE(k.w, n)
  {
    LeafParts(env, k, n);
    hide LE, Pow256, Zeros, LeafToNat;
    assert [0] + Zeros(k.w) + [] == [0] + Zeros(k.w);
    assert [1] + LE(k.w, n) + [] == [1] + LE(k.w, n);
  }

  /** Tag and length of the payload, then the payload. */
  lemma {:induction false} EnumBytes(env: Env, e: nat, tag: nat, k: Leaf, n: nat)
    requires HasVariant(env, e, tag) && env[e][tag] == Cons(Leaf(k), Nil)
    requires k.U? && n < Pow256(k.w)
    ensures var v := VEnum(tag, Cons(VInt(n), Nil));
            && Typed(env, Enum(e), v)
            && Encoding(env, Enum(e), v) == [tag] + LE(4, k.w) + LE(k.w, n)
  {
    EmptyMembers(env);
    LeafParts(env, k, n);
    OneMember(env, Leaf(k), VInt(n), Nil, Nil);
    VariantParts(env, e, tag, Cons(Leaf(k), Nil), Cons(VInt(n), Nil));
    OneSlot(env, k, n);
    hide *;
    assert LE(k.w, n) + [] + ([] + []) == LE(k.w, n);
  }

  lemma {:induction false} EmptyEnumBytes(env: Env, e: nat, tag: nat)
    requires HasVariant(env, e, tag) && env[e][tag] == Nil
    ensures Typed(env, Enum(e), VEnum(tag, Nil))
    ensures Encoding(env, Enum(e), VEnum(tag, Nil)) == [tag] + LE(4, 0)
  {
    EmptyMembers(env);
    VariantParts(env, e, tag, Nil, Nil);
    assert UnitSize(env, Nil, Nil) == 0;
    hide *;
    assert [tag] + LE(4, 0) + ([] + []) == [tag] + LE(4, 0);
  }

  lemma {:induction false} VariantParts(env: Env, e: nat, tag: nat, ss: List<Schema>, vs: List<Value>)
    requires HasVariant(env, e, tag) && env[e][tag] == ss && TypedAll(env, ss, vs)
    ensures Typed(env, Enum(e), VEnum(tag, vs))
    ensures Encoding(env, Enum(e), VEnum(tag, vs)) ==
            [tag] + LE(4, UnitSize(env, ss, vs)) + (StackAll(env, ss, vs) + HeapAll(env, ss, vs))
  {
    hide TypedAll, StackAll, HeapAll, UnitSize, LE;
  }

  lemma {:induction false} OneSlot(env: Env, k: Leaf, n: nat)
    requires Typed(env, Leaf(k), VInt(n)) && TypedAll(env, Cons(Leaf(k), Nil), Cons(VInt(n), Nil)) && k.U?
    ensures UnitSize(env, Cons(Leaf(k), Nil), Cons(VInt(n), Nil)) == k.w
  {
    assert StackSum(Nil) == 0 && StackSum(Cons(Leaf(k), Nil)) == StackSize(Leaf(k));
    assert HeapSum(env, Nil, Nil) == 0;
    assert HeapSum(env, Cons(Leaf(k), Nil), Cons(VInt(n), Nil)) == HeapSize(env, Leaf(k), VInt(n));
  }

  lemma {:induction false} EmptyMembers(env: Env)
    ensures TypedAll(env, Nil, Nil) && StackAll(env, Nil, Nil) == [] && HeapAll(env, Nil, Nil) == []
    ensures Units(env, Nil, Nil) == [] && UnitSizes(env, Nil, Nil) == 0
  {
  }

  /** One member in front of others. */
  lemma {:induction false} OneMember(env: Env, s: Schema, v: Value, ss: List<Schema>, vs: List<Value>)
    requires Typed(env, s, v) && TypedAll(env, ss, vs)
    ensures TypedAll(env, Cons(s, ss), Cons(v, vs))
    ensures StackAll(env, Cons(s, ss), Cons(v, vs)) == Stack(env, s, v) + StackAll(env, ss, vs)
    ensures HeapAll(env, Cons(s, ss), Cons(v, vs)) == Heap(env, s, v) + HeapAll(env, ss, vs)
    ensures Units(env, Cons(s, ss), Cons(v, vs)) == Stack(env, s, v) + Heap(env, s, v) + Units(env, ss, vs)
    ensures UnitSizes(env, Cons(s, ss), Cons(v, vs)) == StackSize(s) + HeapSize(env, s, v) + UnitSizes(env, ss, vs)
  {
    hide Typed, Stack, Heap, StackSize, HeapSize;
  }

  lemma {:induction false} TextParts(env: Env, text: seq<Byte>)
    requires ValidUtf8(text)
    ensures Typed(env, Str, VStr(text)) && Stack(env, Str, VStr(text)) == LE(4, |text|) && Heap(env, Str, VStr(text)) == text
    ensures StackSize(Str) == 4 && HeapSize(env, Str, VStr(text)) == |text|
  {
    hide LE, ValidUtf8;
  }

  lemma {:induction false} LeafParts(env: Env, k: Leaf, n: nat)
    requires k.U? && n < Pow256(k.w)
    ensures Typed(env, Leaf(k), VInt(n)) && Stack(env, Leaf(k), VInt(n)) == LE(k.w, n) && Heap(env, Leaf(k), VInt(n)) == []
  {
    hide LE, Pow256;
  }

  /** All slots first, in order of the fields, then all payloads, in the same order. */
  lemma {:induction false} RecordBytes(env: Env, a: seq<Byte>, k: Leaf, n: nat, b: seq<Byte>)
    requires ValidUtf8(a) && ValidUtf8(b) && k.U? && n < Pow256(k.w)
    ensures var fs, vs := Cons(Str, Cons(Leaf(k), Cons(Str, Nil))), Cons(VStr(a), Cons(VInt(n), Cons(VStr(b), Nil)));
            && Typed(env, Struct(fs), VList(vs))
            && Encoding(env, Struct(fs), VList(vs)) == LE(4, |a|) + LE(k.w, n) + LE(4, |b|) + a + b
  {
    hide *;
    var fs, vs := Cons(Str, Cons(Leaf(k), Cons(Str, Nil))), Cons(VStr(a), Cons(VInt(n), Cons(VStr(b), Nil)));
    TextParts(env, a);
    LeafParts(env, k, n);
    TextParts(env, b);
    EmptyMembers(env);
    OneMember(env, Str, VStr(b), Nil, Nil);
    OneMember(env, Leaf(k), VInt(n), fs.tail.tail, vs.tail.tail);
    OneMember(env, Str, VStr(a), fs.tail, vs.tail);
    RecordParts(env, fs, vs);
    assert StackAll(env, fs, vs) == LE(4, |a|) + (LE(k.w, n) + (LE(4, |b|) + [])) && HeapAll(env, fs, vs) == a + ([] + (b + []));
  }

  lemma {:induction false} RecordParts(env: Env, fs: List<Schema>, vs: List<Value>)
    requires TypedAll(env, fs, vs)
    ensures Typed(env, Struct(fs), VList(vs))
    ensures Encoding(env, Struct(fs), VList(vs)) == StackAll(env, fs, vs) + HeapAll(env, fs, vs)
  {
    hide TypedAll, StackAll, HeapAll;
  }

  /** Elements with payloads stand as units, each with its own slots before its own payload. */
  lemma {:induction false} UnitBytes(env: Env, a: seq<Byte>, b: seq<Byte>)
    requires ValidUtf8(a) && ValidUtf8(b)
    ensures var v := VList(Cons(VStr(a), Cons(VStr(b), Nil)));
            && Typed(env, Vec(Str), v)
            && Encoding(env, Vec(Str), v) == LE(4, 8 + |a| + |b|) + (LE(4, |a|) + a + (LE(4, |b|) + b))
  {
    hide *;
    var vs := Cons(VStr(a), Cons(VStr(b), Nil));
    TextParts(env, a);
    TextParts(env, b);
    EmptyMembers(env);
    OneMember(env, Str, VStr(b), Nil, Nil);
    OneMember(env, Str, VStr(a), Cons(Str, Nil), vs.tail);
    TwoTexts(vs);
    VectorParts(env, Str, vs);
    assert LE(4, |b|) + b + [] == LE(4, |b|) + b;
  }

  lemma {:induction false} TwoTexts(vs: List<Value>)
    requires vs.Cons? && vs.tail.Cons? && vs.tail.tail.Nil?
    ensures Rep(Len(vs), Str) == Cons(Str, Cons(Str, Nil)) && !Fixed(Str)
  {
    assert Len(vs.tail) == 1;
    assert Rep(1, Str) == Cons(Str, Nil);
  }

  lemma {:induction false} VectorParts(env: Env, e: Schema, vs: List<Value>)
    requires TypedAll(env, Rep(Len(vs), e), vs) && !Fixed(e)
    ensures Typed(env, Vec(e), VList(vs))
    ensures Encoding(env, Vec(e), VList(vs)) == LE(4, UnitSizes(env, Rep(Len(vs), e), vs)) + Units(env, Rep(Len(vs), e), vs)
  {
    hide TypedAll, Units, UnitSizes, Rep, Fixed, LE;
  }
}
