/** Query expressions as they travel: the recursive payload enum `Expr`, and its constants. */
module QueryWire {
  import opened Bytes
  import opened Wrappers
  import opened Wire
  import opened WireRoundTrip
  import opened WireCanonical
  import opened WireTermination
  import opened Descriptor
  import opened Query

  function One(s: Schema): List<Schema> { Cons(s, Nil) }
  function Two(s: Schema, t: Schema): List<Schema> { Cons(s, Cons(t, Nil)) }

  function WidthIndex(w: Width): (r: nat)
    ensures r < 5 && WidthAt(r) == w
  {
    if w == 1 then 0 else if w == 2 then 1 else if w == 4 then 2 else if w == 8 then 3 else 4
  }

  function WidthAt(i: nat): (w: Width)
    requires i < 5
  {
    if i == 0 then 1 else if i == 1 then 2 else if i == 2 then 4 else if i == 3 then 8 else 16
  }

  /** The field type of each variant of the constant type, in declaration order. */
  function ConstantType(tag: nat): Schema
    requires tag < 15
  {
    if tag < 5 then Leaf(U(WidthAt(tag)))
    else if tag < 10 then Leaf(I(WidthAt(tag - 5)))
    else if tag == 10 then Leaf(F(4))
    else if tag == 11 then Leaf(F(8))
    else if tag == 12 then Str
    else if tag == 13 then Leaf(Bool)
    else Vec(Leaf(U(1)))
  }

  /** The field types of each variant of the expression type; `Enum(0)` is a constant, `Enum(1)` an expression. */
  function ExprFields(tag: nat): List<Schema>
    requires tag < 10
  {
    if tag == 0 then Nil
    else if tag < 7 then Two(Str, Enum(0))
    else if tag < 9 then Two(Enum(1), Enum(1))
    else One(Enum(1))
  }

  function ExprEnv(): Env {
    [seq(15, tag requires 0 <= tag < 15 => One(ConstantType(tag))), seq(10, tag requires 0 <= tag < 10 => ExprFields(tag))]
  }

  function BytesList(bs: seq<Byte>): List<Value> {
    if bs == [] then Nil else Cons(VInt(bs[0]), BytesList(bs[1..]))
  }

  /** A constant the query type can hold. */
  predicate WireConstant(c: QValue) {
    match c
    case QU(w, i) => LeafValid(U(w), i)
    case QI(w, i) => LeafValid(I(w), i)
    case QF(w, bits) => (w == 4 || w == 8) && LeafValid(F(w), bits)
    case QStr(t) => ValidUtf8(t)
    case QBool(_) => true
    case QBytes(_) => true
  }

  predicate WireExpr(e: Expr) {
    match e
    case All => true
    case And(l, r) => WireExpr(l) && WireExpr(r)
    case Or(l, r) => WireExpr(l) && WireExpr(r)
    case Not(i) => WireExpr(i)
    case _ => ValidUtf8(e.field) && WireConstant(e.value)
  }

  function ConstantValue(c: QValue): Value {
    match c
    case QU(w, i) => VEnum(WidthIndex(w), Cons(VInt(i), Nil))
    case QI(w, i) => VEnum(5 + WidthIndex(w), Cons(VInt(i), Nil))
    case QF(w, bits) => VEnum(if w == 4 then 10 else 11, Cons(VInt(bits), Nil))
    case QStr(t) => VEnum(12, Cons(VStr(t), Nil))
    case QBool(b) => VEnum(13, Cons(VInt(if b then 1 else 0), Nil))
    case QBytes(bs) => VEnum(14, Cons(VList(BytesList(bs)), Nil))
  }

  function Comparison(tag: nat, field: Text, c: QValue): Value {
    VEnum(tag, Cons(VStr(field), Cons(ConstantValue(c), Nil)))
  }

  function ExprValue(e: Expr): Value {
    match e
    case All => VEnum(0, Nil)
    case Eq(f, c) => Comparison(1, f, c)
    case Ne(f, c) => Comparison(2, f, c)
    case Gt(f, c) => Comparison(3, f, c)
    case Gte(f, c) => Comparison(4, f, c)
    case Lt(f, c) => Comparison(5, f, c)
    case Lte(f, c) => Comparison(6, f, c)
    case And(l, r) => VEnum(7, Cons(ExprValue(l), Cons(ExprValue(r), Nil)))
    case Or(l, r) => VEnum(8, Cons(ExprValue(l), Cons(ExprValue(r), Nil)))
    case Not(i) => VEnum(9, Cons(ExprValue(i), Nil))
  }

  lemma {:induction false} OneTyped(env: Env, s: Schema, vs: List<Value>)
    ensures TypedAll(env, One(s), vs) <==> vs.Cons? && vs.tail.Nil? && Typed(env, s, vs.head)
  {
    if vs.Cons? {
      assert TypedAll(env, Nil, vs.tail) <==> vs.tail.Nil?;
    }
  }

  lemma {:induction false} TwoTyped(env: Env, s: Schema, s': Schema, vs: List<Value>)
    ensures TypedAll(env, Two(s, s'), vs)
       <==> vs.Cons? && vs.tail.Cons? && vs.tail.tail.Nil? && Typed(env, s, vs.head) && Typed(env, s', vs.tail.head)
  {
    if vs.Cons? {
      OneTyped(env, s', vs.tail);
    }
  }

  lemma {:induction false} ConstantShape(v: Value)
    ensures Typed(ExprEnv(), Enum(0), v)
       <==> v.VEnum? && v.tag < 15 && v.vs.Cons? && v.vs.tail.Nil? && Typed(ExprEnv(), ConstantType(v.tag), v.vs.head)
  {
    if v.VEnum? && v.tag < 15 {
      OneTyped(ExprEnv(), ConstantType(v.tag), v.vs);
      assert ExprEnv()[0][v.tag] == One(ConstantType(v.tag));
    }
  }

  lemma {:induction false} ExprShape(v: Value)
    ensures Typed(ExprEnv(), Enum(1), v) <==> v.VEnum? && v.tag < 10 && TypedAll(ExprEnv(), ExprFields(v.tag), v.vs)
    ensures Typed(ExprEnv(), Enum(1), v) && v.tag == 0 ==> v.vs.Nil?
    ensures Typed(ExprEnv(), Enum(1), v) && v.tag > 0 ==> v.vs.Cons?
    ensures Typed(ExprEnv(), Enum(1), v) && 0 < v.tag < 9 ==> v.vs.tail.Cons? && v.vs.tail.tail.Nil?
    ensures Typed(ExprEnv(), Enum(1), v) && 0 < v.tag < 7 ==> v.vs.head.VStr? && ValidUtf8(v.vs.head.bytes) && Typed(ExprEnv(), Enum(0), v.vs.tail.head)
    ensures Typed(ExprEnv(), Enum(1), v) && 7 <= v.tag ==> Typed(ExprEnv(), Enum(1), v.vs.head)
    ensures Typed(ExprEnv(), Enum(1), v) && 7 <= v.tag < 9 ==> Typed(ExprEnv(), Enum(1), v.vs.tail.head)
    ensures Typed(ExprEnv(), Enum(1), v) && v.tag == 9 ==> v.vs.tail.Nil?
  {
    if v.VEnum? && v.tag < 10 {
      assert ExprEnv()[1][v.tag] == ExprFields(v.tag);
      OneTyped(ExprEnv(), Enum(1), v.vs);
      TwoTyped(ExprEnv(), Enum(1), Enum(1), v.vs);
      TwoTyped(ExprEnv(), Str, Enum(0), v.vs);
    }
  }

  // ----- And back -----

  function ConstantOf(v: Value): QValue
    requires Typed(ExprEnv(), Enum(0), v)
  {
    ConstantShape(v);
    var x := v.vs.head;
    if v.tag < 5 then QU(WidthAt(v.tag), x.i)
    else if v.tag < 10 then QI(WidthAt(v.tag - 5), x.i)
    else if v.tag < 12 then QF(if v.tag == 10 then 4 else 8, x.i)
    else if v.tag == 12 then QStr(x.bytes)
    else if v.tag == 13 then QBool(x.i == 1)
    else QBytes(ListBytes(x.vs))
  }

  function ExprOf(v: Value): Expr
    requires Typed(ExprEnv(), Enum(1), v)
    decreases v
  {
    ExprShape(v);
    if v.tag == 0 then All
    else if v.tag == 9 then Not(ExprOf(v.vs.head))
    else if v.tag == 7 then And(ExprOf(v.vs.head), ExprOf(v.vs.tail.head))
    else if v.tag == 8 then Or(ExprOf(v.vs.head), ExprOf(v.vs.tail.head))
    else
      var f, c := v.vs.head.bytes, ConstantOf(v.vs.tail.head);
      if v.tag == 1 then Eq(f, c) else if v.tag == 2 then Ne(f, c) else if v.tag == 3 then Gt(f, c)
      else if v.tag == 4 then Gte(f, c) else if v.tag == 5 then Lt(f, c) else Lte(f, c)
  }

  // ----- The two directions are inverse -----

  lemma {:induction false} BytesListTyped(env: Env, bs: seq<Byte>)
    ensures Len(BytesList(bs)) == |bs| && TypedAll(env, Rep(|bs|, Leaf(U(1))), BytesList(bs))
    ensures ListBytes(BytesList(bs)) == bs
  {
    assert Pow256(1) == 256;
    if bs != [] {
      BytesListTyped(env, bs[1..]);
      assert bs == [bs[0]] + bs[1..];
    }
  }

  lemma {:induction false} ListBytesInverse(env: Env, vs: List<Value>)
    requires TypedAll(env, Rep(Len(vs), Leaf(U(1))), vs)
    ensures BytesList(ListBytes(vs)) == vs
  {
    assert Pow256(1) == 256;
    if vs.Cons? {
      ListBytesInverse(env, vs.tail);
      assert ListBytes(vs)[1..] == ListBytes(vs.tail);
    }
  }

  lemma {:induction false} ConstantThere(c: QValue)
    requires WireConstant(c)
    ensures Typed(ExprEnv(), Enum(0), ConstantValue(c)) && ConstantOf(ConstantValue(c)) == c
  {
    hide ValidUtf8, Pow256;
    ConstantShape(ConstantValue(c));
    if c.QBytes? {
      BytesListTyped(ExprEnv(), c.bytes);
    }
  }

  lemma {:induction false} ConstantBack(v: Value)
    requires Typed(ExprEnv(), Enum(0), v)
    ensures WireConstant(ConstantOf(v)) && ConstantValue(ConstantOf(v)) == v
  {
    hide ValidUtf8, Pow256;
    ConstantShape(v);
    if v.tag == 14 {
      ListBytesInverse(ExprEnv(), v.vs.head.vs);
    }
  }

  lemma {:induction false} ExprThere(e: Expr)
    requires WireExpr(e)
    ensures Typed(ExprEnv(), Enum(1), ExprValue(e)) && ExprOf(ExprValue(e)) == e
  {
    hide ValidUtf8, ConstantOf, ConstantValue, WireConstant, ExprEnv;
    var v := ExprValue(e);
    ExprShape(v);
    match e
    case All =>
    case And(l, r) => ExprThere(l); ExprThere(r); TwoTyped(ExprEnv(), Enum(1), Enum(1), v.vs);
    case Or(l, r) => ExprThere(l); ExprThere(r); TwoTyped(ExprEnv(), Enum(1), Enum(1), v.vs);
    case Not(i) => ExprThere(i); OneTyped(ExprEnv(), Enum(1), v.vs);
    case _ => ConstantThere(e.value); TwoTyped(ExprEnv(), Str, Enum(0), v.vs);
  }

  lemma {:induction false} ExprBack(v: Value)
    requires Typed(ExprEnv(), Enum(1), v)
    ensures WireExpr(ExprOf(v)) && ExprValue(ExprOf(v)) == v
    decreases v
  {
    hide ValidUtf8, ConstantOf, ConstantValue, WireConstant, ExprEnv;
    ExprShape(v);
    if v.tag == 7 || v.tag == 8 {
      ExprBack(v.vs.head);
      ExprBack(v.vs.tail.head);
    } else if v.tag == 9 {
      ExprBack(v.vs.head);
    } else if v.tag > 0 {
      ConstantBack(v.vs.tail.head);
    }
  }

  lemma {:induction false} ExprEnvIsSlotted()
    ensures SlottedEnv(ExprEnv()) && NoOptEnv(ExprEnv()) && EndingEnv(ExprEnv())
  {
  }

  // ----- Main results -----

  function ToBytes(e: Expr): seq<Byte>
    requires WireExpr(e)
  {
    ExprThere(e);
    Encoding(ExprEnv(), Enum(1), ExprValue(e))
  }

  function FromBytes(bytes: seq<Byte>): (r: Result<Expr>)
  {
    var v :- Decode(ExprEnv(), false, Enum(1), bytes);
    DecodeTyped(bytes, v);
    Ok(ExprOf(v))
  }

  lemma {:induction false} DecodeTyped(bytes: seq<Byte>, v: Value)
    requires Decode(ExprEnv(), false, Enum(1), bytes) == Ok(v)
    ensures Typed(ExprEnv(), Enum(1), v)
  {
    DecodeSound(ExprEnv(), false, Enum(1), bytes, v);
  }

  predicate ExprFits(e: Expr)
    requires WireExpr(e)
  {
    ExprThere(e);
    Fits(ExprEnv(), Enum(1), ExprValue(e))
  }

  /** Every expression that fits comes back from its bytes, however deep it is. */
  lemma {:induction false} ExprRoundTrip(e: Expr)
    requires WireExpr(e) && ExprFits(e)
    ensures FromBytes(ToBytes(e)) == Ok(e)
  {
    hide Decode, Encoding, Typed, ExprEnv, Fits, ExprOf;
    ExprThere(e);
    ExprEnvIsSlotted();
    RoundTripOfSlottedType(ExprEnv(), false, Enum(1), ExprValue(e));
  }

  /** Any bytes whatever: decoding ends, and what it accepts is the one encoding of the result. */
  lemma {:induction false} ExprBytesAreCanonical(bytes: seq<Byte>)
    ensures var r := FromBytes(bytes); r.Ok? ==> WireExpr(r.value) && ExprFits(r.value) && ToBytes(r.value) == bytes
    ensures FromBytes(bytes) != Err(Stalls)
  {
    hide Decode, Encoding, Typed, ExprEnv, Fits, ExprOf;
    var r := Decode(ExprEnv(), false, Enum(1), bytes);
    ExprEnvIsSlotted();
    DecodeEnds(ExprEnv(), false, Enum(1), bytes);
    if r.Ok? {
      DecodeSound(ExprEnv(), false, Enum(1), bytes, r.value);
      ExprBack(r.value);
    }
  }

  // ----- The first byte -----

  /** The bytes of an expression begin with its place in the declaration: All, Eq, Ne, Gt, Gte, Lt, Lte, And, Or, Not. */
  lemma {:induction false} ExprTagFirst(e: Expr)
    requires WireExpr(e)
    ensures ToBytes(e)[0] == match e
                             case All => 0
                             case Eq(_, _) => 1
                             case Ne(_, _) => 2
                             case Gt(_, _) => 3
                             case Gte(_, _) => 4
                             case Lt(_, _) => 5
                             case Lte(_, _) => 6
                             case And(_, _) => 7
                             case Or(_, _) => 8
                             case Not(_) => 9
  {
    ExprThere(e);
    TagFirst(ExprEnv(), 1, ExprValue(e));
    hide Stack, Heap, Typed, ConstantValue;
  }

  /** So do those of a constant: five unsigned widths, five signed, two floats, text, flag, bytes. */
  lemma {:induction false} ConstantTagFirst(c: QValue)
    requires WireConstant(c)
    ensures Typed(ExprEnv(), Enum(0), ConstantValue(c))
    ensures Encoding(ExprEnv(), Enum(0), ConstantValue(c))[0] == match c
                                                                 case QU(w, _) => WidthIndex(w)
                                                                 case QI(w, _) => 5 + WidthIndex(w)
                                                                 case QF(w, _) => if w == 4 then 10 else 11
                                                                 case QStr(_) => 12
                                                                 case QBool(_) => 13
                                                                 case QBytes(_) => 14
  {
    ConstantThere(c);
    TagFirst(ExprEnv(), 0, ConstantValue(c));
    hide Stack, Heap, Typed;
  }

  lemma {:induction false} TagFirst(env: Env, k: nat, v: Value)
    requires Typed(env, Enum(k), v)
    ensures |Encoding(env, Enum(k), v)| > 0 && Encoding(env, Enum(k), v)[0] == v.tag
  {
  }
}
