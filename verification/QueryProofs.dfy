/** Evaluation on raw bytes agrees with the meaning of the expression on the record. */
module QueryProofs {
  import opened Bytes
  import opened Wrappers
  import opened Wire
  import opened Descriptor
  import opened HeapWalk
  import opened Query
  import opened Utf8

  /** A constant holds a value of its own width. */
  predicate ValidConstant(v: QValue) {
    match v
    case QU(w, i) => LeafValid(U(w), i)
    case QI(w, i) => LeafValid(I(w), i)
    case QF(w, bits) => LeafValid(F(w), bits)
    case _ => true
  }

  predicate ValidExpr(e: Expr) {
    match e
    case All => true
    case And(l, r) => ValidExpr(l) && ValidExpr(r)
    case Or(l, r) => ValidExpr(l) && ValidExpr(r)
    case Not(i) => ValidExpr(i)
    case _ => ValidConstant(e.value)
  }

  // ----- Orders -----

  lemma {:induction false} LexLessTail(a: seq<Byte>, b: seq<Byte>)
    requires a != [] && b != [] && a[0] == b[0]
    ensures LexLess(a, b) <==> LexLess(a[1..], b[1..])
  {
    var a', b' := a[1..], b[1..];
    if LexLess(a, b) {
      var k :| 0 <= k <= |a| && k <= |b| && a[..k] == b[..k] && ((k == |a| && k < |b|) || (k < |a| && k < |b| && a[k] < b[k]));
      assert a'[..k - 1] == a[..k][1..] && b'[..k - 1] == b[..k][1..];
    }
    if LexLess(a', b') {
      var k :| 0 <= k <= |a'| && k <= |b'| && a'[..k] == b'[..k] && ((k == |a'| && k < |b'|) || (k < |a'| && k < |b'| && a'[k] < b'[k]));
      assert a[..k + 1] == [a[0]] + a'[..k] && b[..k + 1] == [b[0]] + b'[..k];
    }
  }

  /** Slice comparison is dictionary order. */
  lemma {:induction false} CmpBytesIsLex(a: seq<Byte>, b: seq<Byte>)
    ensures CmpBytes(a, b) == Less <==> LexLess(a, b)
    ensures CmpBytes(a, b) == Equal <==> a == b
    ensures CmpBytes(a, b) == Greater <==> LexLess(b, a)
  {
    if a == [] || b == [] {
      assert a[..0] == b[..0];
    } else if a[0] == b[0] {
      CmpBytesIsLex(a[1..], b[1..]);
      LexLessTail(a, b);
      LexLessTail(b, a);
      assert a == [a[0]] + a[1..] && b == [b[0]] + b[1..];
    } else {
      assert a[..0] == b[..0];
      FirstDiffers(a, b);
      FirstDiffers(b, a);
    }
  }

  lemma {:induction false} FirstDiffers(a: seq<Byte>, b: seq<Byte>)
    requires a != [] && b != [] && a[0] != b[0]
    ensures LexLess(a, b) <==> a[0] < b[0]
  {
    assert a[..0] == b[..0];
  }

  /** The ordering of two comparable keys. */
  function KeyCmp(order: FloatOrder, a: Key, b: Key): Option<Ordering>
    requires Comparable(a, b)
  {
    if a.KeyFloat? || b.KeyFloat? then order(NumericKey(a), NumericKey(b))
    else if a == b then Some(Equal) else if Below(a, b) then Some(Less) else Some(Greater)
  }

  lemma {:induction false} KeysAreTotal(a: Key, b: Key)
    requires Comparable(a, b) && !a.KeyFloat? && !b.KeyFloat?
    ensures Below(b, a) <==> a != b && !Below(a, b)
    ensures a == b ==> !Below(a, b)
  {
    if a.KeyText? {
      CmpBytesIsLex(a.text, b.text);
    } else if a.KeyBytes? {
      CmpBytesIsLex(a.bytes, b.bytes);
    }
  }

  // ----- Fields -----

  lemma {:induction false} FindIsLookup(desc: ObjectDesc, decls: seq<FieldDecl>, name: Text, i: nat)
    requires Describes(desc, decls) && i <= |decls|
    ensures var l := Lookup(decls[i..], name);
            FindField(desc.fields, name, i) == if l.None? then None else Some(i + l.value)
    decreases |decls| - i
  {
    if i < |decls| {
      FindIsLookup(desc, decls, name, i + 1);
      assert decls[i..][1..] == decls[i + 1..];
    }
  }

  lemma {:induction false} SlotFound(env: Env, desc: ObjectDesc, decls: seq<FieldDecl>, vals: List<Value>, t: nat)
    requires Encoded(env, desc, decls, vals) && t < |decls|
    ensures Len(vals) == |decls| && Typed(env, decls[t].schema, Nth(vals, t))
    ensures var body, fd := Body(env, decls, vals), desc.fields[t];
            && desc.stackSize <= |body|
            && Get(body, fd.stackOffset, fd.stackOffset + fd.stackSize) == Some(Stack(env, decls[t].schema, Nth(vals, t)))
  {
    hide TypedAll, FitsAll, HeapOffset, Offset, Schemas, StackSum, Body, Nth, Typed, Stack, Heap;
    FieldIsLocated(env, desc, decls, vals, t);
  }

  /** A leaf field is read back from its slot. */
  lemma {:induction false} LeafSlot(env: Env, k: Leaf, v: Value)
    requires Typed(env, Leaf(k), v)
    ensures var slot := Stack(env, Leaf(k), v); |slot| == LeafWidth(k) && ReadLeaf(k, FromLE(slot)) == Ok(v.i)
  {
    hide LE, FromLE, Pow256, ReadLeaf;
    LeafToNatToLeaf(k, v.i);
    FromLEOfLE(LeafWidth(k), LeafToNat(k, v.i));
  }

  lemma {:induction false} BoolSlot(env: Env, v: Value)
    requires Typed(env, Leaf(Bool), v)
    ensures var slot := Stack(env, Leaf(Bool), v); |slot| == 1 && slot[0] == v.i
  {
    LeafSlot(env, Bool, v);
  }

  /** The payload of a `Vec<u8>` is its bytes. */
  lemma {:induction false} BytesPayload(env: Env, vs: List<Value>)
    requires TypedAll(env, Rep(Len(vs), Leaf(U(1))), vs)
    ensures Units(env, Rep(Len(vs), Leaf(U(1))), vs) == ListBytes(vs)
  {
    if vs.Cons? {
      BytesPayload(env, vs.tail);
      var b := vs.head.i;
      assert Pow256(1) == 256;
      assert LE(1, b) == [b % 256] + LE(0, b / 256);
      assert Stack(env, Leaf(U(1)), vs.head) + Heap(env, Leaf(U(1)), vs.head) == [b];
    }
  }

  lemma {:induction false} UnsignedCmp(order: FloatOrder, i: int, j: int)
    ensures PartialCmp(order, Unsigned(i), Unsigned(j)) == Some(CmpInt(i, j))
  {
  }

  lemma {:induction false} SmallWidths(w: Width)
    requires w < 16
    ensures Pow256(w) <= I128_LIMIT
  {
    Pow256Of4();
    Pow256Of8();
    assert Pow256(1) == 256 && Pow256(2) == 256 * Pow256(1);
  }

  lemma {:induction false} Pow256Of16()
    ensures Pow256(16) == 2 * I128_LIMIT
  {
    Pow256Of8();
    assert Pow256(9) == 256 * Pow256(8);
    assert Pow256(10) == 256 * Pow256(9);
    assert Pow256(11) == 256 * Pow256(10);
    assert Pow256(12) == 256 * Pow256(11);
    assert Pow256(13) == 256 * Pow256(12);
    assert Pow256(14) == 256 * Pow256(13);
    assert Pow256(15) == 256 * Pow256(14);
  }

  /** Widening to the numeric domain keeps the number. */
  lemma {:induction false} ConstantNumeric(v: QValue)
    requires ValidConstant(v)
    ensures var k := KeyOfConstant(v);
            NumericOf(v) == if Numerical(k) then Some(NumericKey(k)) else None
  {
    if v.QU? && v.w < 16 {
      SmallWidths(v.w);
    } else if v.QI? {
      SignedBelow(v.w, v.i);
    }
  }

  lemma {:induction false} SignedBelow(w: Width, i: int)
    requires LeafValid(I(w), i)
    ensures i < I128_LIMIT
  {
    if w < 16 {
      SmallWidths(w);
    } else {
      Pow256Of16();
    }
  }

  /** A numeric field is read as the number it holds. */
  lemma {:induction false} FieldNumeric(env: Env, kind: FieldKind, s: Schema, v: Value)
    requires KindAgrees(kind, s) && Typed(env, s, v) && (kind.KU? || kind.KI? || kind.KF?)
    ensures var k := if kind.KF? then KeyFloat(kind.w, v.i) else KeyInt(v.i);
            ReadNumeric(kind, Stack(env, s, v)) == Some(NumericKey(k))
  {
    hide LE, FromLE, Pow256;
    LeafSlot(env, s.leaf, v);
    if kind.KU? && kind.w < 16 {
      SmallWidths(kind.w);
    } else if kind.KI? {
      SignedBelow(kind.w, v.i);
    }
  }

  /** What `compare` returns for field `t`, in terms of the record. */
  function ExpectedCmp(order: FloatOrder, decls: seq<FieldDecl>, vals: List<Value>, t: nat, value: QValue): Option<Ordering>
    requires t < |decls| && Len(vals) == |decls|
  {
    var a, b := KeyOfField(decls, vals, t), KeyOfConstant(value);
    if a.Some? && Comparable(a.value, b) then KeyCmp(order, a.value, b) else None
  }

  lemma {:induction false} CompareNumericField(env: Env, order: FloatOrder, desc: ObjectDesc, decls: seq<FieldDecl>, vals: List<Value>, t: nat, value: QValue)
    requires Encoded(env, desc, decls, vals) && t < |decls| && Len(vals) == |decls| && ValidConstant(value)
    requires Typed(env, decls[t].schema, Nth(vals, t))
    requires var k := KindOf(decls[t].ty); k.KU? || k.KI? || k.KF?
    ensures CompareField(order, desc, Body(env, decls, vals), t, Stack(env, decls[t].schema, Nth(vals, t)), value)
         == ExpectedCmp(order, decls, vals, t, value)
  {
    hide TypedAll, FitsAll, Offset, Schemas, StackSum, Body, Nth, Stack, ReadNumeric, NumericOf, KindOf, Spells, HeapBytes, NoOpaque;
    var kind, s, v := KindOf(decls[t].ty), decls[t].schema, Nth(vals, t);
    KindIsRight(decls[t].ty, s);
    FieldNumeric(env, kind, s, v);
    ConstantNumeric(value);
    if value.QU? || value.QI? {
      UnsignedCmp(order, v.i, value.i);
    }
  }

  lemma {:induction false} CompareBoolField(env: Env, order: FloatOrder, desc: ObjectDesc, decls: seq<FieldDecl>, vals: List<Value>, t: nat, value: QValue)
    requires Encoded(env, desc, decls, vals) && t < |decls| && Len(vals) == |decls|
    requires Typed(env, decls[t].schema, Nth(vals, t)) && KindOf(decls[t].ty) == KBool
    ensures CompareField(order, desc, Body(env, decls, vals), t, Stack(env, decls[t].schema, Nth(vals, t)), value)
         == ExpectedCmp(order, decls, vals, t, value)
  {
    hide TypedAll, FitsAll, Offset, Schemas, StackSum, Body, Nth, Stack, KindOf, Spells, HeapBytes, NoOpaque;
    KindIsRight(decls[t].ty, decls[t].schema);
    BoolSlot(env, Nth(vals, t));
  }

  lemma {:induction false} CompareTextField(env: Env, order: FloatOrder, desc: ObjectDesc, decls: seq<FieldDecl>, vals: List<Value>, t: nat, value: QValue)
    requires Encoded(env, desc, decls, vals) && t < |decls| && Len(vals) == |decls|
    requires Typed(env, decls[t].schema, Nth(vals, t)) && KindOf(decls[t].ty) in {KStr, KBytes}
    ensures CompareField(order, desc, Body(env, decls, vals), t, Stack(env, decls[t].schema, Nth(vals, t)), value)
         == ExpectedCmp(order, decls, vals, t, value)
  {
    hide TypedAll, FitsAll, Offset, Schemas, StackSum, Body, Nth, Stack, KindOf, Spells, HeapBytes, NoOpaque, Units, ListBytes, CmpBytes, LexLess, ValidUtf8;
    var v := Nth(vals, t);
    KindIsRight(decls[t].ty, decls[t].schema);
    HeapBytesExact(env, desc, decls, vals, t);
    if KindOf(decls[t].ty).KBytes? {
      BytesPayload(env, v.vs);
      if value.QBytes? {
        CmpBytesIsLex(ListBytes(v.vs), value.bytes);
      }
    } else if value.QStr? {
      CmpBytesIsLex(v.bytes, value.text);
    }
  }

  lemma {:induction false} CompareIsExpected(env: Env, order: FloatOrder, desc: ObjectDesc, decls: seq<FieldDecl>, vals: List<Value>, field: Text, value: QValue)
    requires Encoded(env, desc, decls, vals) && Len(vals) == |decls| && ValidConstant(value)
    ensures var t := Lookup(decls, field);
            Compare(order, desc, Body(env, decls, vals), field, value)
            == if t.None? then None else ExpectedCmp(order, decls, vals, t.value, value)
  {
    hide TypedAll, FitsAll, Offset, Schemas, StackSum, Body, Nth, Typed, Stack, KindOf, HeapBytes, NoOpaque, FindField, ExpectedCmp, NumericOf, ReadNumeric;
    assert decls[0..] == decls;
    FindIsLookup(desc, decls, field, 0);
    var found := Lookup(decls, field);
    if found.Some? {
      var t := found.value;
      SlotFound(env, desc, decls, vals, t);
      var kind := KindOf(decls[t].ty);
      if kind.KU? || kind.KI? || kind.KF? {
        CompareNumericField(env, order, desc, decls, vals, t, value);
      } else if kind.KBool? {
        CompareBoolField(env, order, desc, decls, vals, t, value);
      } else if kind.KStr? || kind.KBytes? {
        CompareTextField(env, order, desc, decls, vals, t, value);
      } else {
        OtherKindsAreNone(order, desc, decls, vals, t, Body(env, decls, vals), Stack(env, decls[t].schema, Nth(vals, t)), value);
      }
    }
  }

  lemma {:induction false} OtherKindsAreNone(order: FloatOrder, desc: ObjectDesc, decls: seq<FieldDecl>, vals: List<Value>, t: nat, body: seq<Byte>, slot: seq<Byte>, value: QValue)
    requires Describes(desc, decls) && WellResolved(decls) && t < |decls| && Len(vals) == |decls|
    requires KindOf(decls[t].ty) in {KChar, KId, KList, KOption, KOther}
    ensures CompareField(order, desc, body, t, slot, value) == None == ExpectedCmp(order, decls, vals, t, value)
  {
    hide KindOf, Nth, Schemas, StackSum, Offset, HeapBytes, NoOpaque;
    KindIsRight(decls[t].ty, decls[t].schema);
  }

  /** A comparison holds exactly when the ordering is one its operator accepts. */
  lemma {:induction false} HoldsByOrdering(order: FloatOrder, e: Expr, a: Key, b: Key)
    requires IsComparison(e) && Comparable(a, b)
    ensures var o := KeyCmp(order, a, b);
            Holds(order, e, a, b)
            <==> match e
                 case Eq(_, _) => o == Some(Equal)
                 case Ne(_, _) => o.Some? && o != Some(Equal)
                 case Gt(_, _) => o == Some(Greater)
                 case Gte(_, _) => o == Some(Greater) || o == Some(Equal)
                 case Lt(_, _) => o == Some(Less)
                 case Lte(_, _) => o == Some(Less) || o == Some(Equal)
  {
    hide LexLess;
    if !a.KeyFloat? && !b.KeyFloat? {
      KeysAreTotal(a, b);
    } else {
      var o := KeyCmp(order, a, b);
      assert o.Some? ==> o.value == Less || o.value == Equal || o.value == Greater;
    }
  }

  /**
   For every record type, every record and every expression, `eval` on the encoded bytes is
   the meaning of the expression on the record.
   */
  lemma {:induction false} EvalIsMeaning(env: Env, order: FloatOrder, desc: ObjectDesc, decls: seq<FieldDecl>, vals: List<Value>, expr: Expr)
    requires Encoded(env, desc, decls, vals) && Len(vals) == |decls| && ValidExpr(expr)
    ensures Eval(order, desc, Body(env, decls, vals), expr) == Satisfies(order, decls, vals, expr)
  {
    hide Encoded, Body, Compare, KeyOfField, Lookup, Holds, KeyCmp;
    match expr
    case All =>
    case And(l, r) =>
      EvalIsMeaning(env, order, desc, decls, vals, l);
      EvalIsMeaning(env, order, desc, decls, vals, r);
    case Or(l, r) =>
      EvalIsMeaning(env, order, desc, decls, vals, l);
      EvalIsMeaning(env, order, desc, decls, vals, r);
    case Not(e) =>
      EvalIsMeaning(env, order, desc, decls, vals, e);
    case _ =>
      CompareIsExpected(env, order, desc, decls, vals, expr.field, expr.value);
      var t := Lookup(decls, expr.field);
      if t.Some? {
        var a, b := KeyOfField(decls, vals, t.value), KeyOfConstant(expr.value);
        if a.Some? && Comparable(a.value, b) {
          HoldsByOrdering(order, expr, a.value, b);
        }
      }
  }

  lemma {:induction false} NotFound(fields: seq<FieldDesc>, name: Text, i: nat)
    requires i <= |fields| && forall j :: i <= j < |fields| ==> fields[j].name != name
    ensures FindField(fields, name, i) == None
    decreases |fields| - i
  {
    if i < |fields| {
      NotFound(fields, name, i + 1);
    }
  }

  /** A record too short for its descriptor, or an unknown field, matches no comparison; `Not` turns that around. */
  lemma {:induction false} UnknowableIsFalse(order: FloatOrder, desc: ObjectDesc, body: seq<Byte>, e: Expr)
    requires IsComparison(e) && (|body| < desc.stackSize || forall i :: 0 <= i < |desc.fields| ==> desc.fields[i].name != e.field)
    ensures !Eval(order, desc, body, e) && Eval(order, desc, body, Not(e))
  {
    if |body| >= desc.stackSize {
      NotFound(desc.fields, e.field, 0);
    }
    assert Compare(order, desc, body, e.field, e.value).None?;
  }

  /** Whatever the bytes: a text field compares only if its payload is UTF-8, and any byte but zero is a set flag. */
  lemma {:induction false} RawSlots(order: FloatOrder, desc: ObjectDesc, body: seq<Byte>, t: nat, slot: seq<Byte>, value: QValue)
    requires t < |desc.fields|
    ensures desc.fields[t].kind.KStr? ==>
              (CompareField(order, desc, body, t, slot, value).Some? <==>
               value.QStr? && exists cs :: Scalars(cs) && HeapBytes(desc, body, t) == Some(EncodeText(cs)))
    ensures desc.fields[t].kind.KBytes? ==>
              (CompareField(order, desc, body, t, slot, value).Some? <==> value.QBytes? && HeapBytes(desc, body, t).Some?)
    ensures desc.fields[t].kind.KBool? && slot != [] && value.QBool? ==>
              (CompareField(order, desc, body, t, slot, value) == Some(Equal) <==> (value.b <==> slot[0] != 0))
  {
    hide HeapBytes, ValidUtf8, Scalars, EncodeText;
    if HeapBytes(desc, body, t).Some? {
      TextIffScalars(HeapBytes(desc, body, t).value);
    }
  }
}
