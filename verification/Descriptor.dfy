/** Record types, the descriptors generated for them, and where a field stands in an encoded record. */
module Descriptor {
  import opened Bytes
  import opened Wrappers
  import opened Wire
  import opened WireSizes

  type Text = seq<Byte>

  // ----- Field kinds, from the syntax of the declared type -----

  datatype FieldKind =
    | KU(w: Width) | KI(w: Width) | KF(w: Width)
    | KBool | KChar | KId | KStr | KBytes | KList | KOption | KOther

  /** A type as the macro sees it: a path with generic arguments, or anything else. */
  datatype TypeSyntax = Path(segments: seq<string>, args: seq<TypeSyntax>) | NotPath

  function EndsWith(s: string, suffix: string): bool {
    |suffix| <= |s| && s[|s| - |suffix|..] == suffix
  }

  predicate IsIdentU8(ty: TypeSyntax) {
    ty == Path(["u8"], [])
  }

  /** The primitive types by name. */
  function Primitive(name: string): Option<Leaf> {
    if name == "u8" then Some(U(1)) else if name == "u16" then Some(U(2)) else if name == "u32" then Some(U(4))
    else if name == "u64" then Some(U(8)) else if name == "u128" then Some(U(16))
    else if name == "i8" then Some(I(1)) else if name == "i16" then Some(I(2)) else if name == "i32" then Some(I(4))
    else if name == "i64" then Some(I(8)) else if name == "i128" then Some(I(16))
    else if name == "f32" then Some(F(4)) else if name == "f64" then Some(F(8))
    else if name == "bool" then Some(Bool) else if name == "char" then Some(Char)
    else None
  }

  function PrimitiveKind(k: Leaf): FieldKind {
    match k
    case U(w) => KU(w)
    case I(w) => KI(w)
    case F(w) => KF(w)
    case Bool => KBool
    case Char => KChar
    case Tag(_) => KOther
  }

  /** `field_kind`: by the last path segment only. */
  function KindOf(ty: TypeSyntax): FieldKind {
    if ty.NotPath? || ty.segments == [] then KOther
    else
      var name := ty.segments[|ty.segments| - 1];
      if Primitive(name).Some? then PrimitiveKind(Primitive(name).value)
      else if name == "Id" then KId
      else if name == "String" then KStr
      else if name == "Option" then KOption
      else if name == "Vec" then if exists i :: 0 <= i < |ty.args| && IsIdentU8(ty.args[i]) then KBytes else KList
      else if EndsWith(name, "Id") || EndsWith(name, "Anchor") then KId
      else KOther
  }

  /** `ty` is resolved to `s`: the names of the standard types mean the standard types, others may mean anything. */
  predicate Resolves(ty: TypeSyntax, s: Schema) {
    if ty.NotPath? || ty.segments == [] then true
    else
      var name := ty.segments[|ty.segments| - 1];
      if Primitive(name).Some? then s == Leaf(Primitive(name).value)
      else if name == "String" then s == Str
      else if name == "Option" then s.Opt?
      else if name == "Vec" then |ty.args| == 1 && s.Vec? && Resolves(ty.args[0], s.elem)
      else true
  }

  /** What a kind says about the type it was given for. */
  predicate KindAgrees(kind: FieldKind, s: Schema) {
    match kind
    case KU(w) => s == Leaf(U(w))
    case KI(w) => s == Leaf(I(w))
    case KF(w) => s == Leaf(F(w))
    case KBool => s == Leaf(Bool)
    case KChar => s == Leaf(Char)
    case KStr => s == Str
    case KBytes => s == Vec(Leaf(U(1)))
    case KList => s.Vec?
    case KOption => s.Opt?
    case KId => true
    case KOther => true
  }

  /** The name a type is written by. */
  function StandardName(s: Schema): Option<string> {
    match s
    case Leaf(U(w)) => Some(if w == 1 then "u8" else if w == 2 then "u16" else if w == 4 then "u32" else if w == 8 then "u64" else "u128")
    case Leaf(I(w)) => Some(if w == 1 then "i8" else if w == 2 then "i16" else if w == 4 then "i32" else if w == 8 then "i64" else "i128")
    case Leaf(F(w)) => if w == 4 then Some("f32") else if w == 8 then Some("f64") else None
    case Leaf(Bool) => Some("bool")
    case Leaf(Char) => Some("char")
    case Str => Some("String")
    case _ => None
  }

  /** `ty` is written with the last segment `name`. */
  predicate EndsIn(ty: TypeSyntax, name: string) {
    ty.Path? && ty.segments != [] && ty.segments[|ty.segments| - 1] == name
  }

  /** `ty` is `s` by its standard name; a byte vector is written with a bare `u8`. */
  predicate Spells(ty: TypeSyntax, s: Schema) {
    if s == Vec(Leaf(U(1))) then EndsIn(ty, "Vec") && ty.args == [Path(["u8"], [])]
    else StandardName(s).Some? && EndsIn(ty, StandardName(s).value)
  }

  /** The kind that tells a type from every other. */
  function KindOfSchema(s: Schema): FieldKind {
    match s
    case Leaf(U(w)) => KU(w)
    case Leaf(I(w)) => KI(w)
    case Leaf(F(w)) => KF(w)
    case Leaf(Bool) => KBool
    case Leaf(Char) => KChar
    case Str => KStr
    case Vec(e) => if e == Leaf(U(1)) then KBytes else KList
    case Opt(_) => KOption
    case _ => KOther
  }

  lemma {:induction false} PrimitiveIsNamed(name: string, k: Leaf)
    ensures Primitive(name) == Some(k) <==> StandardName(Leaf(k)) == Some(name)
  {
  }

  /** Some name and `Id` or `Anchor` behind it. */
  ghost predicate NamedLikeId(ty: TypeSyntax) {
    exists front: string :: EndsIn(ty, front + "Id") || EndsIn(ty, front + "Anchor")
  }

  lemma {:induction false} EndsWithIs(name: string, suffix: string)
    ensures EndsWith(name, suffix) <==> exists front: string :: name == front + suffix
  {
    if EndsWith(name, suffix) {
      assert name == name[..|name| - |suffix|] + suffix;
    }
  }

  lemma {:induction false} IdsByName(ty: TypeSyntax)
    ensures NamedLikeId(ty) <==>
            && ty.Path? && ty.segments != []
            && (EndsWith(ty.segments[|ty.segments| - 1], "Id") || EndsWith(ty.segments[|ty.segments| - 1], "Anchor"))
  {
    if ty.Path? && ty.segments != [] {
      hide EndsWith;
      var name := ty.segments[|ty.segments| - 1];
      EndsWithIs(name, "Id");
      EndsWithIs(name, "Anchor");
      if front: string :| name == front + "Id" {
        assert EndsIn(ty, front + "Id");
      }
      if front: string :| name == front + "Anchor" {
        assert EndsIn(ty, front + "Anchor");
      }
    }
  }

  /**
   The kind is exactly that of the type where the type is written by its standard name. Otherwise it only says
   option, list or id, by the name alone, or nothing.
   */
  lemma {:induction false} KindIsRight(ty: TypeSyntax, s: Schema)
    requires Resolves(ty, s)
    ensures KindOf(ty) ==
            if Spells(ty, s) then KindOfSchema(s)
            else if EndsIn(ty, "Option") then KOption
            else if EndsIn(ty, "Vec") then KList
            else if NamedLikeId(ty) then KId
            else KOther
    ensures KindAgrees(KindOf(ty), s)
  {
    IdsByName(ty);
    hide NamedLikeId;
    if ty.Path? && ty.segments != [] {
      var name := ty.segments[|ty.segments| - 1];
      if Primitive(name).Some? {
        PrimitiveIsNamed(name, Primitive(name).value);
        PrimitiveKindIs(name);
      } else {
        if s.Leaf? {
          PrimitiveIsNamed(name, s.leaf);
        }
        OtherKinds(ty, s);
      }
    }
  }

  lemma {:induction false} PrimitiveKindIs(name: string)
    requires Primitive(name).Some?
    ensures PrimitiveKind(Primitive(name).value) == KindOfSchema(Leaf(Primitive(name).value))
    ensures KindAgrees(PrimitiveKind(Primitive(name).value), Leaf(Primitive(name).value))
  {
  }

  lemma {:induction false} OtherKinds(ty: TypeSyntax, s: Schema)
    requires Resolves(ty, s) && ty.Path? && ty.segments != [] && Primitive(ty.segments[|ty.segments| - 1]).None?
    requires s.Leaf? ==> !Spells(ty, s)
    ensures KindOf(ty) ==
            if Spells(ty, s) then KindOfSchema(s)
            else if EndsIn(ty, "Option") then KOption
            else if EndsIn(ty, "Vec") then KList
            else if NamedLikeId(ty) then KId
            else KOther
    ensures KindAgrees(KindOf(ty), s)
  {
    NamedKind(ty);
    hide KindOf, Primitive, NamedLikeId, EndsIn;
    if EndsIn(ty, "Vec") {
      VectorKind(ty, s);
    } else {
      NotVector(ty, s);
    }
  }

  /** The kind by name, for names that are no primitive type. */
  lemma {:induction false} NamedKind(ty: TypeSyntax)
    requires ty.Path? && ty.segments != [] && Primitive(ty.segments[|ty.segments| - 1]).None?
    ensures KindOf(ty) ==
            if EndsIn(ty, "String") then KStr
            else if EndsIn(ty, "Option") then KOption
            else if EndsIn(ty, "Vec") then (if exists i :: 0 <= i < |ty.args| && IsIdentU8(ty.args[i]) then KBytes else KList)
            else if NamedLikeId(ty) then KId
            else KOther
  {
    IdsByName(ty);
    hide Primitive, NamedLikeId, IsIdentU8;
  }

  lemma {:induction false} VectorKind(ty: TypeSyntax, s: Schema)
    requires Resolves(ty, s) && EndsIn(ty, "Vec")
    ensures s.Vec? && (Spells(ty, s) <==> exists i :: 0 <= i < |ty.args| && IsIdentU8(ty.args[i]))
    ensures Spells(ty, s) ==> s == Vec(Leaf(U(1)))
  {
    NotPrimitive();
    U8IsPrimitive();
    hide Primitive;
    assert IsIdentU8(ty.args[0]) <==> ty.args == [Path(["u8"], [])];
    assert IsIdentU8(ty.args[0]) ==> Resolves(ty.args[0], s.elem);
  }

  lemma {:induction false} NotVector(ty: TypeSyntax, s: Schema)
    requires Resolves(ty, s) && ty.Path? && ty.segments != [] && Primitive(ty.segments[|ty.segments| - 1]).None?
    requires !EndsIn(ty, "Vec") && (s.Leaf? ==> !Spells(ty, s))
    ensures Spells(ty, s) <==> EndsIn(ty, "String")
    ensures EndsIn(ty, "String") ==> s == Str
    ensures EndsIn(ty, "Option") ==> s.Opt?
  {
    hide Primitive;
  }

  /** Strings and vectors are known by their names alone. */
  lemma {:induction false} StringsAndVectors(ty: TypeSyntax)
    ensures KindOf(ty).KStr? <==> EndsIn(ty, "String")
    ensures KindOf(ty).KBytes? || KindOf(ty).KList? <==> EndsIn(ty, "Vec")
  {
    NotPrimitive();
    hide Primitive;
  }

  lemma {:induction false} NotPrimitive()
    ensures Primitive("String").None? && Primitive("Vec").None?
  {
  }

  lemma {:induction false} U8IsPrimitive()
    ensures Primitive("u8") == Some(U(1))
  {
  }

  // ----- Declarations and descriptors -----

  datatype FieldDecl = FieldDecl(name: Text, ty: TypeSyntax, schema: Schema)

  datatype FieldDesc = FieldDesc(name: Text, stackOffset: nat, stackSize: nat, heapable: bool, kind: FieldKind)

  datatype ObjectDesc = ObjectDesc(stackSize: nat, fields: seq<FieldDesc>)

  predicate WellResolved(decls: seq<FieldDecl>) {
    forall i :: 0 <= i < |decls| ==> Resolves(decls[i].ty, decls[i].schema)
  }

  function Schemas(decls: seq<FieldDecl>): List<Schema> {
    if decls == [] then Nil else Cons(decls[0].schema, Schemas(decls[1..]))
  }

  /** The stack bytes of the fields before field `i`. */
  function Offset(decls: seq<FieldDecl>, i: nat): nat
    requires i <= |decls|
  {
    if i == 0 then 0 else StackSize(decls[0].schema) + Offset(decls[1..], i - 1)
  }

  function DescribeField(decls: seq<FieldDecl>, i: nat): FieldDesc
    requires i < |decls|
  {
    var d := decls[i];
    FieldDesc(d.name, Offset(decls, i), StackSize(d.schema), !Fixed(d.schema), KindOf(d.ty))
  }

  /** `desc` describes `decls`. */
  predicate Describes(desc: ObjectDesc, decls: seq<FieldDecl>) {
    && desc.stackSize == StackSum(Schemas(decls))
    && |desc.fields| == |decls|
    && forall i :: 0 <= i < |decls| ==> desc.fields[i] == DescribeField(decls, i)
  }

  lemma {:induction false} OffsetStep(decls: seq<FieldDecl>, i: nat)
    requires i < |decls|
    ensures Offset(decls, i + 1) == Offset(decls, i) + StackSize(decls[i].schema)
  {
    if i > 0 {
      OffsetStep(decls[1..], i - 1);
    }
  }

  lemma {:induction false} OffsetAll(decls: seq<FieldDecl>)
    ensures Offset(decls, |decls|) == StackSum(Schemas(decls))
  {
    if decls != [] {
      OffsetAll(decls[1..]);
    }
  }

  /** `build_descriptor`: one pass, with the prefix sum of the stack sizes seen so far. */
  method BuildDescriptor(decls: seq<FieldDecl>) returns (desc: ObjectDesc)
    ensures Describes(desc, decls)
  {
    var prior, entries := 0, [];
    for i := 0 to |decls|
      invariant prior == Offset(decls, i) && |entries| == i
      invariant forall j :: 0 <= j < i ==> entries[j] == DescribeField(decls, j)
    {
      var d := decls[i];
      entries := entries + [FieldDesc(d.name, prior, StackSize(d.schema), !Fixed(d.schema), KindOf(d.ty))];
      OffsetStep(decls, i);
      prior := prior + StackSize(d.schema);
    }
    OffsetAll(decls);
    desc := ObjectDesc(prior, entries);
  }

  // ----- Records -----

  function Nth<T>(xs: List<T>, i: nat): T
    requires i < Len(xs)
  {
    if i == 0 then xs.head else Nth(xs.tail, i - 1)
  }

  predicate TypedRecord(env: Env, decls: seq<FieldDecl>, vals: List<Value>) {
    TypedAll(env, Schemas(decls), vals)
  }

  /** The bytes of a record. */
  function Body(env: Env, decls: seq<FieldDecl>, vals: List<Value>): seq<Byte>
    requires TypedRecord(env, decls, vals)
  {
    Encoding(env, Struct(Schemas(decls)), VList(vals))
  }

  lemma {:induction false} BodySections(env: Env, decls: seq<FieldDecl>, vals: List<Value>)
    requires TypedRecord(env, decls, vals)
    ensures Body(env, decls, vals) == StackAll(env, Schemas(decls), vals) + HeapAll(env, Schemas(decls), vals)
  {
    hide StackAll, HeapAll, Schemas, TypedAll;
  }

  lemma {:induction false} RecordLength(env: Env, decls: seq<FieldDecl>, vals: List<Value>)
    requires TypedRecord(env, decls, vals)
    ensures Len(vals) == |decls|
  {
    if decls != [] {
      RecordLength(env, decls[1..], vals.tail);
    }
  }

  lemma {:induction false} FieldTyped(env: Env, decls: seq<FieldDecl>, vals: List<Value>, i: nat)
    requires TypedRecord(env, decls, vals) && i < |decls|
    ensures Len(vals) == |decls| && Typed(env, decls[i].schema, Nth(vals, i))
  {
    RecordLength(env, decls, vals);
    if i > 0 {
      FieldTyped(env, decls[1..], vals.tail, i - 1);
    }
  }

  lemma {:induction false} FieldFits(env: Env, decls: seq<FieldDecl>, vals: List<Value>, i: nat)
    requires TypedRecord(env, decls, vals) && FitsAll(env, Schemas(decls), vals) && i < |decls| && i < Len(vals)
    requires Typed(env, decls[i].schema, Nth(vals, i))
    ensures Fits(env, decls[i].schema, Nth(vals, i))
  {
    if i > 0 {
      FieldFits(env, decls[1..], vals.tail, i - 1);
    }
  }

  /** The heap bytes of the fields before field `i`. */
  function HeapOffset(env: Env, decls: seq<FieldDecl>, vals: List<Value>, i: nat): nat
    requires TypedRecord(env, decls, vals) && i <= |decls|
  {
    if i == 0 then 0
    else HeapSize(env, decls[0].schema, vals.head) + HeapOffset(env, decls[1..], vals.tail, i - 1)
  }

  lemma {:induction false} HeapOffsetStep(env: Env, decls: seq<FieldDecl>, vals: List<Value>, i: nat)
    requires TypedRecord(env, decls, vals) && i < |decls| && i < Len(vals)
    requires Typed(env, decls[i].schema, Nth(vals, i))
    ensures HeapOffset(env, decls, vals, i + 1) == HeapOffset(env, decls, vals, i) + HeapSize(env, decls[i].schema, Nth(vals, i))
  {
    if i > 0 {
      HeapOffsetStep(env, decls[1..], vals.tail, i - 1);
    }
  }

  lemma {:induction false} HeapOffsetAll(env: Env, decls: seq<FieldDecl>, vals: List<Value>)
    requires TypedRecord(env, decls, vals)
    ensures HeapOffset(env, decls, vals, |decls|) == HeapSum(env, Schemas(decls), vals)
  {
    if decls != [] {
      HeapOffsetAll(env, decls[1..], vals.tail);
    }
  }

  /** Where the members of a record stand when its sections stand at `sp` and `hp`. */
  lemma {:induction false} FieldAt(env: Env, decls: seq<FieldDecl>, vals: List<Value>, i: nat, buf: seq<Byte>, sp: nat, hp: nat)
    requires TypedRecord(env, decls, vals) && i < |decls| && i < Len(vals) && Typed(env, decls[i].schema, Nth(vals, i))
    requires At(buf, sp, StackAll(env, Schemas(decls), vals)) && At(buf, hp, HeapAll(env, Schemas(decls), vals))
    ensures At(buf, sp + Offset(decls, i), Stack(env, decls[i].schema, Nth(vals, i)))
    ensures At(buf, hp + HeapOffset(env, decls, vals, i), Heap(env, decls[i].schema, Nth(vals, i)))
  {
    hide At, Stack, Heap, Typed, StackSize, HeapSize;
    var s, v := decls[0].schema, vals.head;
    AtConcat(buf, sp, Stack(env, s, v), StackAll(env, Schemas(decls[1..]), vals.tail));
    AtConcat(buf, hp, Heap(env, s, v), HeapAll(env, Schemas(decls[1..]), vals.tail));
    HeapLength(env, s, v);
    if i > 0 {
      FieldAt(env, decls[1..], vals.tail, i - 1, buf, sp + StackSize(s), hp + HeapSize(env, s, v));
    }
  }

  /** The descriptor locates every field of every encoded record. */
  lemma {:induction false} FieldLocated(env: Env, decls: seq<FieldDecl>, vals: List<Value>, i: nat)
    requires TypedRecord(env, decls, vals) && i < |decls|
    ensures Len(vals) == |decls| && Typed(env, decls[i].schema, Nth(vals, i))
    ensures var body, stackSize := Body(env, decls, vals), StackSum(Schemas(decls));
            && |body| == stackSize + HeapOffset(env, decls, vals, |decls|)
            && At(body, Offset(decls, i), Stack(env, decls[i].schema, Nth(vals, i)))
            && At(body, stackSize + HeapOffset(env, decls, vals, i), Heap(env, decls[i].schema, Nth(vals, i)))
            && Offset(decls, i) + StackSize(decls[i].schema) <= stackSize
  {
    hide StackAll, HeapAll, Schemas, StackSum, HeapSum, HeapOffset, Offset, TypedAll, Typed, Nth, Stack, Heap, StackSize;
    FieldTyped(env, decls, vals, i);
    BodySections(env, decls, vals);
    var ss := Schemas(decls);
    var body := Body(env, decls, vals);
    assert At(body, 0, StackAll(env, ss, vals) + HeapAll(env, ss, vals));
    AtConcat(body, 0, StackAll(env, ss, vals), HeapAll(env, ss, vals));
    FieldAt(env, decls, vals, i, body, 0, StackSum(ss));
    HeapOffsetAll(env, decls, vals);
    HeapLengths(env, ss, vals);
    OffsetStep(decls, i);
    OffsetAll(decls);
    OffsetGrows(decls, i + 1);
  }

  lemma {:induction false} OffsetGrows(decls: seq<FieldDecl>, i: nat)
    requires i <= |decls|
    ensures Offset(decls, i) <= Offset(decls, |decls|)
    decreases |decls| - i
  {
    if i < |decls| {
      OffsetStep(decls, i);
      OffsetGrows(decls, i + 1);
    }
  }
}
