/** Stamping the engine-assigned id into a record without decoding it. */
module StampId {
  import opened Bytes
  import opened Wrappers
  import opened Wire
  import opened Descriptor
  import opened HeapWalk
  import opened Query
  import opened QueryProofs

  const ID_NAME: Text := [105, 100]

  /** `stamp_engine_id` on `[version][body]`; `desc` is what the registry finds for the record, if anything. */
  function Stamp(desc: Option<ObjectDesc>, id: nat, owned: seq<Byte>): seq<Byte> {
    if owned == [] || desc.None? then owned
    else
      var t := FindField(desc.value.fields, ID_NAME, 0);
      if t.None? then owned
      else
        var fd := desc.value.fields[t.value];
        var start := 1 + fd.stackOffset;
        if fd.stackSize == 16 && |owned| >= start + 16 then owned[..start] + LE(16, id) + owned[start + 16..] else owned
  }

  function SetNth(vals: List<Value>, i: nat, v: Value): (r: List<Value>)
    requires i < Len(vals)
    ensures Len(r) == Len(vals) && Nth(r, i) == v
    ensures forall j: nat :: j < Len(vals) && j != i ==> Nth(r, j) == Nth(vals, j)
  {
    if i == 0 then Cons(v, vals.tail) else Cons(vals.head, SetNth(vals.tail, i - 1, v))
  }

  lemma {:induction false} PatchRight(a: seq<Byte>, b: seq<Byte>, p: nat, bs: seq<Byte>)
    requires p + |bs| <= |b|
    ensures Patch(a + b, |a| + p, bs) == a + Patch(b, p, bs)
  {
    assert (a + b)[..|a| + p] == a + b[..p];
    assert (a + b)[|a| + p + |bs|..] == b[p + |bs|..];
  }

  lemma {:induction false} PatchLeft(a: seq<Byte>, b: seq<Byte>, p: nat, bs: seq<Byte>)
    requires p + |bs| <= |a|
    ensures Patch(a + b, p, bs) == Patch(a, p, bs) + b
  {
    assert (a + b)[..p] == a[..p];
    assert (a + b)[p + |bs|..] == a[p + |bs|..] + b;
  }

  lemma {:induction false} PatchWhole(a: seq<Byte>, bs: seq<Byte>)
    requires |a| == |bs|
    ensures Patch(a, 0, bs) == bs
  {
  }

  lemma {:induction false} OffsetWithin(decls: seq<FieldDecl>, t: nat)
    requires t < |decls|
    ensures Offset(decls, t) + StackSize(decls[t].schema) <= StackSum(Schemas(decls))
  {
    OffsetStep(decls, t);
    OffsetGrows(decls, t + 1);
    OffsetAll(decls);
  }

  /** Two values of a type that only differ in their stack sections. */
  predicate SameHeap(env: Env, s: Schema, v: Value, w: Value) {
    Typed(env, s, v) && Typed(env, s, w) && Heap(env, s, v) == Heap(env, s, w)
  }

  lemma {:induction false} HeapSame(env: Env, s: Schema, v: Value, w: Value)
    requires SameHeap(env, s, v, w)
    ensures Typed(env, s, v) && Typed(env, s, w) && Heap(env, s, v) == Heap(env, s, w)
  {
  }

  lemma {:induction false} SetNthStack(env: Env, decls: seq<FieldDecl>, vals: List<Value>, t: nat, v: Value)
    requires TypedRecord(env, decls, vals) && t < |decls| && t < Len(vals)
    requires SameHeap(env, decls[t].schema, Nth(vals, t), v)
    ensures TypedRecord(env, decls, SetNth(vals, t, v))
    ensures Offset(decls, t) + StackSize(decls[t].schema) <= StackSum(Schemas(decls))
    ensures StackAll(env, Schemas(decls), SetNth(vals, t, v))
         == Patch(StackAll(env, Schemas(decls), vals), Offset(decls, t), Stack(env, decls[t].schema, v))
    ensures HeapAll(env, Schemas(decls), SetNth(vals, t, v)) == HeapAll(env, Schemas(decls), vals)
    decreases t
  {
    hide Stack, Heap, Typed, StackSize, Patch, SameHeap;
    HeapSame(env, decls[t].schema, Nth(vals, t), v);
    OffsetWithin(decls, t);
    var s := decls[0].schema;
    var st, rest := Stack(env, s, vals.head), StackAll(env, Schemas(decls[1..]), vals.tail);
    if t == 0 {
      PatchWhole(st, Stack(env, s, v));
      PatchLeft(st, rest, 0, Stack(env, s, v));
    } else {
      OffsetWithin(decls[1..], t - 1);
      SetNthStack(env, decls[1..], vals.tail, t - 1, v);
      PatchRight(st, rest, Offset(decls[1..], t - 1), Stack(env, decls[t].schema, v));
    }
  }

  lemma {:induction false} BodyPatched(env: Env, decls: seq<FieldDecl>, vals: List<Value>, t: nat, v: Value)
    requires TypedRecord(env, decls, vals) && t < |decls| && t < Len(vals) && SameHeap(env, decls[t].schema, Nth(vals, t), v)
    ensures TypedRecord(env, decls, SetNth(vals, t, v))
    ensures Offset(decls, t) + StackSize(decls[t].schema) <= |Body(env, decls, vals)|
    ensures Body(env, decls, SetNth(vals, t, v)) == Patch(Body(env, decls, vals), Offset(decls, t), Stack(env, decls[t].schema, v))
  {
    hide TypedAll, Offset, Schemas, StackSum, Nth, StackAll, HeapAll, Stack, StackSize, SameHeap, Patch;
    assert Typed(env, decls[t].schema, v) by { HeapSame(env, decls[t].schema, Nth(vals, t), v); }
    SetNthStack(env, decls, vals, t, v);
    BodySections(env, decls, vals);
    BodySections(env, decls, SetNth(vals, t, v));
    PatchLeft(StackAll(env, Schemas(decls), vals), HeapAll(env, Schemas(decls), vals), Offset(decls, t), Stack(env, decls[t].schema, v));
  }

  lemma {:induction false} PatchesBody(env: Env, desc: ObjectDesc, decls: seq<FieldDecl>, vals: List<Value>, t: nat, id: nat, version: Byte)
    requires Encoded(env, desc, decls, vals) && Lookup(decls, ID_NAME) == Some(t) && StackSize(decls[t].schema) == 16
    requires Offset(decls, t) + 16 <= |Body(env, decls, vals)|
    ensures Stamp(Some(desc), id, [version] + Body(env, decls, vals)) == [version] + Patch(Body(env, decls, vals), Offset(decls, t), LE(16, id))
  {
    hide TypedRecord, FitsAll, Offset, LE, FindField, Body, Lookup, StackSize, Stamp, WellResolved, Patch;
    assert decls[0..] == decls;
    FindIsLookup(desc, decls, ID_NAME, 0);
    StampPatches(desc, t, id, version, Body(env, decls, vals));
  }

  lemma {:induction false} StampPatches(desc: ObjectDesc, t: nat, id: nat, version: Byte, body: seq<Byte>)
    requires FindField(desc.fields, ID_NAME, 0) == Some(t) && t < |desc.fields|
    requires desc.fields[t].stackSize == 16 && desc.fields[t].stackOffset + 16 <= |body|
    ensures Stamp(Some(desc), id, [version] + body) == [version] + Patch(body, desc.fields[t].stackOffset, LE(16, id))
  {
    hide FindField, LE;
    PatchRight([version], body, desc.fields[t].stackOffset, LE(16, id));
  }

  lemma {:induction false} PatchTells(buf: seq<Byte>, p: nat, a: seq<Byte>, b: seq<Byte>)
    requires p + |a| <= |buf| && |a| == |b|
    ensures Patch(buf, p, a) == Patch(buf, p, b) <==> a == b
  {
    PatchedAt(buf, p, a);
    PatchedAt(buf, p, b);
  }

  /**
   For a field of any sixteen-byte type: patching in place is the same as encoding the record again with `v` there
   if and only if the slots of `v` are the bytes of the id.
   */
  lemma {:induction false} StampIsReencodeIff(env: Env, desc: ObjectDesc, decls: seq<FieldDecl>, vals: List<Value>, t: nat, id: nat, version: Byte, v: Value)
    requires Encoded(env, desc, decls, vals) && Lookup(decls, ID_NAME) == Some(t) && t < Len(vals)
    requires StackSize(decls[t].schema) == 16 && SameHeap(env, decls[t].schema, Nth(vals, t), v)
    ensures TypedRecord(env, decls, SetNth(vals, t, v))
    ensures Stamp(Some(desc), id, [version] + Body(env, decls, vals)) == [version] + Body(env, decls, SetNth(vals, t, v))
       <==> Stack(env, decls[t].schema, v) == LE(16, id)
  {
    hide TypedAll, FitsAll, Offset, Schemas, StackSum, Nth, LE, Lookup, Stack, StackSize, SameHeap, Stamp, Body, Patch;
    HeapSame(env, decls[t].schema, Nth(vals, t), v);
    BodyPatched(env, decls, vals, t, v);
    PatchesBody(env, desc, decls, vals, t, id, version);
    var body, p := Body(env, decls, vals), Offset(decls, t);
    PatchTells(body, p, Stack(env, decls[t].schema, v), LE(16, id));
    SameTail(version, Patch(body, p, LE(16, id)), Patch(body, p, Stack(env, decls[t].schema, v)));
  }

  lemma {:induction false} SameTail(x: Byte, a: seq<Byte>, b: seq<Byte>)
    ensures [x] + a == [x] + b <==> a == b
  {
    assert ([x] + a)[1..] == a && ([x] + b)[1..] == b;
  }

  /** In particular, of a 128-bit integer field, with its new id. */
  lemma {:induction false} StampIsReencode(env: Env, desc: ObjectDesc, decls: seq<FieldDecl>, vals: List<Value>, t: nat, id: nat, version: Byte)
    requires Encoded(env, desc, decls, vals) && Lookup(decls, ID_NAME) == Some(t)
    requires decls[t].schema == Leaf(U(16)) && id < Pow256(16)
    ensures t < Len(vals) && TypedRecord(env, decls, SetNth(vals, t, VInt(id)))
    ensures Stamp(Some(desc), id, [version] + Body(env, decls, vals)) == [version] + Body(env, decls, SetNth(vals, t, VInt(id)))
  {
    hide TypedAll, FitsAll, Offset, Schemas, StackSum, Nth, LE, FindField, StackAll, HeapAll, Lookup, Pow256;
    FieldTyped(env, decls, vals, t);
    StampIsReencodeIff(env, desc, decls, vals, t, id, version, VInt(id));
  }

  /** Without a descriptor, without a sixteen-byte field of that name, or in a record too short for it, nothing changes. */
  lemma {:induction false} StampElsewhereIsIdentity(desc: Option<ObjectDesc>, id: nat, owned: seq<Byte>)
    requires desc.Some? ==> forall i :: 0 <= i < |desc.value.fields| && desc.value.fields[i].name == ID_NAME ==>
               desc.value.fields[i].stackSize != 16 || |owned| < 17 + desc.value.fields[i].stackOffset
    ensures Stamp(desc, id, owned) == owned
  {
    if desc.Some? {
      FindNames(desc.value.fields, ID_NAME, 0);
    }
  }

  lemma {:induction false} FindNames(fields: seq<FieldDesc>, name: Text, i: nat)
    requires i <= |fields|
    ensures var r := FindField(fields, name, i); r.Some? ==> fields[r.value].name == name
    decreases |fields| - i
  {
    if i < |fields| {
      FindNames(fields, name, i + 1);
    }
  }
}
