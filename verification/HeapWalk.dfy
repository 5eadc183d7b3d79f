/** `heap_bytes`: finding the payload of a string or vector field without decoding the record. */
module HeapWalk {
  import opened Bytes
  import opened Wrappers
  import opened Wire
  import opened WireSizes
  import opened WireRoundTrip
  import opened Descriptor

  predicate Hoppable(fd: FieldDesc) {
    fd.kind.KStr? || fd.kind.KBytes? || fd.kind.KList?
  }

  /** The `u32` in the first four bytes of a field's slot. */
  function RegionLen(body: seq<Byte>, fd: FieldDesc): Option<nat> {
    if fd.stackOffset + 4 <= |body| then Some(FromLE(body[fd.stackOffset..fd.stackOffset + 4])) else None
  }

  /** `body.get(from..to)` */
  function Get(body: seq<Byte>, from: nat, to: nat): Option<seq<Byte>> {
    if from <= to <= |body| then Some(body[from..to]) else None
  }

  /** How a walk ends: with an answer, or by running out of fields it can cross. */
  datatype Walk = Answer(bytes: Option<seq<Byte>>) | Stuck

  /** The forward walk from field `i`; `cursor` is lost once an opaque heap field was crossed. */
  function Forward(fields: seq<FieldDesc>, body: seq<Byte>, target: nat, i: nat, cursor: Option<nat>): Walk
    requires i <= |fields|
    decreases |fields| - i
  {
    if i == |fields| then Stuck
    else
      var fd := fields[i];
      if !fd.heapable then Forward(fields, body, target, i + 1, cursor)
      else if i == target then
        if cursor.None? then Stuck
        else if RegionLen(body, fd).None? then Answer(None)
        else Answer(Get(body, cursor.value, cursor.value + RegionLen(body, fd).value))
      else if cursor.Some? && Hoppable(fd) then
        if RegionLen(body, fd).None? then Answer(None)
        else Forward(fields, body, target, i + 1, Some(cursor.value + RegionLen(body, fd).value))
      else Forward(fields, body, target, i + 1, None)
  }

  /** The backward walk over the first `i` fields, whose heap bytes end at `end`. */
  function Backward(fields: seq<FieldDesc>, body: seq<Byte>, target: nat, i: nat, end: nat): Option<seq<Byte>>
    requires i <= |fields|
  {
    if i == 0 then None
    else
      var fd := fields[i - 1];
      if !fd.heapable then Backward(fields, body, target, i - 1, end)
      else if i - 1 == target then
        if RegionLen(body, fd).None? || RegionLen(body, fd).value > end then None
        else Get(body, end - RegionLen(body, fd).value, end)
      else if !Hoppable(fd) || RegionLen(body, fd).None? || RegionLen(body, fd).value > end then None
      else Backward(fields, body, target, i - 1, end - RegionLen(body, fd).value)
  }

  function HeapBytes(desc: ObjectDesc, body: seq<Byte>, target: nat): Option<seq<Byte>> {
    var f := Forward(desc.fields, body, target, 0, Some(desc.stackSize));
    if f.Answer? then f.bytes else Backward(desc.fields, body, target, |desc.fields|, |body|)
  }

  /** The two loops of the original. */
  method FindHeapBytes(desc: ObjectDesc, body: seq<Byte>, target: nat) returns (r: Option<seq<Byte>>)
    ensures r == HeapBytes(desc, body, target)
  {
    hide RegionLen, Get;
    var cursor := Some(desc.stackSize);
    var i := 0;
    while i < |desc.fields|
      invariant i <= |desc.fields|
      invariant Forward(desc.fields, body, target, 0, Some(desc.stackSize)) == Forward(desc.fields, body, target, i, cursor)
    {
      var fd := desc.fields[i];
      if fd.heapable {
        if i == target {
          if cursor.None? {
            break;
          }
          var len := RegionLen(body, fd);
          if len.None? {
            return None;
          }
          return Get(body, cursor.value, cursor.value + len.value);
        }
        if cursor.Some? && Hoppable(fd) {
          var len := RegionLen(body, fd);
          if len.None? {
            return None;
          }
          cursor := Some(cursor.value + len.value);
        } else {
          cursor := None;
        }
      }
      i := i + 1;
    }

    var end: nat := |body|;
    i := |desc.fields|;
    while i > 0
      invariant 0 <= i <= |desc.fields|
      invariant HeapBytes(desc, body, target) == Backward(desc.fields, body, target, i, end)
    {
      i := i - 1;
      var fd := desc.fields[i];
      if fd.heapable {
        var len := RegionLen(body, fd);
        if i == target {
          if len.None? || len.value > end {
            return None;
          }
          return Get(body, end - len.value, end);
        }
        if !Hoppable(fd) || len.None? || len.value > end {
          return None;
        }
        end := end - len.value;
      }
    }
    r := None;
  }

  // ----- What the walks find in an encoded record -----

  /** A field that may own heap bytes, but is not written as a string or vector, whose slot shows how many. */
  predicate Opaque(d: FieldDecl) {
    !Fixed(d.schema) && !EndsIn(d.ty, "String") && !EndsIn(d.ty, "Vec")
  }

  /** The walks skip just these. */
  lemma {:induction false} OpaqueIs(desc: ObjectDesc, decls: seq<FieldDecl>, i: nat)
    requires Describes(desc, decls) && i < |decls|
    ensures Opaque(decls[i]) <==> desc.fields[i].heapable && !Hoppable(desc.fields[i])
  {
    hide Schemas, StackSum, Offset, KindOf, EndsIn;
    StringsAndVectors(decls[i].ty);
  }

  predicate NoOpaque(decls: seq<FieldDecl>, from: nat, to: nat)
    requires from <= to <= |decls|
  {
    forall j :: from <= j < to ==> !Opaque(decls[j])
  }

  /** A record in its encoded form together with its descriptor. */
  predicate Encoded(env: Env, desc: ObjectDesc, decls: seq<FieldDecl>, vals: List<Value>) {
    Describes(desc, decls) && WellResolved(decls) && TypedRecord(env, decls, vals) && FitsAll(env, Schemas(decls), vals)
  }

  predicate Located(env: Env, desc: ObjectDesc, decls: seq<FieldDecl>, vals: List<Value>, i: nat)
    requires Encoded(env, desc, decls, vals) && i < |decls| && Len(vals) == |decls|
  {
    var body, d, v := Body(env, decls, vals), decls[i], Nth(vals, i);
    && Typed(env, d.schema, v)
    && |body| == desc.stackSize + HeapOffset(env, decls, vals, |decls|)
    && At(body, Offset(decls, i), Stack(env, d.schema, v))
    && At(body, desc.stackSize + HeapOffset(env, decls, vals, i), Heap(env, d.schema, v))
    && HeapOffset(env, decls, vals, i + 1) == HeapOffset(env, decls, vals, i) + |Heap(env, d.schema, v)|
    && |Heap(env, d.schema, v)| == HeapSize(env, d.schema, v)
  }

  lemma {:induction false} FieldIsLocated(env: Env, desc: ObjectDesc, decls: seq<FieldDecl>, vals: List<Value>, i: nat)
    requires Encoded(env, desc, decls, vals) && i < |decls|
    ensures Len(vals) == |decls| && Located(env, desc, decls, vals, i)
  {
    hide Typed, TypedAll, FitsAll, HeapOffset, Offset, Stack, Heap, HeapSize, Body, Schemas, StackSum, Nth, At;
    FieldLocated(env, decls, vals, i);
    HeapOffsetStep(env, decls, vals, i);
    HeapLength(env, decls[i].schema, Nth(vals, i));
  }

  /** In an encoded record the slot of a string or vector field holds the size of its payload. */
  lemma {:induction false} RegionLenIsHeapSize(env: Env, desc: ObjectDesc, decls: seq<FieldDecl>, vals: List<Value>, i: nat)
    requires Encoded(env, desc, decls, vals) && i < |decls| && Hoppable(desc.fields[i])
    ensures Len(vals) == |decls| && Typed(env, decls[i].schema, Nth(vals, i))
    ensures RegionLen(Body(env, decls, vals), desc.fields[i]) == Some(HeapSize(env, decls[i].schema, Nth(vals, i)))
    ensures desc.fields[i].heapable
  {
    hide TypedAll, FitsAll, HeapOffset, Offset, Body, Schemas, StackSum, LE, FromLE, Heap, Nth;
    FieldIsLocated(env, desc, decls, vals, i);
    FieldFits(env, decls, vals, i);
    KindIsRight(decls[i].ty, decls[i].schema);
    SlotReads(HeapSize(env, decls[i].schema, Nth(vals, i)));
  }

  /** A field whose type is fixed adds nothing to the heap section. */
  lemma {:induction false} FixedFieldAddsNothing(env: Env, desc: ObjectDesc, decls: seq<FieldDecl>, vals: List<Value>, i: nat)
    requires Encoded(env, desc, decls, vals) && i < |decls| && !desc.fields[i].heapable
    ensures HeapOffset(env, decls, vals, i + 1) == HeapOffset(env, decls, vals, i)
  {
    hide TypedAll, FitsAll, HeapOffset, Offset, Body, Schemas, StackSum, Heap, Stack, Nth, Typed, HeapSize;
    FieldIsLocated(env, desc, decls, vals, i);
    FixedHasNoHeap(env, decls[i].schema, Nth(vals, i));
  }

  /** Payload of field `t`. */
  function Payload(env: Env, decls: seq<FieldDecl>, vals: List<Value>, t: nat): seq<Byte>
    requires t < |decls| && Len(vals) == |decls| && Typed(env, decls[t].schema, Nth(vals, t))
  {
    Heap(env, decls[t].schema, Nth(vals, t))
  }

  /** The answer at the target, from either side. */
  lemma {:induction false} TargetFound(env: Env, desc: ObjectDesc, decls: seq<FieldDecl>, vals: List<Value>, t: nat)
    requires Encoded(env, desc, decls, vals) && t < |decls| && Hoppable(desc.fields[t])
    ensures Len(vals) == |decls| && Typed(env, decls[t].schema, Nth(vals, t))
    ensures var body := Body(env, decls, vals);
            var len := RegionLen(body, desc.fields[t]);
            && len.Some?
            && HeapOffset(env, decls, vals, t + 1) == HeapOffset(env, decls, vals, t) + len.value
            && desc.stackSize + HeapOffset(env, decls, vals, t + 1) <= |body|
            && Get(body, desc.stackSize + HeapOffset(env, decls, vals, t), desc.stackSize + HeapOffset(env, decls, vals, t + 1))
               == Some(Payload(env, decls, vals, t))
  {
    hide TypedAll, FitsAll, HeapOffset, Offset, Body, Schemas, StackSum, Heap, Stack, Nth, Typed, HeapSize;
    FieldIsLocated(env, desc, decls, vals, t);
    RegionLenIsHeapSize(env, desc, decls, vals, t);
  }

  lemma {:induction false} ForwardAtTarget(fields: seq<FieldDesc>, body: seq<Byte>, t: nat, cursor: Option<nat>)
    requires t < |fields| && fields[t].heapable && RegionLen(body, fields[t]).Some?
    ensures Forward(fields, body, t, t, cursor)
         == if cursor.None? then Stuck else Answer(Get(body, cursor.value, cursor.value + RegionLen(body, fields[t]).value))
  {
    hide RegionLen, Get;
  }

  /** One step of the forward walk over a field before the target. */
  lemma {:induction false} ForwardStep(fields: seq<FieldDesc>, body: seq<Byte>, t: nat, i: nat, cursor: Option<nat>)
    requires i < t < |fields| && (fields[i].heapable && Hoppable(fields[i]) ==> RegionLen(body, fields[i]).Some?)
    ensures Forward(fields, body, t, i, cursor)
         == if !fields[i].heapable then Forward(fields, body, t, i + 1, cursor)
            else if cursor.Some? && Hoppable(fields[i]) then
              Forward(fields, body, t, i + 1, Some(cursor.value + RegionLen(body, fields[i]).value))
            else Forward(fields, body, t, i + 1, None)
  {
    hide RegionLen, Get;
  }

  lemma {:induction false} ForwardFinds(env: Env, desc: ObjectDesc, decls: seq<FieldDecl>, vals: List<Value>, t: nat, i: nat, cursor: Option<nat>)
    requires Encoded(env, desc, decls, vals) && i <= t < |decls| && Hoppable(desc.fields[t])
    requires cursor == if NoOpaque(decls, 0, i) then Some(desc.stackSize + HeapOffset(env, decls, vals, i)) else None
    ensures Len(vals) == |decls| && Typed(env, decls[t].schema, Nth(vals, t))
    ensures Forward(desc.fields, Body(env, decls, vals), t, i, cursor)
         == if NoOpaque(decls, 0, t) then Answer(Some(Payload(env, decls, vals, t))) else Stuck
    decreases t - i
  {
    hide TypedAll, FitsAll, HeapOffset, Offset, Body, Schemas, StackSum, Payload, RegionLen, Get, Nth, Typed, HeapSize, KindOf, Forward;
    TargetFound(env, desc, decls, vals, t);
    if i == t {
      RegionLenIsHeapSize(env, desc, decls, vals, t);
      ForwardAtTarget(desc.fields, Body(env, decls, vals), t, cursor);
      return;
    }
    OpaqueIs(desc, decls, i);
    hide StackSize, Fixed, Opaque;
    var fd, body := desc.fields[i], Body(env, decls, vals);
    if !fd.heapable {
      FixedFieldAddsNothing(env, desc, decls, vals, i);
      ForwardStep(desc.fields, body, t, i, cursor);
      ForwardFinds(env, desc, decls, vals, t, i + 1, cursor);
    } else if Hoppable(fd) {
      TargetFound(env, desc, decls, vals, i);
      ForwardStep(desc.fields, body, t, i, cursor);
      var next := if cursor.Some? then Some(cursor.value + RegionLen(body, fd).value) else None;
      ForwardFinds(env, desc, decls, vals, t, i + 1, next);
    } else {
      ForwardStep(desc.fields, body, t, i, cursor);
      ForwardFinds(env, desc, decls, vals, t, i + 1, None);
    }
  }

  /** One step of the backward walk over a field behind the target. */
  lemma {:induction false} BackwardStep(fields: seq<FieldDesc>, body: seq<Byte>, t: nat, i: nat, end: nat)
    requires t + 1 < i <= |fields|
    requires fields[i - 1].heapable && Hoppable(fields[i - 1]) ==>
               RegionLen(body, fields[i - 1]).Some? && RegionLen(body, fields[i - 1]).value <= end
    ensures Backward(fields, body, t, i, end)
         == if !fields[i - 1].heapable then Backward(fields, body, t, i - 1, end)
            else if Hoppable(fields[i - 1]) then
              Backward(fields, body, t, i - 1, end - RegionLen(body, fields[i - 1]).value)
            else None
  {
    hide RegionLen, Get;
  }

  lemma {:induction false} BackwardFinds(env: Env, desc: ObjectDesc, decls: seq<FieldDecl>, vals: List<Value>, t: nat, i: nat)
    requires Encoded(env, desc, decls, vals) && t < i <= |decls| && Hoppable(desc.fields[t])
    requires NoOpaque(decls, i, |decls|)
    ensures Len(vals) == |decls| && Typed(env, decls[t].schema, Nth(vals, t))
    ensures Backward(desc.fields, Body(env, decls, vals), t, i, desc.stackSize + HeapOffset(env, decls, vals, i))
         == if NoOpaque(decls, t, |decls|) then Some(Payload(env, decls, vals, t)) else None
    decreases i
  {
    hide TypedAll, FitsAll, HeapOffset, Offset, Body, Schemas, StackSum, Payload, RegionLen, Get, Nth, Typed, HeapSize, KindOf;
    TargetFound(env, desc, decls, vals, t);
    var fd, body := desc.fields[i - 1], Body(env, decls, vals);
    OpaqueIs(desc, decls, i - 1);
    hide Opaque;
    if i - 1 == t {
      RegionLenIsHeapSize(env, desc, decls, vals, t);
      return;
    }
    hide Backward, StackSize, Fixed;
    var end := desc.stackSize + HeapOffset(env, decls, vals, i);
    if !fd.heapable {
      FixedFieldAddsNothing(env, desc, decls, vals, i - 1);
      BackwardStep(desc.fields, body, t, i, end);
      BackwardFinds(env, desc, decls, vals, t, i - 1);
    } else if Hoppable(fd) {
      TargetFound(env, desc, decls, vals, i - 1);
      BackwardStep(desc.fields, body, t, i, end);
      BackwardFinds(env, desc, decls, vals, t, i - 1);
    } else {
      BackwardStep(desc.fields, body, t, i, end);
    }
  }

  /**
   In an encoded record, `heap_bytes` returns exactly the payload of a string or vector field
   if no opaque heap field stands before it or none stands after it, and nothing otherwise.
   */
  lemma {:induction false} HeapBytesExact(env: Env, desc: ObjectDesc, decls: seq<FieldDecl>, vals: List<Value>, t: nat)
    requires Encoded(env, desc, decls, vals) && t < |decls| && Hoppable(desc.fields[t])
    ensures Len(vals) == |decls| && Typed(env, decls[t].schema, Nth(vals, t))
    ensures HeapBytes(desc, Body(env, decls, vals), t)
         == if NoOpaque(decls, 0, t) || NoOpaque(decls, t + 1, |decls|) then Some(Payload(env, decls, vals, t)) else None
  {
    hide TypedAll, FitsAll, HeapOffset, Offset, Schemas, StackSum, Payload, RegionLen, Get, Nth, Typed, HeapSize, KindOf, Forward, Backward, Body;
    assert HeapOffset(env, decls, vals, 0) == 0 by { HeapOffsetZero(env, decls, vals); }
    ForwardFinds(env, desc, decls, vals, t, 0, Some(desc.stackSize));
    BackwardFinds(env, desc, decls, vals, t, |decls|);
    FieldIsLocated(env, desc, decls, vals, t);
    OpaqueIs(desc, decls, t);
    hide Opaque;
  }

  lemma {:induction false} HeapOffsetZero(env: Env, decls: seq<FieldDecl>, vals: List<Value>)
    requires TypedRecord(env, decls, vals)
    ensures HeapOffset(env, decls, vals, 0) == 0
  {
  }
}
