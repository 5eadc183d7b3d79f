/** The writer and the reader as the original runs them: two cursors over one buffer. */
module WireCursors {
  import opened Bytes
  import opened Wrappers
  import opened Wire
  import opened WireSizes
  import opened WireSteps
  import opened WireRoundTrip

  /** `buf` after stack bytes `st` were put at `p` and heap bytes `hs` were appended. */
  function Written(buf: seq<Byte>, p: nat, st: seq<Byte>, hs: seq<Byte>): (r: seq<Byte>)
    requires p + |st| <= |buf|
    ensures |r| == |buf| + |hs|
  {
    buf[..p] + st + buf[p + |st|..] + hs
  }

  /** The next `n` stack slots are still zero, as `resize` left them. */
  predicate Blank(buf: seq<Byte>, p: nat, n: nat) {
    p + n <= |buf| && forall i :: p <= i < p + n ==> buf[i] == 0
  }

  lemma {:induction false} WrittenTwice(buf: seq<Byte>, p: nat, st1: seq<Byte>, hs1: seq<Byte>, st2: seq<Byte>, hs2: seq<Byte>)
    requires p + |st1| + |st2| <= |buf|
    ensures Written(Written(buf, p, st1, hs1), p + |st1|, st2, hs2) == Written(buf, p, st1 + st2, hs1 + hs2)
  {
    var mid := Written(buf, p, st1, hs1);
    assert mid[..p + |st1|] == buf[..p] + st1;
    assert mid[p + |st1| + |st2|..] == buf[p + |st1| + |st2|..] + hs1;
  }

  lemma {:induction false} BlankAfter(buf: seq<Byte>, p: nat, st: seq<Byte>, hs: seq<Byte>, n: nat)
    requires Blank(buf, p, |st| + n)
    ensures Blank(Written(buf, p, st, hs), p + |st|, n)
  {
  }

  lemma {:induction false} WrittenNothing(buf: seq<Byte>, p: nat)
    requires p <= |buf|
    ensures Written(buf, p, [], []) == buf
  {
  }

  lemma {:induction false} UnitWritten(buf: seq<Byte>, n: nat, st: seq<Byte>, hs: seq<Byte>)
    requires |st| == n
    ensures Written(buf + Zeros(n), |buf|, st, hs) == buf + (st + hs)
  {
    assert (buf + Zeros(n))[..|buf|] == buf;
    assert (buf + Zeros(n))[|buf| + n..] == [];
  }

  lemma {:induction false} AppendHeap(buf: seq<Byte>, p: nat, st: seq<Byte>, hs: seq<Byte>)
    requires p + |st| <= |buf|
    ensures Written(buf, p, st, []) + hs == Written(buf, p, st, hs)
  {
  }

  lemma {:induction false} NoneWritten(buf: seq<Byte>, p: nat, n: nat)
    requires Blank(buf, p, 1 + n)
    ensures Written(buf, p, [0], []) == Written(buf, p, [0] + Zeros(n), [])
  {
    assert buf[p + 1..p + 1 + n] == Zeros(n);
    assert buf[p + 1..] == buf[p + 1..p + 1 + n] + buf[p + 1 + n..];
  }

  lemma {:induction false} JoinThree(a: seq<Byte>, b: seq<Byte>, c: seq<Byte>)
    ensures a + (b + c) == (a + b) + c
  {
  }

  class WireWriter {
    var buf: seq<Byte>
    var stackPos: nat

    /** A buffer whose stack section is all zeros. */
    constructor (stackSize: nat)
      ensures buf == Zeros(stackSize) && stackPos == 0
    {
      buf := Zeros(stackSize);
      stackPos := 0;
    }

    method PutStack(bytes: seq<Byte>)
      requires stackPos + |bytes| <= |buf|
      modifies this
      ensures buf == Written(old(buf), old(stackPos), bytes, []) && stackPos == old(stackPos) + |bytes|
    {
      var end := stackPos + |bytes|;
      buf := buf[..stackPos] + bytes + buf[end..];
      stackPos := end;
    }

    method PutHeap(bytes: seq<Byte>)
      requires stackPos <= |buf|
      modifies this`buf
      ensures buf == Written(old(buf), stackPos, [], bytes)
    {
      buf := buf + bytes;
    }

    method PutLenSlot(len: nat) returns (r: Result<()>)
      requires stackPos + 4 <= |buf|
      modifies this
      ensures r == if len < U32_LIMIT then Ok(()) else Err(LengthOverflow(len))
      ensures r.Ok? ==> buf == Written(old(buf), old(stackPos), LE(4, len), []) && stackPos == old(stackPos) + 4
    {
      if len >= U32_LIMIT {
        return Err(LengthOverflow(len));
      }
      PutStack(LE(4, len));
      r := Ok(());
    }

    /** Opens a unit of `n` zeroed stack slots at the end of the buffer; returns the cursor to restore. */
    method OpenUnit(n: nat) returns (saved: nat)
      modifies this
      ensures saved == old(stackPos) && stackPos == |old(buf)| && buf == old(buf) + Zeros(n)
    {
      saved := stackPos;
      stackPos := |buf|;
      buf := buf + Zeros(n);
    }

    /** `write_stack`: fills the slots of `v` at the stack cursor and appends its heap payloads. */
    method Write(env: Env, s: Schema, v: Value) returns (r: Result<()>)
      requires Typed(env, s, v) && Blank(buf, stackPos, StackSize(s))
      modifies this
      ensures r.Ok? <==> Fits(env, s, v)
      ensures r.Ok? ==> buf == Written(old(buf), old(stackPos), Stack(env, s, v), Heap(env, s, v))
      ensures r.Ok? ==> stackPos == old(stackPos) + StackSize(s)
      decreases v, 2
    {
      match s
      case Leaf(k) =>
        PutStack(LE(LeafWidth(k), LeafToNat(k, v.i)));
        r := Ok(());
      case Str =>
        r := WriteStr(env, v);
      case Vec(e) =>
        r := WriteVec(env, e, v.vs);
      case Opt(e) =>
        r := WriteOpt(env, e, v);
      case Arr(n, e) =>
        StackSumRep(n, e);
        r := WriteAll(env, Rep(n, e), v.vs);
      case Struct(fs) =>
        r := WriteAll(env, fs, v.vs);
      case Enum(k) =>
        r := WriteEnum(env, k, v);
    }

    method WriteStr(env: Env, v: Value) returns (r: Result<()>)
      requires Typed(env, Str, v) && stackPos + 4 <= |buf|
      modifies this
      ensures r.Ok? <==> Fits(env, Str, v)
      ensures r.Ok? ==> buf == Written(old(buf), old(stackPos), Stack(env, Str, v), Heap(env, Str, v))
      ensures r.Ok? ==> stackPos == old(stackPos) + 4
    {
      hide LE, ValidUtf8;
      r := PutLenSlot(|v.bytes|);
      if r.Ok? {
        PutHeap(v.bytes);
        WrittenTwice(old(buf), old(stackPos), LE(4, |v.bytes|), [], [], v.bytes);
      }
    }

    method WriteOpt(env: Env, e: Schema, v: Value) returns (r: Result<()>)
      requires Typed(env, Opt(e), v) && Blank(buf, stackPos, 1 + StackSize(e))
      modifies this
      ensures r.Ok? <==> Fits(env, Opt(e), v)
      ensures r.Ok? ==> buf == Written(old(buf), old(stackPos), Stack(env, Opt(e), v), Heap(env, Opt(e), v))
      ensures r.Ok? ==> stackPos == old(stackPos) + 1 + StackSize(e)
      decreases v, 1
    {
      hide Written;
      if v.VNone? {
        PutStack([0]);
        stackPos := stackPos + StackSize(e);
        NoneWritten(old(buf), old(stackPos), StackSize(e));
        r := Ok(());
      } else {
        BlankAfter(buf, stackPos, [1], [], StackSize(e));
        PutStack([1]);
        r := Write(env, e, v.v);
        WrittenTwice(old(buf), old(stackPos), [1], [], Stack(env, e, v.v), Heap(env, e, v.v));
        assert [] + Heap(env, e, v.v) == Heap(env, e, v.v);
      }
    }

    /** Members one after the other: struct fields, array elements, the fields of a variant. */
    method WriteAll(env: Env, ss: List<Schema>, vs: List<Value>) returns (r: Result<()>)
      requires TypedAll(env, ss, vs) && Blank(buf, stackPos, StackSum(ss))
      modifies this
      ensures r.Ok? <==> FitsAll(env, ss, vs)
      ensures r.Ok? ==> buf == Written(old(buf), old(stackPos), StackAll(env, ss, vs), HeapAll(env, ss, vs))
      ensures r.Ok? ==> stackPos == old(stackPos) + StackSum(ss)
      decreases vs, 1
    {
      hide Written, Typed, Fits, Stack, Heap, StackSize;
      var todo, rest := ss, vs;
      while rest.Cons?
        invariant TypedAll(env, todo, rest) && (rest == vs || rest < vs)
        invariant Blank(buf, stackPos, StackSum(todo))
        invariant FitsAll(env, ss, vs) <==> FitsAll(env, todo, rest)
        invariant Written(buf, stackPos, StackAll(env, todo, rest), HeapAll(env, todo, rest))
               == Written(old(buf), old(stackPos), StackAll(env, ss, vs), HeapAll(env, ss, vs))
        invariant stackPos + StackSum(todo) == old(stackPos) + StackSum(ss)
        decreases rest
      {
        ghost var before, p := buf, stackPos;
        r := Write(env, todo.head, rest.head);
        if r.Err? {
          return;
        }
        WrittenTwice(before, p, Stack(env, todo.head, rest.head), Heap(env, todo.head, rest.head),
                     StackAll(env, todo.tail, rest.tail), HeapAll(env, todo.tail, rest.tail));
        BlankAfter(before, p, Stack(env, todo.head, rest.head), Heap(env, todo.head, rest.head), StackSum(todo.tail));
        todo, rest := todo.tail, rest.tail;
      }
      WrittenNothing(buf, stackPos);
      r := Ok(());
    }

    /** The members `vs` as one self-contained `[stack][heap]` unit at the end of the buffer. */
    method WriteUnit(env: Env, ss: List<Schema>, vs: List<Value>) returns (r: Result<()>)
      requires TypedAll(env, ss, vs)
      modifies this
      ensures r.Ok? <==> FitsAll(env, ss, vs)
      ensures r.Ok? ==> buf == old(buf) + (StackAll(env, ss, vs) + HeapAll(env, ss, vs)) && stackPos == old(stackPos)
      decreases vs, 2
    {
      var saved := OpenUnit(StackSum(ss));
      r := WriteAll(env, ss, vs);
      stackPos := saved;
      UnitWritten(old(buf), StackSum(ss), StackAll(env, ss, vs), HeapAll(env, ss, vs));
    }

    method WriteVec(env: Env, e: Schema, vs: List<Value>) returns (r: Result<()>)
      requires TypedAll(env, Rep(Len(vs), e), vs) && Blank(buf, stackPos, 4)
      modifies this
      ensures r.Ok? <==> Fits(env, Vec(e), VList(vs))
      ensures r.Ok? ==> buf == Written(old(buf), old(stackPos), Stack(env, Vec(e), VList(vs)), Heap(env, Vec(e), VList(vs)))
      ensures r.Ok? ==> stackPos == old(stackPos) + 4
      decreases vs, 3
    {
      hide Written, LE, StackAll, HeapAll, Units, TypedAll, FitsAll;
      var size := HeapSize(env, Vec(e), VList(vs));
      r := PutLenSlot(size);
      if r.Err? {
        return;
      }
      if Fixed(e) {
        StackSumRep(Len(vs), e);
        FixedAllRep(Len(vs), e);
        FixedUnits(env, Rep(Len(vs), e), vs);
        r := WriteUnit(env, Rep(Len(vs), e), vs);
      } else {
        r := WriteUnits(env, e, vs);
      }
      if r.Ok? {
        AppendHeap(old(buf), old(stackPos), LE(4, size), Units(env, Rep(Len(vs), e), vs));
      }
    }

    /** Each element as a unit of its own (`put_unit`). */
    method WriteUnits(env: Env, e: Schema, vs: List<Value>) returns (r: Result<()>)
      requires TypedAll(env, Rep(Len(vs), e), vs)
      modifies this
      ensures r.Ok? <==> FitsAll(env, Rep(Len(vs), e), vs)
      ensures r.Ok? ==> buf == old(buf) + Units(env, Rep(Len(vs), e), vs) && stackPos == old(stackPos)
      decreases vs, 1
    {
      hide Written, Typed, Fits, Stack, Heap, StackSize;
      var rest := vs;
      while rest.Cons?
        invariant TypedAll(env, Rep(Len(rest), e), rest) && (rest == vs || rest < vs)
        invariant FitsAll(env, Rep(Len(vs), e), vs) <==> FitsAll(env, Rep(Len(rest), e), rest)
        invariant buf + Units(env, Rep(Len(rest), e), rest) == old(buf) + Units(env, Rep(Len(vs), e), vs)
        invariant stackPos == old(stackPos)
        decreases rest
      {
        ghost var before := buf;
        var saved := OpenUnit(StackSize(e));
        r := Write(env, e, rest.head);
        if r.Err? {
          return;
        }
        stackPos := saved;
        UnitWritten(before, StackSize(e), Stack(env, e, rest.head), Heap(env, e, rest.head));
        JoinThree(before, Stack(env, e, rest.head) + Heap(env, e, rest.head), Units(env, Rep(Len(rest.tail), e), rest.tail));
        rest := rest.tail;
      }
      r := Ok(());
    }

    method WriteEnum(env: Env, k: nat, v: Value) returns (r: Result<()>)
      requires Typed(env, Enum(k), v) && Blank(buf, stackPos, 5)
      modifies this
      ensures r.Ok? <==> Fits(env, Enum(k), v)
      ensures r.Ok? ==> buf == Written(old(buf), old(stackPos), Stack(env, Enum(k), v), Heap(env, Enum(k), v))
      ensures r.Ok? ==> stackPos == old(stackPos) + 5
      decreases v, 1
    {
      hide Written, LE, StackAll, HeapAll, TypedAll, FitsAll;
      var ss := env[k][v.tag];
      var size := HeapSize(env, Enum(k), v);
      PutStack([v.tag]);
      r := PutLenSlot(size);
      if r.Err? {
        return;
      }
      WrittenTwice(old(buf), old(stackPos), [v.tag], [], LE(4, size), []);
      r := WriteUnit(env, ss, v.vs);
      if r.Ok? {
        AppendHeap(old(buf), old(stackPos), [v.tag] + LE(4, size), Heap(env, Enum(k), v));
      }
    }
  }

  /** `to_wire`: fails exactly when a region does not fit, and otherwise yields the encoding. */
  method ToWire(env: Env, s: Schema, v: Value) returns (r: Result<seq<Byte>>)
    requires Typed(env, s, v)
    ensures r.Ok? <==> Fits(env, s, v)
    ensures r.Ok? ==> r.value == Encoding(env, s, v) && |r.value| == StackSize(s) + HeapSize(env, s, v)
  {
    var w := new WireWriter(StackSize(s));
    var written := w.Write(env, s, v);
    if written.Err? {
      return Err(written.error);
    }
    assert Zeros(StackSize(s)) == [] + Zeros(StackSize(s));
    UnitWritten([], StackSize(s), Stack(env, s, v), Heap(env, s, v));
    EncodingLength(env, s, v);
    r := Ok(w.buf);
  }

  // ----- Reader -----

  /** `xs` pushed one by one in front of what is read next. */
  function Prepend<T>(xs: seq<T>, rest: List<T>): List<T> {
    if xs == [] then rest else Cons(xs[0], Prepend(xs[1..], rest))
  }

  lemma {:induction false} PrependPushed<T>(xs: seq<T>, x: T, rest: List<T>)
    ensures Prepend(xs + [x], rest) == Prepend(xs, Cons(x, rest))
  {
    if xs != [] {
      PrependPushed(xs[1..], x, rest);
      assert (xs + [x])[1..] == xs[1..] + [x];
    }
  }

  function Pushed(out: seq<Value>, r: Result<(List<Value>, nat)>): Result<(List<Value>, nat)> {
    if r.Err? then r else Ok((Prepend(out, r.value.0), r.value.1))
  }

  function PushedUnits(out: seq<Value>, r: Result<List<Value>>): Result<List<Value>> {
    if r.Err? then r else Ok(Prepend(out, r.value))
  }

  class WireReader {
    const buf: seq<Byte>
    var stackPos: nat
    var heapPos: nat

    constructor (region: seq<Byte>, sp: nat, hp: nat)
      ensures buf == region && stackPos == sp && heapPos == hp
    {
      buf := region;
      stackPos := sp;
      heapPos := hp;
    }

    method TakeStack(n: nat) returns (r: Result<seq<Byte>>)
      modifies this`stackPos
      ensures stackPos == old(stackPos) + (if r.Ok? then n else 0)
      ensures r == if old(stackPos) + n <= |buf| then Ok(buf[old(stackPos)..old(stackPos) + n])
                   else Err(UnexpectedEnd(n, old(stackPos), |buf|))
    {
      var end := stackPos + n;
      if end > |buf| {
        return Err(UnexpectedEnd(n, stackPos, |buf|));
      }
      r := Ok(buf[stackPos..end]);
      stackPos := end;
    }

    method TakeHeap(n: nat) returns (r: Result<seq<Byte>>)
      modifies this`heapPos
      ensures heapPos == old(heapPos) + (if r.Ok? then n else 0)
      ensures r == if old(heapPos) + n <= |buf| then Ok(buf[old(heapPos)..old(heapPos) + n])
                   else Err(UnexpectedEnd(n, old(heapPos), |buf|))
    {
      var end := heapPos + n;
      if end > |buf| {
        return Err(UnexpectedEnd(n, heapPos, |buf|));
      }
      r := Ok(buf[heapPos..end]);
      heapPos := end;
    }

    method TakeLenSlotRegion() returns (r: Result<seq<Byte>>)
      requires stackPos + 4 <= heapPos <= |buf|
      modifies this
      ensures r == TakeRegion(buf, old(stackPos), old(heapPos)) && stackPos == old(stackPos) + 4
      ensures r.Ok? ==> heapPos == old(heapPos) + |r.value|
    {
      var slot := TakeStack(4);
      r := TakeHeap(FromLE(slot.value));
    }

    /**
     `T::read`. The stack cursor never meets the end of the buffer, because `for_unit` and
     `read_unit` set the heap cursor behind the whole stack section of the unit.
     */
    method ReadValue(env: Env, s: Schema) returns (r: Result<Value>)
      requires stackPos + StackSize(s) <= heapPos <= |buf|
      modifies this
      ensures var spec := Read(env, false, s, buf, old(stackPos), old(heapPos));
              if r.Ok? then spec == Ok((r.value, heapPos)) && stackPos == old(stackPos) + StackSize(s)
              else spec == Err(r.error)
      decreases |buf|, Weight(s), 1
    {
      match s
      case Leaf(k) =>
        var slot := TakeStack(LeafWidth(k));
        var i :- ReadLeaf(k, FromLE(slot.value));
        r := Ok(VInt(i));
      case Str =>
        var region :- TakeLenSlotRegion();
        r := if ValidUtf8(region) then Ok(VStr(region)) else Err(InvalidUtf8);
      case Vec(e) =>
        var region :- TakeLenSlotRegion();
        var vs :- ReadVecRegion(env, e, region);
        r := Ok(VList(vs));
      case Opt(e) =>
        r := ReadOption(env, e);
      case Arr(n, e) =>
        StackSumRep(n, e);
        WeightAllRep(n, e);
        var vs :- ReadMembers(env, Rep(n, e));
        r := Ok(VList(vs));
      case Struct(fs) =>
        var vs :- ReadMembers(env, fs);
        r := Ok(VList(vs));
      case Enum(k) =>
        r := ReadEnum(env, k);
    }

    method ReadOption(env: Env, e: Schema) returns (r: Result<Value>)
      requires stackPos + 1 + StackSize(e) <= heapPos <= |buf|
      modifies this
      ensures var spec := Read(env, false, Opt(e), buf, old(stackPos), old(heapPos));
              if r.Ok? then spec == Ok((r.value, heapPos)) && stackPos == old(stackPos) + 1 + StackSize(e) else spec == Err(r.error)
      decreases |buf|, Weight(e), 2
    {
      var slot := TakeStack(1);
      var flag := slot.value[0];
      if flag == 0 {
        NoneStep(env, false, e, buf, old(stackPos), old(heapPos));
        var _ := TakeStack(StackSize(e));
        r := Ok(VNone);
      } else if flag == 1 {
        SomeStep(env, false, e, buf, old(stackPos), old(heapPos));
        var v :- ReadValue(env, e);
        r := Ok(VSome(v));
      } else {
        r := Err(InvalidBool(flag));
      }
    }

    method ReadEnum(env: Env, k: nat) returns (r: Result<Value>)
      requires stackPos + 5 <= heapPos <= |buf|
      modifies this
      ensures var spec := Read(env, false, Enum(k), buf, old(stackPos), old(heapPos));
              if r.Ok? then spec == Ok((r.value, heapPos)) && stackPos == old(stackPos) + 5 else spec == Err(r.error)
      decreases |buf|, 0, 0
    {
      var slot := TakeStack(1);
      var tag := slot.value[0];
      var region :- TakeLenSlotRegion();
      if !HasVariant(env, k, tag) {
        return Err(InvalidTag(tag));
      }
      EnumStep(env, false, k, buf, old(stackPos), old(heapPos), region);
      var ss := env[k][tag];
      if StackSum(ss) > |region| {
        return Err(UnexpectedEnd(StackSum(ss), 0, |region|));
      }
      var sub := new WireReader(region, 0, StackSum(ss));
      var vs :- sub.ReadMembers(env, ss);
      if sub.heapPos != |region| {
        return Err(RegionMismatch(sub.heapPos, |region|));
      }
      r := Ok(VEnum(tag, vs));
    }

    method ReadMembers(env: Env, ss: List<Schema>) returns (r: Result<List<Value>>)
      requires stackPos + StackSum(ss) <= heapPos <= |buf|
      modifies this
      ensures var spec := ReadAll(env, false, ss, buf, old(stackPos), old(heapPos));
              if r.Ok? then spec == Ok((r.value, heapPos)) && stackPos == old(stackPos) + StackSum(ss)
              else spec == Err(r.error)
      decreases |buf|, WeightAll(ss), 0
    {
      hide Read, StackSize, Weight;
      var todo, out := ss, [];
      while todo.Cons?
        invariant stackPos + StackSum(todo) <= heapPos <= |buf| && WeightAll(todo) <= WeightAll(ss)
        invariant stackPos + StackSum(todo) == old(stackPos) + StackSum(ss)
        invariant ReadAll(env, false, ss, buf, old(stackPos), old(heapPos))
               == Pushed(out, ReadAll(env, false, todo, buf, stackPos, heapPos))
        decreases todo
      {
        AllStep(env, false, todo, buf, stackPos, heapPos);
        var v :- ReadValue(env, todo.head);
        var rest := ReadAll(env, false, todo.tail, buf, stackPos, heapPos);
        if rest.Ok? {
          PrependPushed(out, v, rest.value.0);
        }
        todo, out := todo.tail, out + [v];
      }
      r := Ok(Prepend(out, Nil));
    }
  }

  method ReadVecRegion(env: Env, e: Schema, region: seq<Byte>) returns (r: Result<List<Value>>)
    ensures r == ReadElems(env, false, e, region)
    decreases |region| + 1, 0, 1
  {
    if Fixed(e) {
      var size := StackSize(e);
      if size == 0 || |region| % size != 0 {
        return Err(RegionMismatch(if size == 0 then 0 else |region| % size, |region|));
      }
      var count := |region| / size;
      StackSumRep(count, e);
      WholeQuotient(|region|, size);
      var sub := new WireReader(region, 0, |region|);
      r := sub.ReadMembers(env, Rep(count, e));
    } else {
      r := ReadUnitRegion(env, e, region);
    }
  }

  method ReadUnitRegion(env: Env, e: Schema, region: seq<Byte>) returns (r: Result<List<Value>>)
    ensures r == ReadUnits(env, false, e, region, 0)
    decreases |region|, Weight(e) + 1, 1
  {
    hide Read;
    var out, offset := [], 0;
    while offset < |region|
      invariant offset <= |region|
      invariant ReadUnits(env, false, e, region, 0) == PushedUnits(out, ReadUnits(env, false, e, region, offset))
    {
      if offset + StackSize(e) > |region| {
        return Err(UnexpectedEnd(StackSize(e), offset, |region|));
      }
      var sub := new WireReader(region, offset, offset + StackSize(e));
      var v :- sub.ReadValue(env, e);
      var next := sub.heapPos;
      if next == offset {
        return Err(Stalls);
      }
      var rest := ReadUnits(env, false, e, region, next);
      if rest.Ok? {
        PrependPushed(out, v, rest.value);
      }
      out, offset := out + [v], next;
    }
    r := PushedUnits(out, Ok(Nil));
  }

  /** `from_wire` */
  method FromWire(env: Env, s: Schema, bytes: seq<Byte>) returns (r: Result<Value>)
    ensures r == Decode(env, false, s, bytes)
  {
    if StackSize(s) > |bytes| {
      return Err(UnexpectedEnd(StackSize(s), 0, |bytes|));
    }
    var reader := new WireReader(bytes, 0, StackSize(s));
    var v :- reader.ReadValue(env, s);
    if reader.heapPos != |bytes| {
      return Err(TrailingBytes(reader.heapPos, |bytes|));
    }
    r := Ok(v);
  }

  /** Writing and reading back: the whole path of the original, over the mutable cursors. */
  method ThereAndBack(env: Env, s: Schema, v: Value) returns (bytes: Result<seq<Byte>>, back: Result<Value>)
    requires Typed(env, s, v)
    ensures bytes.Ok? <==> Fits(env, s, v)
    ensures bytes.Ok? ==> (back == Ok(v) <==> Slotted(env, s, v))
  {
    bytes := ToWire(env, s, v);
    back := Err(Stalls);
    if bytes.Ok? {
      RoundTrip(env, false, s, v);
      back := FromWire(env, s, bytes.value);
    }
  }
}
