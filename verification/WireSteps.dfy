/** One unfolding of the reader for each kind of type, for use in proofs that hide its definition. */
module WireSteps {
  import opened Bytes
  import opened Wrappers
  import opened Wire

  lemma {:induction false} LeafStep(env: Env, strict: bool, k: Leaf, buf: seq<Byte>, sp: nat, hp: nat)
    requires sp + LeafWidth(k) <= hp <= |buf|
    ensures Read(env, strict, Leaf(k), buf, sp, hp)
         == var r := ReadLeaf(k, FromLE(buf[sp..sp + LeafWidth(k)]));
            if r.Ok? then Ok((VInt(r.value), hp)) else Err(r.error)
  {
  }

  lemma {:induction false} StrStep(env: Env, strict: bool, buf: seq<Byte>, sp: nat, hp: nat, region: seq<Byte>)
    requires sp + 4 <= hp <= |buf| && TakeRegion(buf, sp, hp) == Ok(region)
    ensures Read(env, strict, Str, buf, sp, hp) == if ValidUtf8(region) then Ok((VStr(region), hp + |region|)) else Err(InvalidUtf8)
  {
  }

  lemma {:induction false} VecStep(env: Env, strict: bool, e: Schema, buf: seq<Byte>, sp: nat, hp: nat, region: seq<Byte>)
    requires sp + 4 <= hp <= |buf| && TakeRegion(buf, sp, hp) == Ok(region)
    ensures Read(env, strict, Vec(e), buf, sp, hp)
         == var r := ReadElems(env, strict, e, region);
            if r.Ok? then Ok((VList(r.value), hp + |region|)) else Err(r.error)
  {
  }

  lemma {:induction false} NoneStep(env: Env, strict: bool, e: Schema, buf: seq<Byte>, sp: nat, hp: nat)
    requires sp + 1 + StackSize(e) <= hp <= |buf| && buf[sp] == 0
    ensures Read(env, strict, Opt(e), buf, sp, hp)
         == if strict && buf[sp + 1..sp + 1 + StackSize(e)] != Zeros(StackSize(e)) then Err(NonZeroPadding) else Ok((VNone, hp))
  {
  }

  lemma {:induction false} SomeStep(env: Env, strict: bool, e: Schema, buf: seq<Byte>, sp: nat, hp: nat)
    requires sp + 1 + StackSize(e) <= hp <= |buf| && buf[sp] == 1
    ensures Read(env, strict, Opt(e), buf, sp, hp)
         == var r := Read(env, strict, e, buf, sp + 1, hp);
            if r.Ok? then Ok((VSome(r.value.0), r.value.1)) else Err(r.error)
  {
  }

  lemma {:induction false} ArrStep(env: Env, strict: bool, n: nat, e: Schema, buf: seq<Byte>, sp: nat, hp: nat)
    requires sp + StackSize(Arr(n, e)) <= hp <= |buf|
    ensures StackSum(Rep(n, e)) == StackSize(Arr(n, e))
    ensures Read(env, strict, Arr(n, e), buf, sp, hp)
         == var r := ReadAll(env, strict, Rep(n, e), buf, sp, hp);
            if r.Ok? then Ok((VList(r.value.0), r.value.1)) else Err(r.error)
  {
    StackSumRep(n, e);
  }

  lemma {:induction false} StructStep(env: Env, strict: bool, fs: List<Schema>, buf: seq<Byte>, sp: nat, hp: nat)
    requires sp + StackSum(fs) <= hp <= |buf|
    ensures Read(env, strict, Struct(fs), buf, sp, hp)
         == var r := ReadAll(env, strict, fs, buf, sp, hp);
            if r.Ok? then Ok((VList(r.value.0), r.value.1)) else Err(r.error)
  {
  }

  lemma {:induction false} EnumStep(env: Env, strict: bool, k: nat, buf: seq<Byte>, sp: nat, hp: nat, region: seq<Byte>)
    requires sp + 5 <= hp <= |buf| && TakeRegion(buf, sp + 1, hp) == Ok(region) && HasVariant(env, k, buf[sp])
    ensures Read(env, strict, Enum(k), buf, sp, hp)
         == var r := ReadPayload(env, strict, env[k][buf[sp]], region);
            if r.Ok? then Ok((VEnum(buf[sp], r.value), hp + |region|)) else Err(r.error)
  {
  }

  lemma {:induction false} RunStep(env: Env, strict: bool, e: Schema, region: seq<Byte>, count: nat)
    requires StackSize(e) > 0 && |region| == Times(count, StackSize(e))
    ensures StackSum(Rep(count, e)) == |region|
    ensures ReadRun(env, strict, e, region)
         == var r := ReadAll(env, strict, Rep(count, e), region, 0, |region|);
            if r.Ok? then Ok(r.value.0) else Err(r.error)
  {
    hide ReadAll;
    StackSumRep(count, e);
    WholeMultiple(count, StackSize(e));
  }

  lemma {:induction false} WholeMultiple(n: nat, d: nat)
    requires d > 0
    ensures Times(n, d) % d == 0 && Times(n, d) / d == n
  {
    if n > 0 {
      WholeMultiple(n - 1, d);
      OneMore(Times(n - 1, d), d);
    }
  }

  lemma {:induction false} OneMore(m: nat, d: nat)
    requires d > 0 && m % d == 0
    ensures (d + m) % d == 0 && (d + m) / d == m / d + 1
  {
    var k := (d + m) / d - m / d - 1;
    assert k * d == -((d + m) % d);
    FarFromZero(k, d);
  }

  lemma {:induction false} FarFromZero(k: int, d: nat)
    ensures k >= 1 ==> k * d >= d
    ensures k <= -1 ==> k * d + d <= 0
  {
  }

  lemma {:induction false} AllStep(env: Env, strict: bool, ss: List<Schema>, buf: seq<Byte>, sp: nat, hp: nat)
    requires ss.Cons? && sp + StackSum(ss) <= hp <= |buf|
    ensures var r := Read(env, strict, ss.head, buf, sp, hp);
            ReadAll(env, strict, ss, buf, sp, hp)
            == if r.Err? then Err(r.error) else
               var rest := ReadAll(env, strict, ss.tail, buf, sp + StackSize(ss.head), r.value.1);
               if rest.Ok? then Ok((Cons(r.value.0, rest.value.0), rest.value.1)) else Err(rest.error)
  {
    hide Read;
  }

  lemma {:induction false} UnitsStep(env: Env, strict: bool, e: Schema, region: seq<Byte>, offset: nat)
    requires StackSize(e) > 0 && offset + StackSize(e) <= |region|
    ensures var r := Read(env, strict, e, region, offset, offset + StackSize(e));
            ReadUnits(env, strict, e, region, offset)
            == if r.Err? then Err(r.error) else
               var rest := ReadUnits(env, strict, e, region, r.value.1);
               if rest.Ok? then Ok(Cons(r.value.0, rest.value)) else Err(rest.error)
  {
    hide Read;
  }
}
