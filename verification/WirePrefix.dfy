/** The decoder and the end of its input: what is cut off is missed, what is added is refused. */
module WirePrefix {
  import opened Bytes
  import opened Wrappers
  import opened Wire
  import opened WireSteps

  /** The input of `n` bytes ends inside what was asked for. */
  predicate Short(e: WireError, n: nat) {
    e.UnexpectedEnd? && e.len == n && e.offset <= n < e.offset + e.needed
  }

  lemma {:induction false} Sliced(buf: seq<Byte>, n: nat, i: nat, j: nat)
    requires i <= j <= n <= |buf|
    ensures buf[..n][i..j] == buf[i..j]
  {
  }

  lemma {:induction false} RegionCut(buf: seq<Byte>, n: nat, sp: nat, hp: nat)
    requires sp + 4 <= hp <= n <= |buf|
    ensures var r := TakeRegion(buf[..n], sp, hp); r == TakeRegion(buf, sp, hp) || (r.Err? && Short(r.error, n))
  {
    hide FromLE;
    Sliced(buf, n, sp, sp + 4);
    var len := FromLE(buf[sp..sp + 4]);
    if hp + len <= n {
      Sliced(buf, n, hp, hp + len);
    }
  }

  /** On a prefix of its buffer a reader does what it does on the whole, or finds the prefix too short. */
  lemma {:induction false} ReadCut(env: Env, strict: bool, s: Schema, buf: seq<Byte>, n: nat, sp: nat, hp: nat)
    requires sp + StackSize(s) <= hp <= n <= |buf|
    ensures var r := Read(env, strict, s, buf[..n], sp, hp); r == Read(env, strict, s, buf, sp, hp) || (r.Err? && Short(r.error, n))
    decreases Weight(s)
  {
    hide Read, ReadAll, Short;
    match s
    case Leaf(k) => LeafCut(env, strict, k, buf, n, sp, hp);
    case Str => RegionsCut(env, strict, s, buf, n, sp, hp);
    case Vec(e) => RegionsCut(env, strict, s, buf, n, sp, hp);
    case Enum(k) => RegionsCut(env, strict, s, buf, n, sp, hp);
    case Opt(e) =>
      if buf[sp] == 0 {
        Sliced(buf, n, sp + 1, sp + 1 + StackSize(e));
        NoneStep(env, strict, e, buf, sp, hp);
        NoneStep(env, strict, e, buf[..n], sp, hp);
      } else if buf[sp] == 1 {
        ReadCut(env, strict, e, buf, n, sp + 1, hp);
        SomeStep(env, strict, e, buf, sp, hp);
        SomeStep(env, strict, e, buf[..n], sp, hp);
      } else {
        BadFlag(env, strict, e, buf, sp, hp);
        BadFlag(env, strict, e, buf[..n], sp, hp);
      }
    case Arr(k, e) =>
      ArrStep(env, strict, k, e, buf, sp, hp);
      ArrStep(env, strict, k, e, buf[..n], sp, hp);
      WeightAllRep(k, e);
      AllCut(env, strict, Rep(k, e), buf, n, sp, hp);
    case Struct(fs) =>
      StructStep(env, strict, fs, buf, sp, hp);
      StructStep(env, strict, fs, buf[..n], sp, hp);
      AllCut(env, strict, fs, buf, n, sp, hp);
  }

  lemma {:induction false} AllCut(env: Env, strict: bool, ss: List<Schema>, buf: seq<Byte>, n: nat, sp: nat, hp: nat)
    requires sp + StackSum(ss) <= hp <= n <= |buf|
    ensures var r := ReadAll(env, strict, ss, buf[..n], sp, hp); r == ReadAll(env, strict, ss, buf, sp, hp) || (r.Err? && Short(r.error, n))
    decreases WeightAll(ss)
  {
    hide Read, ReadAll, Short;
    if ss.Nil? {
      EmptyRead(env, strict, buf, sp, hp);
      EmptyRead(env, strict, buf[..n], sp, hp);
    } else {
      AllStep(env, strict, ss, buf, sp, hp);
      AllStep(env, strict, ss, buf[..n], sp, hp);
      ReadCut(env, strict, ss.head, buf, n, sp, hp);
      var r := Read(env, strict, ss.head, buf[..n], sp, hp);
      if r.Ok? {
        AllCut(env, strict, ss.tail, buf, n, sp + StackSize(ss.head), r.value.1);
      }
    }
  }

  lemma {:induction false} EmptyRead(env: Env, strict: bool, buf: seq<Byte>, sp: nat, hp: nat)
    requires sp <= hp <= |buf|
    ensures ReadAll(env, strict, Nil, buf, sp, hp) == Ok((Nil, hp))
  {
  }

  lemma {:induction false} LeafCut(env: Env, strict: bool, k: Leaf, buf: seq<Byte>, n: nat, sp: nat, hp: nat)
    requires sp + LeafWidth(k) <= hp <= n <= |buf|
    ensures Read(env, strict, Leaf(k), buf[..n], sp, hp) == Read(env, strict, Leaf(k), buf, sp, hp)
  {
    hide Read, ReadLeaf, FromLE;
    Sliced(buf, n, sp, sp + LeafWidth(k));
    LeafStep(env, strict, k, buf, sp, hp);
    LeafStep(env, strict, k, buf[..n], sp, hp);
  }

  lemma {:induction false} BadFlag(env: Env, strict: bool, e: Schema, buf: seq<Byte>, sp: nat, hp: nat)
    requires sp + 1 + StackSize(e) <= hp <= |buf| && buf[sp] > 1
    ensures Read(env, strict, Opt(e), buf, sp, hp) == Err(InvalidBool(buf[sp]))
  {
  }

  lemma {:induction false} RegionsCut(env: Env, strict: bool, s: Schema, buf: seq<Byte>, n: nat, sp: nat, hp: nat)
    requires s.Str? || s.Vec? || s.Enum?
    requires sp + StackSize(s) <= hp <= n <= |buf|
    ensures var r := Read(env, strict, s, buf[..n], sp, hp); r == Read(env, strict, s, buf, sp, hp) || (r.Err? && Short(r.error, n))
  {
    hide TakeRegion, ReadElems, ReadPayload, ValidUtf8;
    RegionCut(buf, n, if s.Enum? then sp + 1 else sp, hp);
    assert s.Enum? ==> buf[..n][sp] == buf[sp];
  }

  /** Accepted bytes with the end cut off, anywhere: the decoder misses bytes, and says how many it had. */
  lemma {:induction false} CutIsShort(env: Env, strict: bool, s: Schema, bytes: seq<Byte>, n: nat)
    requires Decode(env, strict, s, bytes).Ok? && n < |bytes|
    ensures var r := Decode(env, strict, s, bytes[..n]); r.Err? && Short(r.error, n)
  {
    hide Read, StackSize;
    if StackSize(s) <= n {
      ReadCut(env, strict, s, bytes, n, 0, StackSize(s));
    }
  }

  /** Accepted bytes with more behind them: the decoder says where the value ends. No accepted bytes begin others. */
  lemma {:induction false} MoreIsTrailing(env: Env, strict: bool, s: Schema, bytes: seq<Byte>, more: seq<Byte>)
    requires Decode(env, strict, s, bytes).Ok? && more != []
    ensures Decode(env, strict, s, bytes + more) == Err(TrailingBytes(|bytes|, |bytes| + |more|))
  {
    hide Read, StackSize;
    assert (bytes + more)[..|bytes|] == bytes;
    ReadCut(env, strict, s, bytes + more, |bytes|, 0, StackSize(s));
  }
}
