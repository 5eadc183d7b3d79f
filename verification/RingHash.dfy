/** FNV-1a placement of virtual nodes on the ring. */
module RingHash {
  import opened Bytes
  import opened Words
  import Ring

  const FNV_OFFSET: U64 := 0xcbf2_9ce4_8422_2325
  const FNV_PRIME: U64 := 0x100_0000_01b3
  /** The prime is odd, so it has an inverse modulo 2^64. */
  const FNV_INVERSE: U64 := 0xce96_5057_aff6_957b

  function Mix(h: U64, b: Byte): U64 {
    Mul(Xor64(h, b), FNV_PRIME)
  }

  function Fold(h: U64, bytes: seq<Byte>): U64 {
    if bytes == [] then h else Mix(Fold(h, bytes[..|bytes| - 1]), bytes[|bytes| - 1])
  }

  /** Position of virtual node `vn` of a node. */
  function RingHash(node: nat, vn: nat): U64 {
    Fold(Fold(FNV_OFFSET, LE(8, node)), LE(4, vn))
  }

  /** Key of a partition on the ring. */
  function PartitionHash(tenant: nat, shard: nat): U64 {
    Fold(Fold(FNV_OFFSET, LE(8, tenant)), LE(2, shard))
  }

  method ComputeRingHash(node: nat, vn: nat) returns (h: U64)
    ensures h == RingHash(node, vn)
  {
    hide LE;
    h := MixAll(FNV_OFFSET, LE(8, node));
    h := MixAll(h, LE(4, vn));
  }

  method ComputePartitionHash(tenant: nat, shard: nat) returns (h: U64)
    ensures h == PartitionHash(tenant, shard)
  {
    hide LE;
    h := MixAll(FNV_OFFSET, LE(8, tenant));
    h := MixAll(h, LE(2, shard));
  }

  /** Each byte in turn is xored in and the hash multiplied. */
  method MixAll(start: U64, bytes: seq<Byte>) returns (h: U64)
    ensures h == Fold(start, bytes)
  {
    h := start;
    var i := 0;
    while i < |bytes|
      invariant i <= |bytes| && h == Fold(start, bytes[..i])
    {
      assert bytes[..i + 1][..i] == bytes[..i];
      h := Mul(Xor64(h, bytes[i]), FNV_PRIME);
      i := i + 1;
    }
    assert bytes[..i] == bytes;
  }

  lemma {:induction false} MixInjective(g: U64, b: Byte, h: U64, c: Byte)
    requires Mix(g, b) == Mix(h, c)
    ensures Xor(g, b) == Xor(h, c)
  {
    hide Mul, Xor;
    assert FNV_PRIME * FNV_INVERSE % WORD == 1;
    MulUndo(Xor64(g, b), FNV_PRIME, FNV_INVERSE);
    MulUndo(Xor64(h, c), FNV_PRIME, FNV_INVERSE);
  }

  /** Equal bytes keep different hashes apart. */
  lemma {:induction false} FoldInjective(g: U64, h: U64, bytes: seq<Byte>)
    requires Fold(g, bytes) == Fold(h, bytes)
    ensures g == h
  {
    if bytes != [] {
      hide Mix, Xor;
      var init, b := bytes[..|bytes| - 1], bytes[|bytes| - 1];
      var x, y := Fold(g, init), Fold(h, init);
      MixInjective(x, b, y, b);
      XorUndo(x, b);
      XorUndo(y, b);
      FoldInjective(g, h, init);
    }
  }

  /** The first byte alone tells virtual nodes below 256 apart. */
  lemma {:induction false} FirstByteDecides(h: U64, b: Byte, c: Byte, rest: seq<Byte>)
    requires Fold(h, [b] + rest) == Fold(h, [c] + rest)
    ensures b == c
  {
    hide Mix, Xor;
    FoldFront(h, b, rest);
    FoldFront(h, c, rest);
    FoldInjective(Mix(h, b), Mix(h, c), rest);
    MixInjective(h, b, h, c);
    XorSym(h, b);
    XorSym(h, c);
    XorUndo(b, h);
    XorUndo(c, h);
  }

  lemma {:induction false} FoldFront(h: U64, b: Byte, rest: seq<Byte>)
    ensures Fold(h, [b] + rest) == Fold(Mix(h, b), rest)
  {
    hide Mix;
    if rest == [] {
      assert [b] + rest == [b] && [b][..0] == [];
      assert Fold(h, []) == h;
    } else {
      FoldFront(h, b, rest[..|rest| - 1]);
      assert ([b] + rest)[..|rest|] == [b] + rest[..|rest| - 1];
    }
  }

  lemma {:induction false} FoldConcat(h: U64, a: seq<Byte>, b: seq<Byte>)
    ensures Fold(h, a + b) == Fold(Fold(h, a), b)
    decreases |b|
  {
    hide Mix;
    if b == [] {
      assert a + b == a;
    } else {
      FoldConcat(h, a, b[..|b| - 1]);
      assert (a + b)[..|a + b| - 1] == a + b[..|b| - 1];
    }
  }

  /** Every byte counts: byte strings that differ in a single place have different hashes. */
  lemma {:induction false} EveryByteCounts(a: seq<Byte>, b: seq<Byte>, i: nat)
    requires DifferAt(a, b, i)
    ensures Fold(FNV_OFFSET, a) != Fold(FNV_OFFSET, b)
  {
    hide Fold, Mix, Xor;
    assert a == a[..i] + ([a[i]] + a[i + 1..]) && b == b[..i] + ([b[i]] + b[i + 1..]);
    FoldConcat(FNV_OFFSET, a[..i], [a[i]] + a[i + 1..]);
    FoldConcat(FNV_OFFSET, b[..i], [b[i]] + b[i + 1..]);
    if Fold(FNV_OFFSET, a) == Fold(FNV_OFFSET, b) {
      FirstByteDecides(Fold(FNV_OFFSET, a[..i]), a[i], b[i], a[i + 1..]);
    }
  }

  /** Nodes, virtual nodes, tenants or shards that differ in a single byte have different positions and keys. */
  lemma {:induction false} HashesTellApart(x: nat, y: nat, x': nat, y': nat, i: nat)
    ensures DifferAt(LE(8, x) + LE(4, y), LE(8, x') + LE(4, y'), i) ==> RingHash(x, y) != RingHash(x', y')
    ensures DifferAt(LE(8, x) + LE(2, y), LE(8, x') + LE(2, y'), i) ==> PartitionHash(x, y) != PartitionHash(x', y')
  {
    hide LE, Fold;
    FoldConcat(FNV_OFFSET, LE(8, x), LE(4, y));
    FoldConcat(FNV_OFFSET, LE(8, x'), LE(4, y'));
    FoldConcat(FNV_OFFSET, LE(8, x), LE(2, y));
    FoldConcat(FNV_OFFSET, LE(8, x'), LE(2, y'));
    if DifferAt(LE(8, x) + LE(4, y), LE(8, x') + LE(4, y'), i) {
      EveryByteCounts(LE(8, x) + LE(4, y), LE(8, x') + LE(4, y'), i);
    }
    if DifferAt(LE(8, x) + LE(2, y), LE(8, x') + LE(2, y'), i) {
      EveryByteCounts(LE(8, x) + LE(2, y), LE(8, x') + LE(2, y'), i);
    }
  }

  /** The only difference is at place `i`. */
  predicate DifferAt(a: seq<Byte>, b: seq<Byte>, i: nat) {
    |a| == |b| && i < |a| && a[i] != b[i] && a[..i] == b[..i] && a[i + 1..] == b[i + 1..]
  }

  /** The virtual nodes of one node stand at different positions. */
  lemma {:induction false} OwnPositionsDistinct(node: nat, i: nat, j: nat)
    requires i < Ring.VIRTUAL_NODES && j < Ring.VIRTUAL_NODES && i != j
    ensures RingHash(node, i) != RingHash(node, j)
  {
    hide Mix, Xor, Fold;
    var h := Fold(FNV_OFFSET, LE(8, node));
    var rest := LE(3, 0);
    assert LE(4, i) == [i] + rest && LE(4, j) == [j] + rest;
    if RingHash(node, i) == RingHash(node, j) {
      FirstByteDecides(h, i, j, rest);
    }
  }

  lemma {:induction false} XorBit(a: nat, b: nat, x: nat)
    requires Xor(a / 2, b / 2) == x
    ensures Xor(a, b) == 2 * x + Bit(a % 2 != b % 2)
  {
    XorHalves(a, b);
  }

  /** The published value for the one letter "a". */
  lemma {:induction false} FnvOfLetterA()
    ensures Fold(FNV_OFFSET, [0x61]) == 0xaf63_dc4c_8601_ec8c
  {
    hide Xor, Pow2;
    XorSame(0);
    XorBit(0, 1, 0);
    XorBit(1, 3, 1);
    XorBit(2, 6, 2);
    XorBit(4, 12, 4);
    XorBit(9, 24, 8);
    XorBit(18, 48, 17);
    XorBit(37, 97, 34);
    var high := 0xcb_f29c_e484_2223;
    Pow2Of8();
    XorSplit(high, 0, 37, 97, 8);
    XorZero(high);
    assert Xor64(FNV_OFFSET, 0x61) == 256 * high + 68;
    assert [0x61][..0] == [];
    assert Fold(FNV_OFFSET, []) == FNV_OFFSET;
    assert Mul(256 * high + 68, FNV_PRIME) == 0xaf63_dc4c_8601_ec8c;
  }
}
