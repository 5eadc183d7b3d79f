/** Byte strings: little-endian numbers and substrings at a position. */
module Bytes {

  type Byte = b: nat | b < 256

  const U32_LIMIT: nat := 0x1_0000_0000

  /** No allocation is this large. */
  const ALLOCATION_LIMIT: nat := 0x8000_0000_0000_0000

  /** 256 to the power `w`: the number of values that fit `w` bytes. */
  function Pow256(w: nat): (r: nat)
    ensures r >= 1
  {
    if w == 0 then 1 else 256 * Pow256(w - 1)
  }

  /** The low `w` bytes of `n`, least significant first (`to_le_bytes`). */
  function LE(w: nat, n: nat): (r: seq<Byte>)
    ensures |r| == w
  {
    if w == 0 then [] else [n % 256] + LE(w - 1, n / 256)
  }

  /** The number that `bs` spells, least significant byte first (`from_le_bytes`). */
  function FromLE(bs: seq<Byte>): (r: nat)
    ensures r < Pow256(|bs|)
  {
    if bs == [] then 0 else bs[0] + 256 * FromLE(bs[1..])
  }

  /** Byte `i` is the digit of 256 to the power `i`. */
  lemma {:induction false} LEDigit(w: nat, n: nat, i: nat)
    requires i < w
    ensures LE(w, n)[i] == n / Pow256(i) % 256
    decreases i
  {
    if i > 0 {
      LEDigit(w - 1, n / 256, i - 1);
      DivideTwice(n, Pow256(i - 1));
    }
  }

  lemma {:induction false} DivideTwice(n: nat, d: nat)
    requires d > 0
    ensures n / 256 / d == n / (256 * d)
  {
    var q, r := n / 256 / d, n / 256 % d;
    assert n / 256 == d * q + r;
    var low := 256 * r + n % 256;
    assert n == (256 * d) * q + low by { assert 256 * (d * q) == (256 * d) * q; }
    assert low < 256 * d;
    QuotientIs(n, 256 * d, q, low);
  }

  lemma {:induction false} QuotientIs(n: nat, d: nat, q: nat, r: nat)
    requires n == d * q + r && r < d
    ensures n / d == q
  {
    var p := n / d;
    assert n == d * p + n % d && d * p + d == d * (p + 1) && d * q + d == d * (q + 1);
    if p < q {
      Grows(d, p + 1, q);
    } else if p > q {
      Grows(d, q + 1, p);
    }
  }

  lemma {:induction false} Grows(d: nat, a: nat, b: nat)
    requires a <= b
    ensures d * a <= d * b
  {
    assert d * b == d * a + d * (b - a);
  }

  lemma {:induction false} FromLEOfLE(w: nat, n: nat)
    requires n < Pow256(w)
    ensures FromLE(LE(w, n)) == n
  {
    if w > 0 {
      FromLEOfLE(w - 1, n / 256);
      assert LE(w, n)[1..] == LE(w - 1, n / 256);
    }
  }

  lemma {:induction false} LEOfFromLE(bs: seq<Byte>)
    ensures LE(|bs|, FromLE(bs)) == bs
  {
    if bs != [] {
      LEOfFromLE(bs[1..]);
      assert bs == [bs[0]] + bs[1..];
      assert FromLE(bs) / 256 == FromLE(bs[1..]);
    }
  }

  lemma {:induction false} Pow256Of4()
    ensures Pow256(4) == U32_LIMIT
  {
    assert Pow256(1) == 256 * Pow256(0);
    assert Pow256(2) == 256 * Pow256(1);
    assert Pow256(3) == 256 * Pow256(2);
  }

  lemma {:induction false} Pow256Of8()
    ensures Pow256(8) == 0x1_0000_0000_0000_0000
  {
    Pow256Of4();
    assert Pow256(5) == 256 * Pow256(4);
    assert Pow256(6) == 256 * Pow256(5);
    assert Pow256(7) == 256 * Pow256(6);
  }

  /** `n` zero bytes. */
  function Zeros(n: nat): (r: seq<Byte>)
    ensures |r| == n && forall i :: 0 <= i < n ==> r[i] == 0
  {
    seq(n, i => 0)
  }

  /** `bs` stands in `buf` at position `p`. */
  predicate At(buf: seq<Byte>, p: nat, bs: seq<Byte>) {
    p + |bs| <= |buf| && buf[p..p + |bs|] == bs
  }

  lemma {:induction false} EmptyAt(buf: seq<Byte>, p: nat)
    requires p <= |buf|
    ensures At(buf, p, [])
  {
  }

  lemma {:induction false} AtConcat(buf: seq<Byte>, p: nat, a: seq<Byte>, b: seq<Byte>)
    ensures At(buf, p, a + b) <==> At(buf, p, a) && At(buf, p + |a|, b)
  {
    if p + |a| + |b| <= |buf| {
      var whole := buf[p..p + |a| + |b|];
      assert whole[..|a|] == buf[p..p + |a|];
      assert whole[|a|..] == buf[p + |a|..p + |a| + |b|];
      assert whole == whole[..|a|] + whole[|a|..];
      assert (a + b)[..|a|] == a && (a + b)[|a|..] == b;
    }
  }

  /** `buf` with `bs` copied over what stands at `p` (`copy_from_slice`). */
  function Patch(buf: seq<Byte>, p: nat, bs: seq<Byte>): (r: seq<Byte>)
    requires p + |bs| <= |buf|
    ensures |r| == |buf|
  {
    buf[..p] + bs + buf[p + |bs|..]
  }

  lemma {:induction false} PatchedAt(buf: seq<Byte>, p: nat, bs: seq<Byte>)
    requires p + |bs| <= |buf|
    ensures At(Patch(buf, p, bs), p, bs)
  {
  }

  /** A patch leaves what stands beside it. */
  lemma {:induction false} PatchBeside(buf: seq<Byte>, p: nat, bs: seq<Byte>, q: nat, cs: seq<Byte>)
    requires p + |bs| <= |buf| && At(buf, q, cs) && (q + |cs| <= p || p + |bs| <= q)
    ensures At(Patch(buf, p, bs), q, cs)
  {
    var r := Patch(buf, p, bs);
    assert forall i :: q <= i < q + |cs| ==> r[i] == buf[i];
    assert r[q..q + |cs|] == buf[q..q + |cs|];
  }

  lemma {:induction false} AtExtended(buf: seq<Byte>, more: seq<Byte>, q: nat, cs: seq<Byte>)
    requires At(buf, q, cs)
    ensures At(buf + more, q, cs)
  {
    assert (buf + more)[q..q + |cs|] == buf[q..q + |cs|];
  }
}
