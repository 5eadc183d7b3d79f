/** Page routing: the 64-bit mixer, reduction to a page index, and the double-hash probe. */
module Hash {
  import opened Words
  import opened Lists

  const GOLDEN: U64 := 0x9E37_79B9_7F4A_7C15
  const MUL1: U64 := 0xbf58_476d_1ce4_e5b9
  const MUL2: U64 := 0x94d0_49bb_1331_11eb
  const INV1: U64 := 0x96de_1b17_3f11_9089
  const INV2: U64 := 0x3196_42b2_d24d_8ec3

  /** `z ^ (z >> n)` */
  function XorShift(z: U64, n: nat): U64 {
    ShrBelow(z, n);
    Xor64(z, Shr(z, n))
  }

  function Mix64(x: U64): U64 {
    var z := XorShift(Xor64(x, GOLDEN), 30);
    var y := XorShift(Mul(z, MUL1), 27);
    XorShift(Mul(y, MUL2), 31)
  }

  // ----- The mixer is a bijection -----

  /** The word that `XorShift` by `n` takes to `y`. */
  function UnShift(y: U64, n: nat): (r: U64)
    requires n > 0
    decreases y
  {
    ShrBelow(y, n);
    if y == 0 then 0 else Xor64(y, UnShift(Shr(y, n), n))
  }

  lemma {:induction false} ShrZero(n: nat)
    ensures Shr(0, n) == 0
  {
    if n > 0 {
      ShrZero(n - 1);
    }
  }

  lemma {:induction false} UnShiftStep(y: U64, n: nat)
    requires n > 0
    ensures Shr(y, n) < WORD && UnShift(y, n) == Xor(y, UnShift(Shr(y, n), n))
  {
    ShrBelow(y, n);
    if y == 0 {
      ShrZero(n);
    }
  }

  lemma {:induction false} ShiftThenUn(x: U64, n: nat)
    requires n > 0
    ensures UnShift(XorShift(x, n), n) == x
    decreases x
  {
    ShrBelow(x, n);
    var y, top := XorShift(x, n), Shr(x, n);
    if x == 0 {
      ShrZero(n);
    } else {
      ShiftThenUn(top, n);
      XorShr(x, top, n);
      UnShiftStep(y, n);
      XorUndo(x, top);
    }
  }

  lemma {:induction false} UnThenShift(y: U64, n: nat)
    requires n > 0
    ensures XorShift(UnShift(y, n), n) == y
    decreases y
  {
    ShrBelow(y, n);
    if y == 0 {
      ShrZero(n);
    } else {
      var v := UnShift(Shr(y, n), n);
      UnThenShift(Shr(y, n), n);
      XorShr(y, v, n);
      XorSym(v, Shr(v, n));
      ShrBelow(v, n);
      XorUndo(v, Shr(v, n));
      XorUndo(y, v);
    }
  }

  function Unmix64(y: U64): U64 {
    var z := UnShift(Mul(UnShift(y, 31), INV2), 27);
    Xor64(UnShift(Mul(z, INV1), 30), GOLDEN)
  }

  /** The mixer and `Unmix64` undo each other. */
  lemma {:induction false} MixIsBijection(x: U64)
    ensures Unmix64(Mix64(x)) == x && Mix64(Unmix64(x)) == x
  {
    hide XorShift, UnShift, Mul, Xor;
    Inverses();
    MixUndone(x);
    UnmixUndone(x);
  }

  lemma {:induction false} Inverses()
    ensures MUL1 * INV1 % WORD == 1 && MUL2 * INV2 % WORD == 1
    ensures INV1 * MUL1 % WORD == 1 && INV2 * MUL2 % WORD == 1
  {
  }

  lemma {:induction false} MixUndone(x: U64)
    ensures Unmix64(Mix64(x)) == x
  {
    hide XorShift, UnShift, Mul, Xor;
    Inverses();
    var a := Xor64(x, GOLDEN);
    var z := XorShift(a, 30);
    var y := XorShift(Mul(z, MUL1), 27);
    ShiftThenUn(Mul(y, MUL2), 31);
    MulUndo(y, MUL2, INV2);
    ShiftThenUn(Mul(z, MUL1), 27);
    MulUndo(z, MUL1, INV1);
    ShiftThenUn(a, 30);
    XorUndo(x, GOLDEN);
  }

  lemma {:induction false} UnmixUndone(y: U64)
    ensures Mix64(Unmix64(y)) == y
  {
    hide XorShift, UnShift, Mul, Xor;
    Inverses();
    var b := UnShift(y, 31);
    var z := UnShift(Mul(b, INV2), 27);
    var a := UnShift(Mul(z, INV1), 30);
    XorUndo(a, GOLDEN);
    UnThenShift(Mul(z, INV1), 30);
    MulUndo(z, INV1, MUL1);
    UnThenShift(Mul(b, INV2), 27);
    MulUndo(b, INV2, MUL2);
    UnThenShift(y, 31);
  }

  /** Only the golden constant mixes to zero; in particular the zero key does not. */
  lemma {:induction false} OnlyGoldenIsZero(x: U64)
    ensures Mix64(x) == 0 <==> x == GOLDEN
  {
    hide Unmix64, Mix64;
    MixIsBijection(x);
    GoldenIsZero();
    MixIsBijection(GOLDEN);
  }

  lemma {:induction false} GoldenIsZero()
    ensures Mix64(GOLDEN) == 0
  {
    XorSame(GOLDEN);
    ShrZero(30);
    ShrZero(27);
    ShrZero(31);
    assert XorShift(0, 30) == 0 && XorShift(0, 27) == 0 && XorShift(0, 31) == 0;
    assert Mul(0, MUL1) == 0 && Mul(0, MUL2) == 0;
  }

  // ----- Reduction -----

  predicate IsPowerOfTwo(n: nat) {
    n == 1 || (n > 0 && n % 2 == 0 && IsPowerOfTwo(n / 2))
  }

  /** A page index: a mask for powers of two, else the remainder. */
  function Reduce(h: U64, pages: nat): nat {
    if pages == 0 then 0
    else if IsPowerOfTwo(pages) then And(h, pages - 1)
    else h % pages
  }

  /** Masking is the remainder. */
  lemma {:induction false} MaskIsRemainder(h: nat, n: nat)
    requires IsPowerOfTwo(n)
    ensures And(h, n - 1) == h % n
    decreases n
  {
    if n > 1 {
      var m := n / 2;
      MaskIsRemainder(h / 2, m);
      assert (n - 1) / 2 == m - 1 && (n - 1) % 2 == 1;
      HalfRemainder(h, m);
      if h == 0 {
        assert h % n == 0;
      }
    }
  }

  lemma {:induction false} HalfRemainder(h: nat, m: nat)
    requires m > 0
    ensures h % (2 * m) == 2 * (h / 2 % m) + h % 2
  {
    var q, r := h / 2 / m, h / 2 % m;
    assert h / 2 == m * q + r;
    assert h == (2 * m) * q + (2 * r + h % 2) by { assert 2 * (m * q) == (2 * m) * q; }
    RemainderIs(2 * m, q, 2 * r + h % 2);
  }

  lemma {:induction false} RemainderIs(n: nat, q: int, r: nat)
    requires r < n && n * q + r >= 0
    ensures (n * q + r) % n == r
  {
    var x := n * q + r;
    var p := x / n;
    assert x == n * p + x % n;
    if q > p {
      Scale(n, p + 1, q);
    } else if q < p {
      Scale(n, q + 1, p);
    }
  }

  lemma {:induction false} Scale(n: nat, a: int, b: int)
    requires a <= b
    ensures n * a <= n * b && n * a == n * (a - 1) + n && n * b == n * a + n * (b - a)
  {
    assert n * (b - a) >= 0;
  }

  /** For every page count but zero the index is the remainder, so it is in range. */
  lemma {:induction false} ReduceIsRemainder(h: U64, pages: nat)
    ensures Reduce(h, pages) == if pages == 0 then 0 else h % pages
  {
    if pages > 0 && IsPowerOfTwo(pages) {
      MaskIsRemainder(h, pages);
    }
  }

  // ----- The probe -----

  /** `x` is a multiple of `n`. */
  ghost predicate Divides(n: int, x: int) {
    exists k: int :: x == n * k
  }

  function Or1(x: nat): nat {
    if x % 2 == 1 then x else x + 1
  }

  const STEP_MUL: U64 := 0xc6a4_a793_5bd1_e995

  function StepKey(structId: nat, tenant: U64, shard: nat): U64
    requires structId < 0x1_0000_0000 && shard < 0x1_0000
  {
    Xor64(Xor64(Mul(tenant, STEP_MUL), structId), shard * 0x1_0000_0000)
  }

  /** Step of the probe: always odd. */
  function DoubleHashStep(structId: nat, tenant: U64, shard: nat, pages: nat): (step: nat)
    requires structId < 0x1_0000_0000 && shard < 0x1_0000
    ensures step % 2 == 1
  {
    if pages <= 1 then 1 else OddStep(Mix64(StepKey(structId, tenant, shard)), pages)
  }

  function OddStep(mixed: U64, pages: nat): (step: nat)
    requires pages > 1
    ensures step % 2 == 1
  {
    Or1(mixed % pages)
  }

  /** Page looked at on try `i`. */
  function Probe(start: nat, step: nat, i: nat, pages: nat): nat
    requires pages > 0
  {
    (start + i * step) % pages
  }

  /** Every page is looked at exactly once in `pages` tries. */
  ghost predicate VisitsAllOnce(start: nat, step: nat, pages: nat)
    requires pages > 0
  {
    forall page: nat :: page < pages ==> VisitedOnce(start, step, pages, page)
  }

  ghost predicate VisitedOnce(start: nat, step: nat, pages: nat, page: nat)
    requires pages > 0
  {
    exists i: nat :: i < pages && Probe(start, step, i, pages) == page
                  && forall j: nat :: j < pages && Probe(start, step, j, pages) == page ==> j == i
  }

  ghost predicate Coprime(a: nat, n: nat) {
    forall d: nat :: d > 1 ==> !(Divides(d, a) && Divides(d, n))
  }

  /** A step can be cancelled: tries that meet the same page are a multiple of the page count apart. */
  ghost predicate Cancels(step: nat, n: nat) {
    forall d: int :: Divides(n, d * step) ==> Divides(n, d)
  }

  lemma {:induction false} EqualRemainders(x: int, y: int, n: nat)
    requires n > 0 && x % n == y % n
    ensures Divides(n, x - y)
  {
    var a, b := x / n, y / n;
    assert x == n * a + x % n && y == n * b + y % n;
    assert n * (a - b) == n * a - n * b;
    assert x - y == n * (a - b);
  }

  lemma {:induction false} SmallMultiple(n: nat, d: int)
    requires n > 0 && d < n && d + n > 0 && Divides(n, d)
    ensures d == 0
  {
    var k: int :| d == n * k;
    if k > 0 {
      Scale(n, 1, k);
    } else if k < 0 {
      Scale(n, k, -1);
    }
  }

  /** Different tries below the page count look at different pages. */
  lemma {:induction false} ProbeInjective(start: nat, step: nat, n: nat, i: nat, j: nat)
    requires n > 0 && Cancels(step, n) && i < n && j < n
    requires Probe(start, step, i, n) == Probe(start, step, j, n)
    ensures i == j
  {
    EqualRemainders(start + i * step, start + j * step, n);
    assert (start + i * step) - (start + j * step) == (i - j) * step;
    SmallMultiple(n, i - j);
  }

  function Visited(start: nat, step: nat, n: nat, tries: nat): (s: set<nat>)
    requires n > 0
    ensures forall page <- s :: page < n
  {
    if tries == 0 then {} else Visited(start, step, n, tries - 1) + {Probe(start, step, tries - 1, n)}
  }

  lemma {:induction false} VisitedHas(start: nat, step: nat, n: nat, tries: nat, page: nat)
    requires n > 0
    ensures page in Visited(start, step, n, tries) <==> exists i: nat :: i < tries && Probe(start, step, i, n) == page
  {
    if tries > 0 {
      VisitedHas(start, step, n, tries - 1, page);
    }
  }

  lemma {:induction false} VisitedCount(start: nat, step: nat, n: nat, tries: nat)
    requires n > 0 && Cancels(step, n) && tries <= n
    ensures |Visited(start, step, n, tries)| == tries
  {
    hide Cancels, Probe;
    if tries > 0 {
      VisitedCount(start, step, n, tries - 1);
      var page := Probe(start, step, tries - 1, n);
      VisitedHas(start, step, n, tries - 1, page);
      if page in Visited(start, step, n, tries - 1) {
        var i: nat :| i < tries - 1 && Probe(start, step, i, n) == page;
        ProbeInjective(start, step, n, i, tries - 1);
      }
    }
  }

  function Below(n: nat): (s: set<nat>)
    ensures |s| == n && forall x: nat :: x in s <==> x < n
  {
    if n == 0 then {} else Below(n - 1) + {n - 1}
  }

  lemma {:induction false} SubsetOfSameSize(a: set<nat>, b: set<nat>)
    requires a <= b && |a| == |b|
    ensures a == b
  {
    if a != b {
      var x :| x in b && x !in a;
      assert a + {x} <= b;
      SubsetCount(a + {x}, b);
    }
  }

  lemma {:induction false} CancellingVisitsAll(start: nat, step: nat, n: nat)
    requires n > 0 && Cancels(step, n)
    ensures VisitsAllOnce(start, step, n)
  {
    hide Cancels, Probe;
    VisitedCount(start, step, n, n);
    var seen := Visited(start, step, n, n);
    assert seen <= Below(n);
    SubsetOfSameSize(seen, Below(n));
    forall page: nat | page < n ensures VisitedOnce(start, step, n, page) {
      assert page in seen;
      VisitedHas(start, step, n, n, page);
      var i: nat :| i < n && Probe(start, step, i, n) == page;
      forall j: nat | j < n && Probe(start, step, j, n) == page ensures j == i {
        ProbeInjective(start, step, n, i, j);
      }
    }
  }

  // ----- Powers of two -----

  lemma {:induction false} OddCancels(step: nat, n: nat)
    requires step % 2 == 1 && IsPowerOfTwo(n)
    ensures Cancels(step, n)
  {
    forall d: int | Divides(n, d * step) ensures Divides(n, d) {
      OddDivides(step, n, d);
    }
  }

  lemma {:induction false} OddDivides(step: nat, n: nat, d: int)
    requires step % 2 == 1 && IsPowerOfTwo(n) && Divides(n, d * step)
    ensures Divides(n, d)
    decreases n
  {
    if n == 1 {
      assert d == 1 * d;
    } else {
      var k: int :| d * step == n * k;
      var m := n / 2;
      assert d * step == 2 * (m * k);
      EvenFactor(d, step, m * k);
      var e := d / 2;
      assert d == 2 * e;
      assert 2 * (e * step) == d * step;
      assert e * step == m * k;
      OddDivides(step, m, e);
      var q: int :| e == m * q;
      assert d == n * q;
    }
  }

  lemma {:induction false} EvenFactor(d: int, step: nat, z: int)
    requires step % 2 == 1 && d * step == 2 * z
    ensures d % 2 == 0
  {
    var h := step / 2;
    assert step == 2 * h + 1;
    assert d * step == 2 * (d * h) + d;
  }

  /** For every power-of-two page count the probe looks at every page exactly once. */
  lemma {:induction false} ProbeIsPermutation(start: nat, structId: nat, tenant: U64, shard: nat, pages: nat)
    requires structId < 0x1_0000_0000 && shard < 0x1_0000 && IsPowerOfTwo(pages)
    ensures VisitsAllOnce(start, DoubleHashStep(structId, tenant, shard, pages), pages)
  {
    hide DoubleHashStep, Cancels, VisitsAllOnce;
    var step := DoubleHashStep(structId, tenant, shard, pages);
    OddCancels(step, pages);
    CancellingVisitsAll(start, step, pages);
  }

  // ----- Other page counts -----

  /** Bezout: the greatest common divisor is a combination of the two numbers. */
  lemma {:induction false} Bezout(a: nat, b: nat) returns (g: nat, x: int, y: int)
    ensures g == a * x + b * y && Divides(g, a) && Divides(g, b) && (a > 0 || b > 0 ==> g > 0)
    decreases b
  {
    if b == 0 {
      g, x, y := a, 1, 0;
      assert a == g * 1 && 0 == g * 0;
    } else {
      var q, r := a / b, a % b;
      assert a == b * q + r;
      var u, v;
      g, u, v := Bezout(b, r);
      x, y := v, u - q * v;
      Combine(a, b, q, r, u, v);
      var i: int :| b == g * i;
      var j: int :| r == g * j;
      Factor(g, i, q, j);
      assert a == g * (i * q + j);
    }
  }

  lemma {:induction false} Combine(a: int, b: int, q: int, r: int, u: int, v: int)
    requires a == b * q + r
    ensures b * u + r * v == a * v + b * (u - q * v)
  {
    assert a * v == (b * q) * v + r * v;
    assert b * (u - q * v) == b * u - b * (q * v);
    assert (b * q) * v == b * (q * v);
  }

  lemma {:induction false} Factor(g: int, i: int, q: int, j: int)
    ensures (g * i) * q + g * j == g * (i * q + j)
  {
    assert (g * i) * q == g * (i * q);
  }

  lemma {:induction false} CoprimeCancels(step: nat, n: nat)
    requires n > 0 && Coprime(step, n)
    ensures Cancels(step, n)
  {
    var g, x, y := Bezout(step, n);
    assert g == 1;
    forall d: int | Divides(n, d * step) ensures Divides(n, d) {
      var k: int :| d * step == n * k;
      CancelWith(d, step, x, n, y, k);
      assert d == n * (k * x + d * y);
    }
  }

  lemma {:induction false} CancelWith(d: int, a: int, x: int, n: int, y: int, k: int)
    requires a * x + n * y == 1 && d * a == n * k
    ensures d == n * (k * x + d * y)
  {
    assert d == d * (a * x + n * y);
    assert d * (a * x + n * y) == d * (a * x) + d * (n * y);
    assert d * (a * x) == (d * a) * x;
    assert (n * k) * x == n * (k * x);
    assert d * (n * y) == n * (d * y);
    assert n * (k * x + d * y) == n * (k * x) + n * (d * y);
  }

  /** A divisor common to step and page count keeps the page after the first from ever being looked at. */
  lemma {:induction false} CommonDivisorSkips(start: nat, step: nat, n: nat, d: nat, i: nat)
    requires n > 0 && d > 1 && Divides(d, step) && Divides(d, n)
    ensures Probe(start, step, i, n) != (start + 1) % n
  {
    if Probe(start, step, i, n) == (start + 1) % n {
      EqualRemainders(start + i * step, start + 1, n);
      var k: int :| (start + i * step) - (start + 1) == n * k;
      var a: int :| step == d * a;
      var b: int :| n == d * b;
      OneIsMultiple(i * step, i, a, b, d, k) by { assert i * step == i * (d * a); }
      SmallMultiple(d, 1);
    }
  }

  lemma {:induction false} OneIsMultiple(x: int, i: int, a: int, b: int, d: int, k: int)
    requires x == i * (d * a) && x - 1 == (d * b) * k
    ensures Divides(d, 1)
  {
    assert i * (d * a) == d * (i * a);
    assert (d * b) * k == d * (b * k);
    assert d * (i * a - b * k) == d * (i * a) - d * (b * k);
    assert 1 == d * (i * a - b * k);
  }

  /** For any page count: every page is looked at exactly once if and only if step and page count are coprime. */
  lemma {:induction false} ProbeVisitsAllIffCoprime(start: nat, step: nat, n: nat)
    requires n > 0
    ensures VisitsAllOnce(start, step, n) <==> Coprime(step, n)
  {
    if Coprime(step, n) {
      CoprimeCancels(step, n);
      CancellingVisitsAll(start, step, n);
    } else {
      var d: nat :| d > 1 && Divides(d, step) && Divides(d, n);
      var page := (start + 1) % n;
      forall i: nat ensures Probe(start, step, i, n) != page {
        CommonDivisorSkips(start, step, n, d, i);
      }
      assert !VisitedOnce(start, step, n, page);
    }
  }
}
