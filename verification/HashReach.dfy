/** Which probe steps occur for keys that a record id can carry, and what that means for grown page tables. */
module HashReach {
  import opened Words
  import opened Hash
  import opened Ids

  const STEP_INV: U64 := 0x5f7a_0ea7_e59b_19bd

  // ----- Every key is reached -----

  // Two tenants whose keys are just short of, and just past, a multiple of 2^64.
  const SHORT: nat := 12931534938508
  const SHORT_BY: nat := 0x14d84
  const SHORT_WRAPS: nat := 10034223626339
  const PAST: nat := 207856627806195
  const PAST_BY: nat := 0xd36f
  const PAST_WRAPS: nat := 161286335732138

  lemma {:induction false} NearMultiples()
    ensures SHORT * STEP_MUL + SHORT_BY == WORD * SHORT_WRAPS
    ensures PAST * STEP_MUL == WORD * PAST_WRAPS + PAST_BY
  {
  }

  /** Going down by those two tenants keeps the key within a window above `base`. */
  lemma {:induction false} Descend(t: nat, base: nat, y: nat, k: int) returns (tenant: nat, rest: nat, wraps: int)
    requires y < SHORT_BY + PAST_BY && t * STEP_MUL == WORD * k + base + y
    ensures tenant < PAST && rest < SHORT_BY + PAST_BY && tenant * STEP_MUL == WORD * wraps + base + rest
    decreases t
  {
    NearMultiples();
    if t < PAST {
      tenant, rest, wraps := t, y, k;
    } else if y < PAST_BY {
      tenant, rest, wraps := Descend(t - SHORT, base, y + SHORT_BY, k - SHORT_WRAPS);
    } else {
      tenant, rest, wraps := Descend(t - PAST, base, y - PAST_BY, k - PAST_WRAPS);
    }
  }

  /** The parts an id can carry. */
  predicate RecordKey(structId: nat, tenant: nat, shard: nat) {
    structId < STRUCTS && tenant < TENANTS && shard < SHARDS
  }

  lemma {:induction false} TenantNear(base: nat) returns (tenant: nat, rest: nat)
    requires base + STRUCTS <= WORD
    ensures tenant < TENANTS && rest < STRUCTS && Mul(tenant, STEP_MUL) == base + rest
  {
    var t := Mul(base, STEP_INV);
    assert STEP_INV * STEP_MUL % WORD == 1;
    MulUndo(base, STEP_INV, STEP_MUL);
    var wraps;
    tenant, rest, wraps := Descend(t, base, 0, t * STEP_MUL / WORD);
    ModUnique(base + rest, wraps);
  }

  lemma {:induction false} Pow2Of20()
    ensures Pow2(20) == STRUCTS
  {
    hide Pow2;
    Pow2Of8();
    Pow2Sum(8, 8);
    Pow2Of4();
    Pow2Sum(16, 4);
  }

  lemma {:induction false} Pow2Of4()
    ensures Pow2(4) == 16
  {
    assert Pow2(2) == 4;
  }

  /** Words that agree above their low 20 bits differ by a struct id. */
  lemma {:induction false} NearWordsDiffer(top: nat, a: nat, b: nat)
    requires a < STRUCTS && b < STRUCTS
    ensures Xor(STRUCTS * top + a, STRUCTS * top + b) < STRUCTS
  {
    hide Xor, Pow2;
    Pow2Of20();
    XorSplit(top, top, a, b, 20);
    XorSame(top);
    XorBelow(a, b, 20);
  }

  /** Every 64-bit word is the key of some struct and tenant of an id, in shard zero. */
  lemma {:induction false} EveryKeyReached(key: U64) returns (structId: nat, tenant: nat)
    ensures RecordKey(structId, tenant, 0) && StepKey(structId, tenant, 0) == key
  {
    hide Mul, Xor;
    var top, low := key / STRUCTS, key % STRUCTS;
    var rest;
    tenant, rest := TenantNear(STRUCTS * top);
    var m := Mul(tenant, STEP_MUL);
    structId := Xor(m, key);
    NearWordsDiffer(top, rest, low);
    XorSym(m, structId);
    XorSym(m, key);
    XorUndo(key, m);
    XorZero(key);
  }

  /** Whatever `m` below the page count, some record's key mixes to it. */
  lemma {:induction false} EveryStepReached(m: nat, pages: nat) returns (structId: nat, tenant: nat)
    requires 1 < pages <= WORD && m < pages
    ensures RecordKey(structId, tenant, 0) && Mix64(StepKey(structId, tenant, 0)) % pages == m
    ensures DoubleHashStep(structId, tenant, 0, pages) == Or1(m)
  {
    hide Mix64, Unmix64, StepKey;
    structId, tenant := EveryKeyReached(Unmix64(m));
    MixIsBijection(m);
  }

  /** For one tenant, struct and shard are all in the key: different ones have different keys. */
  lemma {:induction false} KeyTellsStructAndShard(tenant: U64, structId: nat, shard: nat, structId': nat, shard': nat)
    requires structId < 0x1_0000_0000 && shard < 0x1_0000 && structId' < 0x1_0000_0000 && shard' < 0x1_0000
    ensures StepKey(structId, tenant, shard) == StepKey(structId', tenant, shard') <==> structId == structId' && shard == shard'
  {
    hide Mul, Xor;
    KeyUndone(tenant, structId, shard);
    KeyUndone(tenant, structId', shard');
  }

  lemma {:induction false} KeyUndone(tenant: U64, structId: nat, shard: nat)
    requires structId < 0x1_0000_0000 && shard < 0x1_0000
    ensures Xor(StepKey(structId, tenant, shard), Mul(tenant, STEP_MUL)) == shard * 0x1_0000_0000 + structId
  {
    hide Mul, Xor;
    var m, high := Mul(tenant, STEP_MUL), shard * 0x1_0000_0000;
    ApartAdds(structId, shard);
    hide *;
    XorAssoc(m, structId, high);
    XorSym(m, Xor(structId, high));
    XorUndo(Xor(structId, high), m);
  }

  /** Numbers with no bit in common: exclusive or adds. */
  lemma {:induction false} ApartAdds(low: nat, high: nat)
    requires low < 0x1_0000_0000
    ensures Xor(low, high * 0x1_0000_0000) == high * 0x1_0000_0000 + low
  {
    hide Xor, Pow2;
    Pow2Of8();
    Pow2Sum(8, 8);
    Pow2Sum(16, 16);
    XorSplit(0, high, low, 0, 32);
    XorZero(low);
    XorZero(high);
    XorSym(0, high);
  }

  // ----- The probe -----

  /** Whatever the record, its probe looks at every page exactly once. */
  ghost predicate ProbeCovers(pages: nat)
    requires pages > 0
  {
    forall start: nat, structId: nat, tenant: nat, shard: nat :: RecordKey(structId, tenant, shard) ==>
      VisitsAllOnce(start, DoubleHashStep(structId, tenant, shard, pages), pages)
  }

  lemma {:induction false} OddDivisor(n: nat) returns (d: nat)
    requires n > 0 && !IsPowerOfTwo(n)
    ensures 1 < d <= n && d % 2 == 1 && Divides(d, n)
  {
    if n % 2 == 1 {
      d := n;
      assert n == d * 1;
    } else {
      d := OddDivisor(n / 2);
      var k: int :| n / 2 == d * k;
      assert n == d * (2 * k);
    }
  }

  /** The probe covers the table for every record if and only if the page count is a power of two. */
  lemma {:induction false} ProbeCoversIffPowerOfTwo(pages: nat)
    requires 0 < pages <= WORD
    ensures ProbeCovers(pages) <==> IsPowerOfTwo(pages)
  {
    hide VisitsAllOnce, DoubleHashStep;
    if IsPowerOfTwo(pages) {
      forall start: nat, structId: nat, tenant: nat, shard: nat | RecordKey(structId, tenant, shard)
        ensures VisitsAllOnce(start, DoubleHashStep(structId, tenant, shard, pages), pages)
      {
        ProbeIsPermutation(start, structId, tenant, shard, pages);
      }
    } else {
      var d := OddDivisor(pages);
      var structId, tenant := EveryStepReached(if d < pages then d else pages - 1, pages);
      assert Divides(d, d) by { assert d == d * 1; }
      var step := DoubleHashStep(structId, tenant, 0, pages);
      ProbeVisitsAllIffCoprime(0, step, pages);
    }
  }

  // ----- The fallback page -----

  /** The one other page that is tried when the primary page is full. */
  function FallbackIndex(primary: nat, structId: nat, tenant: U64, shard: nat, pages: nat): nat
    requires structId < 0x1_0000_0000 && shard < 0x1_0000
  {
    (primary + DoubleHashStep(structId, tenant, shard, pages)) % (if pages > 1 then pages else 1)
  }

  /** The fallback is another page, unless there is but one, or their count is odd and the key mixes to the last. */
  lemma {:induction false} FallbackDiffers(primary: nat, structId: nat, tenant: U64, shard: nat, pages: nat)
    requires structId < 0x1_0000_0000 && shard < 0x1_0000
    requires primary < (if pages > 1 then pages else 1)
    ensures FallbackIndex(primary, structId, tenant, shard, pages) != primary
       <==> pages > 1 && !(pages % 2 == 1 && Mix64(StepKey(structId, tenant, shard)) % pages == pages - 1)
  {
    hide Mix64, StepKey;
    if pages > 1 {
      var step := DoubleHashStep(structId, tenant, shard, pages);
      assert 0 < step <= pages;
      if primary + step < pages {
        RemainderIs(pages, 0, primary + step);
      } else {
        RemainderIs(pages, 1, primary + step - pages);
      }
    }
  }

  /** Whatever the record, a full page leaves it another one. */
  ghost predicate FallbackHelps(pages: nat) {
    forall primary: nat, structId: nat, tenant: nat, shard: nat ::
      RecordKey(structId, tenant, shard) && primary < (if pages > 1 then pages else 1) ==>
        FallbackIndex(primary, structId, tenant, shard, pages) != primary
  }

  /** That is so if and only if the page count is even and not zero. */
  lemma {:induction false} FallbackHelpsIffEven(pages: nat)
    requires pages < WORD
    ensures FallbackHelps(pages) <==> pages > 0 && pages % 2 == 0
  {
    hide FallbackIndex, Mix64, StepKey;
    if pages > 0 && pages % 2 == 0 {
      forall primary: nat, structId: nat, tenant: nat, shard: nat | RecordKey(structId, tenant, shard) && primary < pages
        ensures FallbackIndex(primary, structId, tenant, shard, pages) != primary
      {
        FallbackDiffers(primary, structId, tenant, shard, pages);
      }
    } else {
      var structId, tenant := 0, 0;
      if pages > 1 {
        structId, tenant := EveryStepReached(pages - 1, pages);
      }
      FallbackDiffers(0, structId, tenant, 0, pages);
      assert RecordKey(structId, tenant, 0);
    }
  }

  // ----- Growth -----

  /** Page count after a rebalance with the default factor 1.75, rounded up. */
  function Grown(pages: nat): (r: nat)
    ensures r > pages && 4 * r >= 7 * pages && (r == pages + 1 || 4 * (r - 1) < 7 * pages)
  {
    var more := (7 * pages + 3) / 4;
    if more > pages then more else pages + 1
  }

  /** From 256 pages, one growth breaks the probe for some record, and the fourth leaves some record no fallback. */
  lemma {:induction false} GrownTablesMiss()
    ensures !ProbeCovers(Grown(256)) && !FallbackHelps(Grown(Grown(Grown(Grown(256)))))
  {
    hide ProbeCovers, FallbackHelps;
    assert Grown(256) == 448 && Grown(448) == 784 && Grown(784) == 1372 && Grown(1372) == 2401;
    assert !IsPowerOfTwo(448) by { assert !IsPowerOfTwo(7) && !IsPowerOfTwo(14) && !IsPowerOfTwo(28); }
    ProbeCoversIffPowerOfTwo(448);
    FallbackHelpsIffEven(2401);
  }
}
