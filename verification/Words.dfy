/** 64-bit words as numbers: exclusive or, shifts, masking and wrapping multiplication. */
module Words {

  const WORD: nat := 0x1_0000_0000_0000_0000

  type U64 = x: nat | x < WORD

  function Pow2(n: nat): (r: nat)
    ensures r >= 1
  {
    if n == 0 then 1 else 2 * Pow2(n - 1)
  }

  lemma {:induction false} Pow2Of64()
    ensures Pow2(64) == WORD
  {
    hide Pow2;
    Pow2Of8();
    Pow2Sum(8, 8);
    Pow2Sum(16, 16);
    Pow2Sum(32, 32);
  }

  lemma {:induction false} Pow2Of8()
    ensures Pow2(8) == 256
  {
    assert Pow2(2) == 4 && Pow2(4) == 4 * Pow2(2) && Pow2(6) == 4 * Pow2(4);
  }

  lemma {:induction false} Pow2Sum(a: nat, b: nat)
    ensures Pow2(a + b) == Pow2(a) * Pow2(b)
  {
    if a > 0 {
      Pow2Sum(a - 1, b);
    }
  }

  function Bit(b: bool): nat {
    if b then 1 else 0
  }

  function Xor(a: nat, b: nat): nat {
    if a == 0 && b == 0 then 0 else 2 * Xor(a / 2, b / 2) + Bit(a % 2 != b % 2)
  }

  function And(a: nat, b: nat): nat {
    if a == 0 || b == 0 then 0 else 2 * And(a / 2, b / 2) + Bit(a % 2 == 1 && b % 2 == 1)
  }

  function Shr(a: nat, n: nat): nat {
    if n == 0 then a else Shr(a / 2, n - 1)
  }

  function Mul(a: U64, b: U64): U64 {
    a * b % WORD
  }

  lemma {:induction false} XorHalves(a: nat, b: nat)
    ensures Xor(a, b) / 2 == Xor(a / 2, b / 2) && Xor(a, b) % 2 == Bit(a % 2 != b % 2)
  {
  }

  lemma {:induction false} XorUndo(a: nat, b: nat)
    ensures Xor(Xor(a, b), b) == a
    decreases a + b
  {
    if a != 0 || b != 0 {
      XorUndo(a / 2, b / 2);
      XorHalves(a, b);
      XorHalves(Xor(a, b), b);
    }
  }

  lemma {:induction false} XorSym(a: nat, b: nat)
    ensures Xor(a, b) == Xor(b, a)
    decreases a + b
  {
    if a != 0 || b != 0 {
      XorSym(a / 2, b / 2);
    }
  }

  lemma {:induction false} XorAssoc(a: nat, b: nat, c: nat)
    ensures Xor(Xor(a, b), c) == Xor(a, Xor(b, c))
    decreases a + b + c
  {
    if a != 0 || b != 0 || c != 0 {
      XorAssoc(a / 2, b / 2, c / 2);
      XorHalves(a, b);
      XorHalves(b, c);
      XorHalves(Xor(a, b), c);
      XorHalves(a, Xor(b, c));
    }
  }

  lemma {:induction false} XorBelow(a: nat, b: nat, n: nat)
    requires a < Pow2(n) && b < Pow2(n)
    ensures Xor(a, b) < Pow2(n)
    decreases n
  {
    if n > 0 {
      XorBelow(a / 2, b / 2, n - 1);
    }
  }

  lemma {:induction false} XorSame(a: nat)
    ensures Xor(a, a) == 0
  {
    if a > 0 {
      XorSame(a / 2);
    }
  }

  lemma {:induction false} XorZero(a: nat)
    ensures Xor(a, 0) == a
  {
    if a > 0 {
      XorZero(a / 2);
    }
  }

  /** Low and high bits go separately. */
  lemma {:induction false} XorSplit(a: nat, b: nat, c: nat, d: nat, n: nat)
    requires c < Pow2(n) && d < Pow2(n)
    ensures Xor(Pow2(n) * a + c, Pow2(n) * b + d) == Pow2(n) * Xor(a, b) + Xor(c, d)
    decreases n
  {
    hide Xor;
    if n == 0 {
      XorSame(0);
    } else {
      var p, z := Pow2(n - 1), Xor(a, b);
      XorSplit(a, b, c / 2, d / 2, n - 1);
      XorHalves(c, d);
      Double(p, a, c);
      Double(p, b, d);
      XorHalves(Pow2(n) * a + c, Pow2(n) * b + d);
      assert Pow2(n) * z == 2 * (p * z);
    }
  }

  lemma {:induction false} Double(p: nat, a: nat, c: nat)
    ensures (2 * p * a + c) / 2 == p * a + c / 2 && (2 * p * a + c) % 2 == c % 2
  {
    assert 2 * p * a == 2 * (p * a);
  }

  function Xor64(a: U64, b: U64): (r: U64)
    ensures r == Xor(a, b)
  {
    Pow2Of64();
    XorBelow(a, b, 64);
    Xor(a, b)
  }

  lemma {:induction false} XorShr(a: nat, b: nat, n: nat)
    ensures Shr(Xor(a, b), n) == Xor(Shr(a, n), Shr(b, n))
    decreases n
  {
    if n > 0 {
      XorHalves(a, b);
      XorShr(a / 2, b / 2, n - 1);
    }
  }

  lemma {:induction false} ShrBelow(a: nat, n: nat)
    ensures Shr(a, n) <= a && (n > 0 && a > 0 ==> Shr(a, n) < a)
    decreases n
  {
    if n > 0 {
      ShrBelow(a / 2, n - 1);
    }
  }

  lemma {:induction false} ModUnique(x: nat, z: int)
    requires x < WORD && x + WORD * z >= 0
    ensures (x + WORD * z) % WORD == x
  {
  }

  /** A multiplier with an inverse modulo 2^64 can be undone. */
  lemma {:induction false} MulUndo(x: U64, p: U64, q: U64)
    requires p * q % WORD == 1
    ensures Mul(Mul(x, p), q) == x
  {
    var t, k := p * q / WORD, x * p / WORD;
    var r := x * p % WORD;
    assert x * p == WORD * k + r;
    assert p * q == WORD * t + 1;
    assert r * q == x + WORD * (x * t - k * q) by {
      assert r * q == (x * p - WORD * k) * q;
      assert (x * p - WORD * k) * q == x * (p * q) - WORD * (k * q) by { Spread(x, p, k, q); }
      assert x * (WORD * t + 1) == WORD * (x * t) + x;
    }
    ModUnique(x, x * t - k * q);
  }

  lemma {:induction false} Spread(x: int, p: int, k: int, q: int)
    ensures (x * p - WORD * k) * q == x * (p * q) - WORD * (k * q)
  {
  }
}
