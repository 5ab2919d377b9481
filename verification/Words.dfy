/** 64-bit words, with the bit operations defined bit by bit. */
module Words {
  import opened Basics

  const HALF: nat := 0x1_0000_0000

  type Word = x: int | 0 <= x < WORD

  function Pow2(k: nat): (p: nat)
    ensures p > 0
  {
    if k == 0 then 1 else 2 * Pow2(k - 1)
  }

  /** Bitwise or; no longer than the longer operand. */
  function Or(a: nat, b: nat): nat
    decreases a + b
  {
    if a == 0 then b else if b == 0 then a
    else (if a % 2 == 1 || b % 2 == 1 then 1 else 0) + 2 * Or(a / 2, b / 2)
  }

  /** Bitwise and. */
  function And(a: nat, b: nat): (r: nat)
    ensures r <= a
  {
    if a == 0 || b == 0 then 0
    else (if a % 2 == 1 && b % 2 == 1 then 1 else 0) + 2 * And(a / 2, b / 2)
  }

  function Shl(x: Word, k: nat): Word {
    (x * Pow2(k)) % WORD
  }

  function Shr(x: Word, k: nat): Word {
    QuotientBounded(x, Pow2(k));
    x / Pow2(k)
  }

  lemma QuotientBounded(x: nat, p: nat)
    requires p > 0
    ensures 0 <= x / p <= x
  {
    QuotientIn(x, p, x / p, x % p);
  }

  lemma QuotientIn(x: nat, p: nat, q: int, r: nat)
    requires r < p && x == p * q + r
    ensures 0 <= q <= x
  {
    if q >= 0 {
      AtLeast(q + 1, p);
      assert (q + 1) * p == p * q + p;
      assert p * q >= q by { TimesAtLeast(p, q); }
    } else {
      Opposite(p, q);
      AtLeast(p, 0 - q);
    }
  }

  lemma TimesAtLeast(p: nat, q: nat)
    requires p > 0
    ensures p * q >= q
  {
    assert p * q == (p - 1) * q + q;
    assert (p - 1) * q >= 0;
  }

  lemma {:induction false} OrCommutes(a: nat, b: nat)
    ensures Or(a, b) == Or(b, a)
    decreases a + b
  {
    if a > 0 && b > 0 {
      OrCommutes(a / 2, b / 2);
    }
  }

  function Or64(a: Word, b: Word): Word {
    PowValues();
    OrBounded(a, b, 64);
    Or(a, b)
  }

  lemma {:induction false} OrBounded(a: nat, b: nat, k: nat)
    requires a < Pow2(k) && b < Pow2(k)
    ensures Or(a, b) < Pow2(k)
    decreases k
  {
    if a > 0 && b > 0 {
      OrBounded(a / 2, b / 2, k - 1);
    }
  }

  function Add(a: Word, b: Word): Word {
    (a + b) % WORD
  }

  function Sub(a: Word, b: Word): Word {
    (a - b) % WORD
  }

  function Mul(a: Word, b: Word): Word {
    (a * b) % WORD
  }

  lemma {:induction false} PowAdd(a: nat, b: nat)
    ensures Pow2(a + b) == Pow2(a) * Pow2(b)
  {
    if a > 0 {
      PowAdd(a - 1, b);
      assert Pow2(a + b) == 2 * Pow2(a - 1 + b);
      assert 2 * (Pow2(a - 1) * Pow2(b)) == (2 * Pow2(a - 1)) * Pow2(b);
    }
  }

  lemma PowValues()
    ensures Pow2(32) == HALF && Pow2(64) == WORD && Pow2(3) == 8 && Pow2(1) == 2
  {
    assert Pow2(4) == 16 && Pow2(3) == 8;
    assert Pow2(8) == 256 by { PowAdd(4, 4); }
    assert Pow2(16) == 65536 by { PowAdd(8, 8); }
    assert Pow2(32) == HALF by { PowAdd(16, 16); }
    PowAdd(32, 32);
  }

  /** A mask of `k` ones keeps the low `k` bits. */
  lemma {:induction false} MaskIsMod(x: nat, k: nat)
    ensures And(x, Pow2(k) - 1) == x % Pow2(k)
  {
    if k == 0 {
    } else if x == 0 {
      DivisionIs(0, Pow2(k), 0, 0);
    } else {
      var p := Pow2(k - 1);
      assert Pow2(k) == 2 * p;
      hide And, Pow2;
      MaskIsMod(x / 2, k - 1);
      AndStep(x, p);
      HalvedMod(x, p);
    }
  }

  lemma MaskHalved(p: nat)
    requires p > 0
    ensures (2 * p - 1) / 2 == p - 1 && (2 * p - 1) % 2 == 1
  {
  }

  lemma AndStep(x: nat, p: nat)
    requires x > 0 && p > 0
    ensures And(x, 2 * p - 1) == x % 2 + 2 * And(x / 2, p - 1)
  {
    MaskHalved(p);
    assert x % 2 == 1 || x % 2 == 0;
  }

  lemma HalvedMod(x: nat, p: nat)
    requires p > 0
    ensures x % (2 * p) == x % 2 + 2 * ((x / 2) % p)
  {
    var q, r := (x / 2) / p, (x / 2) % p;
    assert x == (2 * p) * q + (2 * r + x % 2) by {
      assert x / 2 == p * q + r;
      assert 2 * (p * q) == (2 * p) * q;
    }
    DivisionIs(x, 2 * p, q, 2 * r + x % 2);
  }

  lemma ProductMonotone(a: nat, b: nat, n: nat, m: nat)
    requires a <= n && b <= m
    ensures 0 <= a * b <= n * m
  {
    assert (n - a) * b == n * b - a * b;
    assert n * (m - b) == n * m - n * b;
    assert (n - a) * b >= 0 && n * (m - b) >= 0 && a * b >= 0;
  }

  lemma Opposite(m: int, d: int)
    ensures m * (0 - d) == 0 - m * d
  {
  }

  /** Or adds when the bits do not overlap. */
  lemma {:induction false} OrAdds(a: nat, b: nat, k: nat)
    requires b < Pow2(k)
    ensures Or(a * Pow2(k), b) == a * Pow2(k) + b
    decreases k
  {
    if k > 0 && a > 0 && b > 0 {
      var p := Pow2(k - 1);
      OrAdds(a, b / 2, k - 1);
      assert a * Pow2(k) == 2 * (a * p);
      AtLeast(p, a);
      assert (a * Pow2(k)) / 2 == a * p && (a * Pow2(k)) % 2 == 0;
    }
  }
}
