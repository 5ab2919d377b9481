/** The two-word form of a 128-bit unsigned integer. */
module UInt128 {
  import opened Basics
  import opened Words

  const MODULUS: nat := WORD * WORD

  datatype U128 = U128(lo: Word, hi: Word)

  function Value(x: U128): nat {
    x.hi * WORD + x.lo
  }

  lemma ValueBounded(x: U128)
    ensures Value(x) < MODULUS
  {
  }

  /** A value below 2^128 that differs by a multiple of 2^128 is the remainder. */
  lemma IsRemainder(x: U128, n: int, k: int)
    requires n == Value(x) + k * MODULUS
    ensures Value(x) == n % MODULUS
  {
    ValueBounded(x);
    DivisionIs(n, MODULUS, k, Value(x));
  }

  // ---------------------------------------------------------------- addition and subtraction

  /** add_overflow: whether the sum wraps, and the wrapped sum. */
  function AddOverflow(a: Word, b: Word): (r: (bool, Word))
    ensures r.1 + (if r.0 then WORD else 0) == a + b
  {
    WrapOnce(a + b);
    (Add(a, b) < a, Add(a, b))
  }

  /** sub_overflow: whether the difference wraps, and the wrapped difference. */
  function SubOverflow(a: Word, b: Word): (r: (bool, Word))
    ensures r.1 - (if r.0 then WORD else 0) == a - b
  {
    WrapOnce(a - b);
    (a < b, Sub(a, b))
  }

  function Plus(x: U128, y: U128): U128 {
    var (carries, lo) := AddOverflow(x.lo, y.lo);
    U128(lo, Add(Add(x.hi, if carries then 1 else 0), y.hi))
  }

  function Minus(x: U128, y: U128): U128 {
    var (borrows, lo) := SubOverflow(x.lo, y.lo);
    U128(lo, Sub(Sub(x.hi, if borrows then 1 else 0), y.hi))
  }

  function Not(x: U128): U128 {
    U128(WORD - 1 - x.lo, WORD - 1 - x.hi)
  }

  function Negate(x: U128): U128 {
    Plus(Not(x), U128(1, 0))
  }

  lemma WrapOnce(n: int)
    requires 0 - WORD <= n < 2 * WORD
    ensures n % WORD == if n < 0 then n + WORD else if n < WORD then n else n - WORD
  {
  }

  lemma PlusIsAddition(x: U128, y: U128)
    ensures Value(Plus(x, y)) == (Value(x) + Value(y)) % MODULUS
  {
    var carry: Word := if AddOverflow(x.lo, y.lo).0 then 1 else 0;
    WrapOnce(x.hi + carry);
    WrapOnce(Add(x.hi, carry) + y.hi);
    hide AddOverflow;
    var z := Plus(x, y);
    var k := if Value(z) == Value(x) + Value(y) then 0 else 1;
    IsRemainder(z, Value(x) + Value(y), k);
  }

  lemma MinusIsSubtraction(x: U128, y: U128)
    ensures Value(Minus(x, y)) == (Value(x) - Value(y)) % MODULUS
  {
    var borrow: Word := if SubOverflow(x.lo, y.lo).0 then 1 else 0;
    WrapOnce(x.hi - borrow);
    WrapOnce(Sub(x.hi, borrow) - y.hi);
    hide SubOverflow;
    var z := Minus(x, y);
    var k := if Value(z) == Value(x) - Value(y) then 0 else -1;
    IsRemainder(z, Value(x) - Value(y), k);
  }

  lemma NegateIsNegation(x: U128)
    ensures Value(Negate(x)) == (0 - Value(x)) % MODULUS
  {
    PlusIsAddition(Not(x), U128(1, 0));
    NotIsComplement(x);
    assert Value(U128(1, 0)) == 1;
    hide Value, Plus, Not;
    OneRoundMore(Value(x));
  }

  lemma OneRoundMore(v: nat)
    ensures (MODULUS - v) % MODULUS == (0 - v) % MODULUS
  {
    var q, r := (0 - v) / MODULUS, (0 - v) % MODULUS;
    DivisionIs(MODULUS - v, MODULUS, q + 1, r);
  }

  lemma NotIsComplement(x: U128)
    ensures Value(Not(x)) == MODULUS - 1 - Value(x)
  {
  }

  // ---------------------------------------------------------------- multiplication

  /** The intermediate words of the 64-by-64-bit multiplication. */
  datatype Partial = Partial(xl: Word, xh: Word, yl: Word, yh: Word, ll: Word, lh: Word, hl: Word, hh: Word)

  function Partials(x: Word, y: Word): Partial {
    var xl, xh := And(x, HALF - 1), Shr(x, 32);
    var yl, yh := And(y, HALF - 1), Shr(y, 32);
    Partial(xl, xh, yl, yh, Mul(xl, yl), Mul(xl, yh), Mul(xh, yl), Mul(xh, yh))
  }

  function Middle(p: Partial): Word {
    Add(Add(Shr(p.ll, 32), p.lh), And(p.hl, HALF - 1))
  }

  function LowWord(p: Partial): Word {
    Or64(And(p.ll, HALF - 1), Shl(Middle(p), 32))
  }

  function HighWord(p: Partial): Word {
    Add(Add(Shr(Middle(p), 32), Shr(p.hl, 32)), p.hh)
  }

  /** umul64_64_128 */
  function UMul(x: Word, y: Word): U128 {
    var p := Partials(x, y);
    U128(LowWord(p), HighWord(p))
  }

  lemma Halves(x: Word)
    ensures And(x, HALF - 1) == x % HALF && Shr(x, 32) == x / HALF
    ensures x == (x / HALF) * HALF + x % HALF && 0 <= x / HALF < HALF && 0 <= x % HALF < HALF
  {
    PowValues();
    MaskIsMod(x, 32);
  }

  lemma ProductBound(a: nat, b: nat)
    requires a < HALF && b < HALF
    ensures 0 <= a * b <= (HALF - 1) * (HALF - 1) && Mul(a, b) == a * b
  {
    ProductMonotone(a, b, HALF - 1, HALF - 1);
    WrapOnce(a * b);
  }

  /** All four partial products, and the middle sum, are exact. */
  ghost predicate ExactParts(p: Partial) {
    && p.ll == p.xl * p.yl && p.lh == p.xl * p.yh && p.hl == p.xh * p.yl && p.hh == p.xh * p.yh
    && Middle(p) == p.ll / HALF + p.lh + p.hl % HALF
  }

  lemma PartsAreExact(x: Word, y: Word)
    ensures ExactParts(Partials(x, y))
  {
    var p := Partials(x, y);
    Halves(x);
    Halves(y);
    ProductBound(p.xl, p.yl);
    ProductBound(p.xl, p.yh);
    ProductBound(p.xh, p.yl);
    ProductBound(p.xh, p.yh);
    MiddleIsExact(p);
  }

  lemma MiddleIsExact(p: Partial)
    requires p.ll <= (HALF - 1) * (HALF - 1) && p.lh <= (HALF - 1) * (HALF - 1) && p.hl <= (HALF - 1) * (HALF - 1)
    ensures Middle(p) == p.ll / HALF + p.lh + p.hl % HALF
  {
    Halves(p.ll);
    Halves(p.hl);
    WrapOnce(p.ll / HALF + p.lh);
    WrapOnce(p.ll / HALF + p.lh + p.hl % HALF);
  }

  lemma LowIsExact(p: Partial)
    ensures LowWord(p) == p.ll % HALF + (Middle(p) % HALF) * HALF
  {
    var m := Middle(p);
    Halves(p.ll);
    Halves(m);
    hide Middle, And, Shr;
    PowValues();
    DivisionIs(m * HALF, WORD, m / HALF, (m % HALF) * HALF);
    OrAddsLow(p.ll % HALF, m % HALF);
  }

  lemma OrAddsLow(b: nat, a: nat)
    requires a < HALF && b < HALF
    ensures Or(b, a * HALF) == a * HALF + b
  {
    PowValues();
    OrAdds(a, b, 32);
    OrCommutes(b, a * HALF);
  }

  /** Multiplying the halves out. */
  lemma FourProducts(xl: int, xh: int, yl: int, yh: int)
    ensures (xh * HALF + xl) * (yh * HALF + yl)
         == xh * yh * WORD + (xl * yh + xh * yl) * HALF + xl * yl
  {
    assert (xh * HALF + xl) * (yh * HALF + yl) == (xh * HALF) * (yh * HALF + yl) + xl * (yh * HALF + yl);
    assert (xh * HALF) * (yh * HALF) == xh * yh * WORD;
    assert (xh * HALF) * yl == xh * yl * HALF;
    assert xl * (yh * HALF) == xl * yh * HALF;
  }

  /** The 128-bit product is exact, and on the way no 64-bit word overflows. */
  lemma UMulIsExact(x: Word, y: Word)
    ensures Value(UMul(x, y)) == x * y
    ensures ExactParts(Partials(x, y))
    ensures var p := Partials(x, y); HighWord(p) == Middle(p) / HALF + p.hl / HALF + p.hh
  {
    var p := Partials(x, y);
    PartsAreExact(x, y);
    LowIsExact(p);
    Halves(x);
    Halves(y);
    Halves(p.hl);
    Halves(Middle(p));
    FourProducts(p.xl, p.xh, p.yl, p.yh);
    ProductMonotone(x, y, WORD - 1, WORD - 1);
    HighIsExact(x * y, p);
  }

  lemma HighIsExact(product: nat, p: Partial)
    requires product == p.hh * WORD + (p.lh + p.hl) * HALF + p.ll && product <= (WORD - 1) * (WORD - 1)
    requires Middle(p) == p.ll / HALF + p.lh + p.hl % HALF
    requires LowWord(p) == p.ll % HALF + (Middle(p) % HALF) * HALF
    ensures HighWord(p) == Middle(p) / HALF + p.hl / HALF + p.hh
    ensures HighWord(p) * WORD + LowWord(p) == product
  {
    var m, l := Middle(p), LowWord(p);
    Halves(p.hl);
    Halves(p.ll);
    Halves(m);
    hide *;
    HighSum(p.ll / HALF, p.ll % HALF, p.lh, p.hl / HALF, p.hl % HALF, p.hh, m / HALF, m % HALF);
    HighWordIs(p, m);
  }

  lemma HighSum(llHigh: nat, llLow: nat, lh: nat, hlHigh: nat, hlLow: nat, hh: nat, mHigh: nat, mLow: nat)
    requires mHigh * HALF + mLow == llHigh + lh + hlLow && llLow < HALF && mLow < HALF
    ensures (mHigh + hlHigh + hh) * WORD + mLow * HALF + llLow
         == hh * WORD + (lh + hlHigh * HALF + hlLow) * HALF + llHigh * HALF + llLow
  {
  }

  lemma HighWordIs(p: Partial, m: Word)
    requires m == Middle(p) && m / HALF + p.hl / HALF + p.hh < WORD
    ensures HighWord(p) == m / HALF + p.hl / HALF + p.hh
  {
    Halves(m);
    Halves(p.hl);
    hide Middle, And;
    WrapOnce(m / HALF + p.hl / HALF);
    WrapOnce(m / HALF + p.hl / HALF + p.hh);
  }

  function Times(x: U128, y: U128): U128 {
    var z := UMul(x.lo, y.lo);
    U128(z.lo, Add(z.hi, Add(Mul(x.lo, y.hi), Mul(x.hi, y.lo))))
  }

  /** Adding three words with wrap-around, two of them wrapped already. */
  lemma WrappedSum(z: Word, a: nat, b: nat) returns (k: int)
    ensures (z + (a % WORD + b % WORD) % WORD) % WORD == z + a + b - k * WORD
  {
    var t := a % WORD + b % WORD;
    var s := z + t % WORD;
    k := a / WORD + b / WORD + t / WORD + s / WORD;
  }

  lemma TimesWords(x: U128, y: U128) returns (k: int)
    ensures Times(x, y).lo == UMul(x.lo, y.lo).lo
    ensures Times(x, y).hi == UMul(x.lo, y.lo).hi + x.lo * y.hi + x.hi * y.lo - k * WORD
  {
    hide UMul;
    ProductMonotone(x.lo, y.hi, x.lo, y.hi);
    ProductMonotone(x.hi, y.lo, x.hi, y.lo);
    k := WrappedSum(UMul(x.lo, y.lo).hi, x.lo * y.hi, x.hi * y.lo);
  }

  lemma TimesIsMultiplication(x: U128, y: U128)
    ensures Value(Times(x, y)) == (Value(x) * Value(y)) % MODULUS
  {
    var a, b, c := x.lo * y.hi, x.hi * y.lo, x.hi * y.hi;
    var k := TimesWords(x, y);
    UMulIsExact(x.lo, y.lo);
    ProductMonotone(x.lo, y.hi, x.lo, y.hi);
    ProductMonotone(x.hi, y.lo, x.hi, y.lo);
    ProductMonotone(x.hi, y.hi, x.hi, y.hi);
    assert Value(x) * Value(y) == c * MODULUS + (a + b) * WORD + x.lo * y.lo by {
      hide UMul, Times;
      FourWords(x.lo, x.hi, y.lo, y.hi);
    }
    hide *;
    TimesSum(Times(x, y), UMul(x.lo, y.lo), a, b, c, k, Value(x) * Value(y));
    IsRemainder(Times(x, y), Value(x) * Value(y), c + k);
  }

  lemma TimesSum(z: U128, low: U128, a: nat, b: nat, c: nat, k: int, product: int)
    requires z.lo == low.lo && z.hi == low.hi + a + b - k * WORD
    requires product == c * MODULUS + (a + b) * WORD + Value(low)
    ensures product == Value(z) + (c + k) * MODULUS
  {
  }

  lemma FourWords(xl: int, xh: int, yl: int, yh: int)
    ensures (xh * WORD + xl) * (yh * WORD + yl)
         == xh * yh * MODULUS + (xl * yh + xh * yl) * WORD + xl * yl
  {
    assert (xh * WORD + xl) * (yh * WORD + yl) == (xh * WORD) * (yh * WORD + yl) + xl * (yh * WORD + yl);
    assert (xh * WORD) * (yh * WORD) == xh * yh * MODULUS;
    assert (xh * WORD) * yl == xh * yl * WORD;
    assert xl * (yh * WORD) == xl * yh * WORD;
  }

  // ---------------------------------------------------------------- shifts

  function ShiftLeft(x: U128, n: nat): U128
    requires n < 128
  {
    if n >= 64 then U128(0, Shl(x.lo, n - 64))
    else if n != 0 then U128(Shl(x.lo, n), Or64(Shl(x.hi, n), Shr(x.lo, 64 - n)))
    else x
  }

  function ShiftRight(x: U128, n: nat): U128
    requires n < 128
  {
    if n >= 64 then U128(Shr(x.hi, n - 64), 0)
    else if n != 0 then U128(Or64(Shr(x.lo, n), Shl(x.hi, 64 - n)), Shr(x.hi, n))
    else x
  }

  /** A word shifted left by `n` splits into what stays and what leaves it. */
  lemma ShlSplits(x: Word, n: nat)
    requires 0 < n < 64
    ensures var p, q := Pow2(n), Pow2(64 - n);
            && Shl(x, n) == (x % q) * p && x * p == (x / q) * WORD + (x % q) * p
            && p * q == WORD && x / q < p && 0 <= x % q < q && (x % q) * p < WORD
  {
    var p, q := Pow2(n), Pow2(64 - n);
    PowsOfWord(n);
    hide Pow2;
    QuotientBounded(x, q);
    Divided(x, q);
    SplitProduct(x, p, q, x / q, x % q);
  }

  lemma PowsOfWord(n: nat)
    requires n <= 64
    ensures Pow2(n) * Pow2(64 - n) == WORD
  {
    PowAdd(n, 64 - n);
    PowValues();
  }

  lemma Divided(x: int, q: nat)
    requires q > 0
    ensures x == q * (x / q) + x % q && 0 <= x % q < q
  {
  }

  lemma SplitProduct(x: Word, p: nat, q: nat, d: nat, r: nat)
    requires p * q == WORD && r < q && x == q * d + r
    ensures x * p == d * WORD + r * p && r * p < WORD && d < p && (x * p) % WORD == r * p
  {
    assert (q * d + r) * p == d * (p * q) + r * p;
    assert (r + 1) * p == r * p + p;
    ProductMonotone(r + 1, p, q, p);
    assert q * p == p * q;
    if d >= p {
      ProductMonotone(q, p, q, d);
    }
    DivisionIs(x * p, WORD, d, r * p);
  }

  lemma ShiftLeftIsMultiplication(x: U128, n: nat)
    requires n < 128
    ensures Value(ShiftLeft(x, n)) == (Value(x) * Pow2(n)) % MODULUS
  {
    if n >= 64 {
      PowAdd(n - 64, 64);
      PowValues();
      LeftByWord(x, Pow2(n - 64), ShiftLeft(x, n));
    } else if n > 0 {
      ShlSplits(x.lo, n);
      ShlSplits(x.hi, n);
      OrAdds(x.hi % Pow2(64 - n), x.lo / Pow2(64 - n), n);
      LeftWithinWord(x, Pow2(n), Pow2(64 - n), ShiftLeft(x, n));
    } else {
      IsRemainder(x, Value(x), 0);
    }
  }

  lemma LeftByWord(x: U128, p: nat, z: U128)
    requires z == U128(0, (x.lo * p) % WORD)
    ensures Value(z) == (Value(x) * (p * WORD)) % MODULUS
  {
    var q := (x.lo * p) / WORD;
    assert (x.hi * WORD + x.lo) * (p * WORD) == (x.hi * p) * MODULUS + (x.lo * p) * WORD;
    IsRemainder(z, Value(x) * (p * WORD), x.hi * p + q);
  }

  lemma LeftWithinWord(x: U128, p: nat, q: nat, z: U128)
    requires q > 0 && z.lo == (x.lo % q) * p && z.hi == (x.hi % q) * p + x.lo / q
    requires x.lo * p == (x.lo / q) * WORD + (x.lo % q) * p
    requires x.hi * p == (x.hi / q) * WORD + (x.hi % q) * p
    ensures Value(z) == (Value(x) * p) % MODULUS
  {
    assert (x.hi * WORD + x.lo) * p == (x.hi * p) * WORD + x.lo * p;
    IsRemainder(z, Value(x) * p, x.hi / q);
  }

  lemma ShiftRightIsDivision(x: U128, n: nat)
    requires n < 128
    ensures Value(ShiftRight(x, n)) == Value(x) / Pow2(n)
  {
    if n >= 64 {
      PowAdd(n - 64, 64);
      PowValues();
      hide Pow2, Value;
      RightByWord(x, Pow2(n - 64), ShiftRight(x, n));
    } else if n > 0 {
      RightOr(x, n);
      PowsOfWord(n);
      hide Pow2, Value, Or64, Shl;
      RightWithinWord(x, Pow2(n), Pow2(64 - n), ShiftRight(x, n));
    }
  }

  lemma RightOr(x: U128, n: nat)
    requires 0 < n < 64
    ensures Or64(Shr(x.lo, n), Shl(x.hi, 64 - n)) == (x.hi % Pow2(n)) * Pow2(64 - n) + x.lo / Pow2(n)
  {
    ShlSplits(x.hi, 64 - n);
    ShlSplits(x.lo, 64 - n);
    assert 64 - (64 - n) == n;
    var a, b, p := x.hi % Pow2(n), x.lo / Pow2(n), Pow2(64 - n);
    assert Shr(x.lo, n) == b && Shl(x.hi, 64 - n) == a * p && Or64(b, a * p) == Or(b, a * p);
    hide *;
    OrAdds(a, b, 64 - n);
    OrCommutes(b, a * p);
  }

  lemma RightByWord(x: U128, p: nat, z: U128)
    requires p > 0 && z.lo == x.hi / p && z.hi == 0
    ensures Value(z) == Value(x) / (p * WORD)
  {
    var d, r := x.hi / p, x.hi % p;
    assert x.hi == p * d + r;
    assert (p * d + r) * WORD + x.lo == (p * WORD) * d + (r * WORD + x.lo);
    DivisionIs(Value(x), p * WORD, d, r * WORD + x.lo);
  }

  lemma RightWithinWord(x: U128, p: nat, q: nat, z: U128)
    requires p > 0 && p * q == WORD && z.lo == (x.hi % p) * q + x.lo / p && z.hi == x.hi / p
    ensures Value(z) == Value(x) / p
  {
    var d, r := x.hi / p, x.hi % p;
    var e, f := x.lo / p, x.lo % p;
    assert x.hi == p * d + r && x.lo == p * e + f;
    assert p * (d * WORD + (r * q + e)) == (p * d) * WORD + r * (p * q) + p * e;
    DivisionIs(Value(x), p, Value(z), f);
  }
}
