/** Division of a 128-bit integer by 5 and 10 through lookup tables, and its decimal form. */
module UInt128Decimal {
  import opened Basics
  import opened Words
  import opened UInt128

  /** (2^64 - 1) / 5, which is exact. */
  const FIFTH: Word := 0x3333_3333_3333_3333

  /** Bit s says whether s is at least 5; s is a sum of two remainders by 5. */
  const CARRIES: Word := 0x1E0

  /** The s-th octal digit is s % 5. */
  const REMAINDERS: Word := 0x344_4688

  function CarryOf(s: nat): Word {
    And(Shr(CARRIES, s), 1)
  }

  function RemainderOf(s: nat): Word {
    And(Shr(REMAINDERS, 3 * s), 7)
  }

  lemma Eighths(k: nat)
    ensures Pow2(3 * k + 3) == 8 * Pow2(3 * k)
  {
    PowAdd(3 * k, 3);
    PowValues();
  }

  lemma PowTable()
    ensures Pow2(0) == 1 && Pow2(1) == 2 && Pow2(2) == 4 && Pow2(3) == 8 && Pow2(4) == 16
    ensures Pow2(5) == 32 && Pow2(6) == 64 && Pow2(7) == 128 && Pow2(8) == 256
    ensures Pow2(9) == 512 && Pow2(12) == 4096 && Pow2(15) == 32768 && Pow2(18) == 262144
    ensures Pow2(21) == 2097152 && Pow2(24) == 16777216
  {
    PowValues();
    hide Pow2;
    PowAdd(1, 1); PowAdd(2, 2); PowAdd(3, 2); PowAdd(4, 3); PowAdd(4, 4);
    PowAdd(0, 1);
    Eighths(1); Eighths(2); Eighths(3); Eighths(4); Eighths(5); Eighths(6); Eighths(7);
  }

  lemma CarryLookup(s: nat)
    requires s <= 8
    ensures CarryOf(s) == if s >= 5 then 1 else 0
  {
    PowTable();
    MaskIsMod(Shr(CARRIES, s), 1);
    hide And, Pow2;
    assert CARRIES / 1 == 480 && CARRIES / 2 == 240 && CARRIES / 4 == 120 && CARRIES / 8 == 60 && CARRIES / 16 == 30;
    assert CARRIES / 32 == 15 && CARRIES / 64 == 7 && CARRIES / 128 == 3 && CARRIES / 256 == 1;
  }

  /** The octal digits of the second table, from each place on. */
  const SHIFTED: seq<nat> := [54806152, 6850769, 856346, 107043, 13380, 1672, 209, 26, 3]

  lemma ShiftedRemainders(s: nat)
    requires s <= 8
    ensures Shr(REMAINDERS, 3 * s) == SHIFTED[s]
  {
    PowTable();
    hide Pow2;
    if s == 0 {
    } else if s == 1 {
    } else if s == 2 {
    } else if s == 3 {
    } else if s == 4 {
    } else if s == 5 {
    } else if s == 6 {
    } else if s == 7 {
    } else {
    }
  }

  lemma ShiftedDigits(s: nat)
    requires s <= 8
    ensures SHIFTED[s] % 8 == s % 5
  {
    if s == 0 {
    } else if s == 1 {
    } else if s == 2 {
    } else if s == 3 {
    } else if s == 4 {
    } else if s == 5 {
    } else if s == 6 {
    } else if s == 7 {
    } else {
    }
  }

  lemma RemainderLookup(s: nat)
    requires s <= 8
    ensures RemainderOf(s) == s % 5
  {
    ShiftedRemainders(s);
    ShiftedDigits(s);
    PowValues();
    MaskIsMod(Shr(REMAINDERS, 3 * s), 3);
    hide And, Pow2, Shr;
  }

  // ---------------------------------------------------------------- division and remainder

  /** Division by 5 or 10. */
  function Divide(x: U128, y: nat): U128
    requires y == 5 || y == 10
  {
    var product := Times(U128(x.hi, 0), U128(FIFTH, 0));
    var sum := Plus(product, U128(Add(x.hi / 5, x.lo / 5), 0));
    var q := Plus(sum, U128(CarryOf(x.hi % 5 + x.lo % 5), 0));
    if y == 10 then ShiftRight(q, 1) else q
  }

  /** Remainder by 2, 5 or 10. */
  function Remainder(x: U128, y: nat): U128
    requires y == 2 || y == 5 || y == 10
  {
    if y == 2 then U128(And(x.lo, 1), And(x.hi, 0))
    else
      var r := RemainderOf(x.hi % 5 + x.lo % 5);
      U128(if y == 10 then Add(r, Mul(5, And(Divide(x, 5).lo, 1))) else r, 0)
  }

  lemma InRange(n: nat)
    requires n < MODULUS
    ensures n % MODULUS == n
  {
  }

  /** The fifth of x, from the fifths of its words. */
  lemma FifthSplits(hi: Word, lo: Word)
    ensures var s := hi % 5 + lo % 5;
            (hi * WORD + lo) / 5 == hi * FIFTH + hi / 5 + lo / 5 + if s >= 5 then 1 else 0
  {
    var s := hi % 5 + lo % 5;
    var q := hi * FIFTH + hi / 5 + lo / 5 + if s >= 5 then 1 else 0;
    DivisionIs(hi * WORD + lo, 5, q, if s >= 5 then s - 5 else s);
  }

  lemma ProductWithFifth(hi: Word)
    ensures Value(Times(U128(hi, 0), U128(FIFTH, 0))) == hi * FIFTH
    ensures hi * FIFTH <= (WORD - 1) * FIFTH
  {
    TimesIsMultiplication(U128(hi, 0), U128(FIFTH, 0));
    hide Times;
    assert Value(U128(hi, 0)) == hi && Value(U128(FIFTH, 0)) == FIFTH;
    InRange(hi * FIFTH);
  }

  lemma PlusWord(x: U128, w: Word)
    requires Value(x) + w < MODULUS
    ensures Value(Plus(x, U128(w, 0))) == Value(x) + w
  {
    PlusIsAddition(x, U128(w, 0));
    hide Plus;
    assert Value(U128(w, 0)) == w;
    InRange(Value(x) + w);
  }

  lemma DivideUnfolds(x: U128)
    ensures Divide(x, 5) == Plus(Plus(Times(U128(x.hi, 0), U128(FIFTH, 0)), U128(Add(x.hi / 5, x.lo / 5), 0)),
                                 U128(CarryOf(x.hi % 5 + x.lo % 5), 0))
    ensures Add(x.hi / 5, x.lo / 5) == x.hi / 5 + x.lo / 5 && Value(x) == x.hi * WORD + x.lo
  {
    hide Plus, Times, CarryOf, Pow2;
    assert 0 <= x.hi / 5 + x.lo / 5 < WORD;
    WrapOnce(x.hi / 5 + x.lo / 5);
  }

  lemma DivideByFive(x: U128)
    ensures Value(Divide(x, 5)) == Value(x) / 5
  {
    hide Times, Plus, Divide, Add, CarryOf, Value, Pow2;
    var s, w := x.hi % 5 + x.lo % 5, Add(x.hi / 5, x.lo / 5);
    CarryLookup(s);
    FifthSplits(x.hi, x.lo);
    ProductWithFifth(x.hi);
    DivideUnfolds(x);
    var product := Times(U128(x.hi, 0), U128(FIFTH, 0));
    PlusWord(product, w);
    PlusWord(Plus(product, U128(w, 0)), CarryOf(s));
  }

  lemma HalfOfFifth(n: nat)
    ensures n / 5 / 2 == n / 10 && n % 10 == n % 5 + 5 * (n / 5 % 2)
  {
  }

  /** Table-based division is division. */
  lemma DivideIsDivision(x: U128, y: nat)
    requires y == 5 || y == 10
    ensures Value(Divide(x, y)) == Value(x) / y
  {
    DivideByFive(x);
    if y == 10 {
      assert Divide(x, 10) == ShiftRight(Divide(x, 5), 1);
      PowValues();
      hide *;
      ShiftRightIsDivision(Divide(x, 5), 1);
      HalfOfFifth(Value(x));
    }
  }

  lemma LowBit(x: Word)
    ensures And(x, 1) == x % 2
  {
    PowValues();
    MaskIsMod(x, 1);
  }

  lemma ValueMods(x: U128)
    ensures Value(x) % 2 == x.lo % 2
    ensures Value(x) % 5 == (x.hi % 5 + x.lo % 5) % 5
  {
    DivisionIs(Value(x), 5, x.hi * (5 * FIFTH) / 5 + x.hi / 5 + x.lo / 5 + (x.hi % 5 + x.lo % 5) / 5,
              (x.hi % 5 + x.lo % 5) % 5);
  }

  lemma SmallRemainder(r: Word, bit: Word)
    requires r < 5 && bit < 2
    ensures Value(U128(Add(r, Mul(5, bit)), 0)) == r + 5 * bit
  {
    WrapOnce(5 * bit);
    WrapOnce(r + 5 * bit);
  }

  lemma RemainderUnfolds(x: U128)
    ensures Remainder(x, 2) == U128(And(x.lo, 1), 0)
    ensures Remainder(x, 5) == U128(RemainderOf(x.hi % 5 + x.lo % 5), 0)
    ensures Remainder(x, 10) == U128(Add(RemainderOf(x.hi % 5 + x.lo % 5), Mul(5, And(Divide(x, 5).lo, 1))), 0)
  {
    hide Divide, RemainderOf, Mul, Add;
    assert And(x.hi, 0) == 0;
  }

  lemma SmallValue(w: Word)
    ensures Value(U128(w, 0)) == w
  {
  }

  /** Table-based remainder is the remainder. */
  lemma RemainderIsRemainder(x: U128, y: nat)
    requires y == 2 || y == 5 || y == 10
    ensures Value(Remainder(x, y)) == Value(x) % y
  {
    hide *;
    var s := x.hi % 5 + x.lo % 5;
    ValueMods(x);
    LowBit(x.lo);
    RemainderLookup(s);
    RemainderUnfolds(x);
    SmallValue(And(x.lo, 1));
    SmallValue(RemainderOf(s));
    if y == 10 {
      var fifth := Divide(x, 5);
      DivideIsDivision(x, 5);
      LowBit(fifth.lo);
      ValueMods(fifth);
      HalfOfFifth(Value(x));
      SmallRemainder(RemainderOf(s), And(fifth.lo, 1));
    }
  }

  // ---------------------------------------------------------------- the decimal form

  predicate IsDigit(c: char) {
    '0' <= c <= '9'
  }

  function DigitValue(c: char): nat
    requires IsDigit(c)
  {
    c as int - '0' as int
  }

  function Digit(d: nat): char
    requires d < 10
  {
    ('0' as int + d) as char
  }

  predicate Digits(s: string) {
    forall i :: 0 <= i < |s| ==> IsDigit(s[i])
  }

  /** The number that a string of decimal digits stands for. */
  function Evaluate(s: string): nat
    requires Digits(s)
  {
    if s == "" then 0 else 10 * Evaluate(s[..|s| - 1]) + DigitValue(s[|s| - 1])
  }

  /** The decimal digits of `n`. */
  function Decimal(n: nat): string {
    if n < 10 then [Digit(n)] else Decimal(n / 10) + [Digit(n % 10)]
  }

  /** Digits that stand for `n`, with no zero in front unless it is the only one. */
  predicate Denotes(s: string, n: nat) {
    Digits(s) && s != "" && (s[0] == '0' ==> |s| == 1) && Evaluate(s) == n
  }

  lemma {:induction false} DecimalDenotes(n: nat)
    ensures Denotes(Decimal(n), n) && (n > 0 ==> Decimal(n)[0] != '0')
  {
    if n < 10 {
      assert [Digit(n)][..0] == "";
    } else {
      DecimalDenotes(n / 10);
      assert Decimal(n)[..|Decimal(n)| - 1] == Decimal(n / 10);
    }
  }

  /** No other string does. */
  lemma {:induction false} DecimalIsUnique(s: string, n: nat)
    requires Denotes(s, n)
    ensures s == Decimal(n)
    decreases |s|
  {
    var front, d := s[..|s| - 1], DigitValue(s[|s| - 1]);
    assert s == front + [Digit(d)] && n == 10 * Evaluate(front) + d;
    if front != "" {
      LeadingDigitCounts(front);
      DecimalIsUnique(front, Evaluate(front));
      assert n / 10 == Evaluate(front) && n % 10 == d && n >= 10;
    } else {
      assert Evaluate("") == 0;
      assert s == [Digit(d)] && n == d;
    }
  }

  lemma {:induction false} LeadingDigitCounts(s: string)
    requires Digits(s) && s != "" && s[0] != '0'
    ensures Evaluate(s) > 0
    decreases |s|
  {
    if |s| > 1 {
      LeadingDigitCounts(s[..|s| - 1]);
    }
  }

  /** What is left to convert, in front of the digits found so far. */
  function Front(temp: U128): string {
    if temp == U128(0, 0) then "" else Decimal(Value(temp))
  }

  lemma DigitPeels(temp: U128)
    requires temp != U128(0, 0)
    ensures Value(Remainder(temp, 10)) < 10 && Value(Divide(temp, 10)) < Value(temp)
    ensures Remainder(temp, 10).lo < 10
    ensures Front(temp) == Front(Divide(temp, 10)) + [Digit(Remainder(temp, 10).lo)]
  {
    DivideIsDivision(temp, 10);
    RemainderIsRemainder(temp, 10);
    hide Divide, Remainder;
    ValueDetermines0(temp);
    ValueDetermines0(Divide(temp, 10));
  }

  lemma ValueDetermines0(x: U128)
    ensures Value(x) == 0 <==> x == U128(0, 0)
    ensures Value(x) < 10 ==> x.hi == 0 && x.lo == Value(x)
  {
  }

  /** The default format: the decimal digits of the value. */
  method FormatDecimal(value: U128) returns (result: string)
    ensures result == Decimal(Value(value))
  {
    hide Divide, Remainder, Decimal;
    if value.hi == 0 {
      // A 64-bit number is left to the format library.
      return Decimal(value.lo);
    }
    result := "";
    var temp := value;
    assert Front(temp) + result == Decimal(Value(value));
    while temp != U128(0, 0)
      invariant Front(temp) + result == Decimal(Value(value))
      decreases Value(temp)
    {
      DigitPeels(temp);
      var remainder := Remainder(temp, 10);
      result := [Digit(remainder.lo)] + result;
      temp := Divide(temp, 10);
    }
    DecimalNotEmpty(Value(value));
    return if result == "" then "0" else result;
  }

  lemma DecimalNotEmpty(n: nat)
    ensures Decimal(n) != ""
  {
  }
}
