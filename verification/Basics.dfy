/** Numbers and sequences, as several models need them. */
module Basics {
  /** How many values a 64-bit word has. */
  const WORD: nat := 0x1_0000_0000_0000_0000

  type Byte = x: int | 0 <= x < 256

  function Min(a: nat, b: nat): nat { if a < b then a else b }

  function Max(a: nat, b: nat): nat { if a < b then b else a }

  ghost predicate Distinct<T>(s: seq<T>) {
    forall i, j :: 0 <= i < j < |s| ==> s[i] != s[j]
  }

  lemma AtLeast(m: nat, d: nat)
    ensures d == 0 || m * d >= m
  {
    if d > 0 {
      assert m * d == m * (d - 1) + m && m * (d - 1) >= 0;
    }
  }

  lemma SmallMultiple(m: nat, d: int)
    requires 0 - m < m * d < m
    ensures d == 0
  {
    AtLeast(m, if d < 0 then 0 - d else d);
    assert m * (0 - d) == 0 - m * d;
  }

  /** Quotient and remainder are determined. */
  lemma DivisionIs(n: int, m: nat, q: int, r: nat)
    requires r < m && n == m * q + r
    ensures n % m == r && n / m == q
  {
    var d := n / m - q;
    assert n == m * (n / m) + n % m;
    assert m * d == m * (n / m) - m * q;
    SmallMultiple(m, d);
  }
}
