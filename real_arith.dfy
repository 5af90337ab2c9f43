/** Facts of real arithmetic used by the TF-IDF proofs, kept apart so that each is proved in a
    small context. */
module RealArith {

  lemma PositiveProduct(x: real, y: real)
    requires x > 0.0 && y > 0.0
    ensures x * y > 0.0
  {
  }

  lemma PositiveQuotient(x: real, y: real)
    requires x > 0.0 && y > 0.0
    ensures x / y > 0.0
  {
  }

  lemma QuotientAtLeastOne(x: real, y: real)
    requires 0.0 < y <= x
    ensures x / y >= 1.0
  {
  }

  /** A count out of a positive total, as a fraction: between 0 and 1, 0 exactly for a zero
      count and 1 exactly for the full total. */
  lemma Fraction(a: nat, b: nat)
    requires 0 < b && a <= b
    ensures 0.0 <= a as real / b as real <= 1.0
    ensures a as real / b as real == 0.0 <==> a == 0
    ensures a as real / b as real == 1.0 <==> a == b
  {
    var q := a as real / b as real;
    assert q * b as real == a as real;
  }

  /** `c` shares of `1 / n` make `c / n`. */
  lemma Shares(c: nat, n: nat)
    requires 0 < n
    ensures c as real * (1.0 / n as real) == c as real / n as real
  {
  }

  /** A quotient is 1 exactly when the two sides are equal. */
  lemma QuotientOne(x: real, y: real)
    requires y > 0.0
    ensures x / y == 1.0 <==> x == y
  {
    if x / y == 1.0 {
      assert x == (x / y) * y;
    }
  }

  /** `unit` added to 0 `c` times, as a loop of `+=` does. */
  function Units(c: nat, unit: real): real
  {
    if c == 0 then 0.0 else Units(c - 1, unit) + unit
  }

  /** `c` additions of `unit` make `c * unit`; of `1 / n` they make `c / n`. */
  lemma {:induction false} UnitsProduct(c: nat, unit: real)
    ensures Units(c, unit) == c as real * unit
  {
    if c > 0 {
      UnitsProduct(c - 1, unit);
      assert (c - 1) as real * unit + unit == c as real * unit;
    }
  }
}
