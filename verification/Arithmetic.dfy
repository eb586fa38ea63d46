/** Products of reals under a name, with the few laws the proofs need: where the solver would get lost in
    nonlinear terms, a proof hides `Product` and uses these. */
module Arithmetic {
  function Product(x: real, y: real): real {
    x * y
  }

  lemma Gap(x: real, unit: real)
    requires unit > 0.0
    ensures (x > 0.0 ==> Product(x, unit) > 0.0) && (x >= 0.0 ==> Product(x, unit) >= 0.0)
  {
  }

  lemma Expand(x: real, y: real, unit: real)
    ensures Product(x - y, unit) == Product(x, unit) - Product(y, unit)
    ensures Product(x - y + 1.0, unit) == Product(x, unit) - Product(y, unit) + unit
  {
  }

  lemma Quotient(v: real, unit: real)
    requires unit > 0.0
    ensures Product(v / unit, unit) == v
  {
  }

  lemma ProductQuotient(x: real, unit: real)
    requires unit > 0.0
    ensures Product(x, unit) / unit == x
  {
  }

  lemma Spread(x: real, y: real, z: real)
    ensures Product(x + y, z) == Product(x, z) + Product(y, z)
    ensures Product(x - y, z) == Product(x, z) - Product(y, z)
    ensures Product(z, x + y) == Product(z, x) + Product(z, y)
    ensures Product(z, x - y) == Product(z, x) - Product(z, y)
  {
  }

  lemma BothNonNegative(x: real, y: real)
    requires x >= 0.0 && y >= 0.0
    ensures Product(x, y) >= 0.0
  {
  }

  lemma QuotientNonNegative(x: real, y: real)
    requires x >= 0.0 && y > 0.0
    ensures x / y >= 0.0
  {
  }
}
