/** Python's `round(x, n)` on reals: to the nearest multiple of 10^-n, ties to the even one. */
module Rounding {
  function RoundHalfEven(x: real): int {
    var f := x.Floor;
    var d := x - f as real;
    if d < 0.5 then f
    else if d > 0.5 then f + 1
    else if f % 2 == 0 then f else f + 1
  }

  function Cents(x: real): real {
    RoundHalfEven(x * 100.0) as real / 100.0
  }

  function FourPlaces(x: real): real {
    RoundHalfEven(x * 10000.0) as real / 10000.0
  }

  // No integer is nearer to `x` than `n`, and no other one as near unless `n` is even.
  predicate Nearest(x: real, n: int) {
    -0.5 <= n as real - x <= 0.5 && (n as real - x == 0.5 || n as real - x == -0.5 ==> n % 2 == 0)
  }

  /** Rounding gives the nearest number of units, of cents, of ten-thousandths; of two as near, the even one. */
  lemma RoundsToNearest(x: real, n: int)
    ensures n == RoundHalfEven(x) <==> Nearest(x, n)
    ensures Cents(x) * 100.0 == n as real <==> Nearest(x * 100.0, n)
    ensures FourPlaces(x) * 10000.0 == n as real <==> Nearest(x * 10000.0, n)
  {
    OneNearest(x, n);
    OneNearest(x * 100.0, n);
    OneNearest(x * 10000.0, n);
  }

  lemma OneNearest(x: real, n: int)
    ensures n == RoundHalfEven(x) <==> Nearest(x, n)
  {
    var f := x.Floor;
    if -0.5 <= n as real - x <= 0.5 { assert f - 1 < n <= f + 1; }
  }

  lemma RoundMonotone(x: real, y: real)
    requires x <= y
    ensures RoundHalfEven(x) <= RoundHalfEven(y)
  {
    if x.Floor == y.Floor {
    } else {
      assert x.Floor + 1 <= y.Floor;
    }
  }

  /** Rounding to cents moves an amount by at most half a cent. */
  lemma CentsNear(x: real)
    ensures x - 0.005 <= Cents(x) <= x + 0.005
  {
    var n := RoundHalfEven(x * 100.0);
    assert x * 100.0 - 0.5 <= n as real <= x * 100.0 + 0.5;
  }

  lemma CentsOnce(x: real)
    ensures Cents(Cents(x)) == Cents(x)
  {
    var n := RoundHalfEven(x * 100.0);
    OneNearest(n as real, n);
    assert Cents(x) * 100.0 == n as real;
    hide RoundHalfEven;
  }

  /** Rounding to four places moves a value by at most half of the last. */
  lemma FourPlacesNear(x: real)
    ensures x - 0.00005 <= FourPlaces(x) <= x + 0.00005
  {
    var n := RoundHalfEven(x * 10000.0);
    assert x * 10000.0 - 0.5 <= n as real <= x * 10000.0 + 0.5;
  }

  lemma CentsMonotone(x: real, y: real)
    requires x <= y
    ensures Cents(x) <= Cents(y)
  {
    RoundMonotone(x * 100.0, y * 100.0);
  }

  lemma FourPlacesMonotone(x: real, y: real)
    requires x <= y
    ensures FourPlaces(x) <= FourPlaces(y)
  {
    RoundMonotone(x * 10000.0, y * 10000.0);
  }
}
