/** Real-number helpers: integer powers (the engine's `Math.pow` calls all have integer exponents), absolute values and maxima. */
module RealMath {

  function Abs(x: real): real
  {
    if x < 0.0 then -x else x
  }

  function Max(a: real, b: real): real
  {
    if a >= b then a else b
  }

  function Min(a: nat, b: nat): nat
  {
    if a <= b then a else b
  }

  function Pow(x: real, n: nat): real
  {
    if n == 0 then 1.0 else x * Pow(x, n - 1)
  }

  lemma {:induction false} PowPositive(x: real, n: nat)
    requires x > 0.0
    ensures Pow(x, n) > 0.0
  {
    if n > 0 {
      PowPositive(x, n - 1);
    }
  }

  lemma {:induction false} PowNonZero(x: real, n: nat)
    requires x != 0.0
    ensures Pow(x, n) != 0.0
  {
    if n > 0 {
      PowNonZero(x, n - 1);
    }
  }

  lemma {:induction false} PowOfOne(n: nat)
    ensures Pow(1.0, n) == 1.0
  {
    if n > 0 {
      PowOfOne(n - 1);
    }
  }

  lemma {:induction false} PowAdd(x: real, a: nat, b: nat)
    ensures Pow(x, a + b) == Pow(x, a) * Pow(x, b)
  {
    if b > 0 {
      PowAdd(x, a, b - 1);
      assert Pow(x, a + b) == x * Pow(x, a + b - 1);
    }
  }

  /** A base above one raised to a positive power stays above one. */
  lemma {:induction false} PowAboveOne(x: real, n: nat)
    requires x > 1.0 && n >= 1
    ensures Pow(x, n) > 1.0
  {
    if n > 1 {
      PowAboveOne(x, n - 1);
      assert x * Pow(x, n - 1) > Pow(x, n - 1);
    }
  }

  /** For a base in (0, 1) the powers shrink strictly as the exponent grows. */
  lemma {:induction false} PowStrictlyDecreasing(x: real, a: nat, b: nat)
    requires 0.0 < x < 1.0 && a < b
    ensures Pow(x, b) < Pow(x, a)
  {
    var p := Pow(x, b - 1);
    PowPositive(x, b - 1);
    MulLess(x, 1.0, p);
    assert Pow(x, b) == x * p;
    if a < b - 1 {
      PowStrictlyDecreasing(x, a, b - 1);
    }
  }

  /** A power of a fraction stays in (0, 1]. */
  lemma PowOfFraction(x: real, n: nat)
    requires 0.0 < x < 1.0
    ensures 0.0 < Pow(x, n) <= 1.0
  {
    PowPositive(x, n);
    if n > 0 {
      PowStrictlyDecreasing(x, 0, n);
    }
  }

  /** For a positive exponent the power grows strictly with a positive base. */
  lemma {:induction false} PowStrictlyIncreasingInBase(x: real, y: real, n: nat)
    requires 0.0 < x < y && n >= 1
    ensures Pow(x, n) < Pow(y, n)
  {
    if n > 1 {
      var px, py := Pow(x, n - 1), Pow(y, n - 1);
      PowStrictlyIncreasingInBase(x, y, n - 1);
      PowPositive(x, n - 1);
      MulLess(x, y, px);
      MulLess(px, py, y);
      assert Pow(x, n) == x * px;
      assert Pow(y, n) == y * py;
    }
  }

  lemma MulLess(a: real, b: real, c: real)
    requires a < b && c > 0.0
    ensures a * c < b * c
  {
  }

  lemma MulAtMost(a: real, b: real, c: real)
    requires a <= b && c > 0.0
    ensures a * c <= b * c
  {
  }

  /** Dividing a positive amount by a larger positive divisor gives less. */
  lemma DivByLarger(c: real, a: real, b: real)
    requires c > 0.0 && 0.0 < a < b
    ensures c / b < c / a
  {
    assert c / b * b == c;
    assert c / a * a == c;
    if c / b >= c / a {
      MulAtMost(c / a, c / b, a);
      assert false;
    }
  }

  lemma MulDivCancel(n: real, t: real)
    requires n != 0.0
    ensures n * (t / n) == t
  {
  }

  lemma MulByNonNegative(k: real, a: real, b: real)
    requires k >= 0.0 && a <= b
    ensures k * a <= k * b
  {
  }
}
