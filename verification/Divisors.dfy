/** Common divisors, and what the steps of the binary algorithms do to them. */
module Divisors {
  import opened JsInt
  import opened BigShifts

  ghost predicate Divides(d: int, a: int) {
    exists k: int :: a == k * d
  }

  ghost predicate CommonDivisor(d: int, a: int, b: int) {
    Divides(d, a) && Divides(d, b)
  }

  /** g is the greatest common divisor: a common divisor that every common divisor divides. */
  ghost predicate IsGcd(g: int, a: int, b: int) {
    g >= 0 && CommonDivisor(g, a, b) && forall d :: CommonDivisor(d, a, b) ==> Divides(d, g)
  }

  lemma DividesBy(d: int, a: int, k: int)
    requires a == k * d
    ensures Divides(d, a)
  {
  }

  lemma Quotient(d: int, a: int) returns (k: int)
    requires Divides(d, a)
    ensures a == k * d
  {
    k :| a == k * d;
  }

  lemma DividesLinear(d: int, a: int, b: int, k: int)
    requires Divides(d, a) && Divides(d, b)
    ensures Divides(d, a + b) && Divides(d, a - b) && Divides(d, k * a) && Divides(d, -a)
  {
    var i := Quotient(d, a);
    var j := Quotient(d, b);
    DistribSum(d, i, j);
    DistribSum(d, i, -j);
    DistribSum(d, j, -j);
    DistribSum(d, i, -i);
    MulAssoc(k, i, d);
    DividesBy(d, a + b, i + j);
    DividesBy(d, a - b, i - j);
    DividesBy(d, k * a, k * i);
    DividesBy(d, -a, -i);
  }

  lemma EvenTimes(k: int, e: int)
    ensures (k * (2 * e)) % 2 == 0 && ((2 * e) * k) % 2 == 0
  {
    MulAssoc(k, 2, e);
    MulAssoc(2, e, k);
    assert k * (2 * e) == 2 * (k * e);
    assert (2 * e) * k == 2 * (e * k);
  }

  lemma OddFactors(k: int, d: int)
    requires (k * d) % 2 == 1
    ensures d % 2 == 1 && k % 2 == 1
  {
    var e, f := d / 2, k / 2;
    assert d == 2 * e || d == 2 * e + 1;
    assert k == 2 * f || k == 2 * f + 1;
    EvenTimes(k, e);
    EvenTimes(d, f);
  }

  lemma EvenProduct(k: int, d: int)
    requires (k * d) % 2 == 0 && d % 2 == 1
    ensures k % 2 == 0
  {
    var i := d / 2;
    var p, q := k * d, k * i;
    assert d == 2 * i + 1;
    assert p == 2 * q + k by {
      DistribSum(k, 2 * i, 1);
      MulAssoc(k, 2, i);
    }
  }

  /** An odd divisor of 2 a divides a. */
  lemma OddDividesHalf(d: int, a: int)
    requires d % 2 == 1 && Divides(d, 2 * a)
    ensures Divides(d, a)
  {
    var k := Quotient(d, 2 * a);
    EvenProduct(k, d);
    MulAssoc(2, k / 2, d);
    DividesBy(d, a, k / 2);
  }

  lemma OddDivisor(d: int, b: int)
    requires b % 2 == 1 && Divides(d, b)
    ensures d % 2 == 1
  {
    var k := Quotient(d, b);
    OddFactors(k, d);
  }

  lemma GcdSym(g: int, a: int, b: int)
    requires IsGcd(g, a, b)
    ensures IsGcd(g, b, a)
  {
    forall d | CommonDivisor(d, b, a) ensures Divides(d, g) {
      assert CommonDivisor(d, a, b);
    }
  }

  lemma GcdNeg(g: int, a: int, b: int)
    requires IsGcd(g, -a, b)
    ensures IsGcd(g, a, b)
  {
    DividesLinear(g, -a, b, 0);
    forall d | CommonDivisor(d, a, b) ensures Divides(d, g) {
      DividesLinear(d, a, b, 0);
      assert CommonDivisor(d, -a, b);
    }
  }

  lemma GcdZero(a: int)
    requires a >= 0
    ensures IsGcd(a, a, 0) && IsGcd(a, 0, a)
  {
    DividesBy(a, a, 1);
    DividesBy(a, 0, 0);
  }

  /** A factor 2 of one number is no factor of an odd one. */
  lemma GcdDouble(g: int, a: int, b: int)
    requires b % 2 == 1 && IsGcd(g, a, b)
    ensures IsGcd(g, 2 * a, b)
  {
    DividesLinear(g, a, b, 2);
    forall d | CommonDivisor(d, 2 * a, b) ensures Divides(d, g) {
      OddDivisor(d, b);
      OddDividesHalf(d, a);
      assert CommonDivisor(d, a, b);
    }
  }

  lemma {:induction false} GcdShift(g: int, a: int, b: int, n: nat)
    requires b % 2 == 1 && IsGcd(g, a, b)
    ensures IsGcd(g, a * Pow2(n), b)
  {
    if n == 0 {
      assert a * Pow2(0) == a;
    } else {
      GcdShift(g, a, b, n - 1);
      GcdDouble(g, a * Pow2(n - 1), b);
      MulAssoc(2, a, Pow2(n - 1));
      assert Pow2(n) == 2 * Pow2(n - 1);
      MulAssoc(a, 2, Pow2(n - 1));
    }
  }

  lemma GcdMinus(g: int, a: int, b: int)
    requires IsGcd(g, a - b, b)
    ensures IsGcd(g, a, b)
  {
    DividesLinear(g, a - b, b, 0);
    forall d | CommonDivisor(d, a, b) ensures Divides(d, g) {
      DividesLinear(d, a, b, 0);
      assert CommonDivisor(d, a - b, b);
    }
  }

  lemma GcdBothDouble(g: int, a: int, b: int)
    requires IsGcd(g, a, b)
    ensures IsGcd(2 * g, 2 * a, 2 * b)
  {
    var i := Quotient(g, a);
    var j := Quotient(g, b);
    MulAssoc(i, 2, g);
    MulAssoc(j, 2, g);
    DividesBy(2 * g, 2 * a, i);
    DividesBy(2 * g, 2 * b, j);
    forall d | CommonDivisor(d, 2 * a, 2 * b) ensures Divides(d, 2 * g) {
      if d % 2 == 1 {
        OddDividesHalf(d, a);
        OddDividesHalf(d, b);
        assert CommonDivisor(d, a, b);
        DividesLinear(d, g, g, 0);
      } else {
        var e := d / 2;
        HalfDivides(e, a);
        HalfDivides(e, b);
        assert CommonDivisor(e, a, b);
        var k := Quotient(e, g);
        MulAssoc(k, 2, e);
        DividesBy(d, 2 * g, k);
      }
    }
  }

  lemma HalfDivides(e: int, a: int)
    requires Divides(2 * e, 2 * a)
    ensures Divides(e, a)
  {
    var k := Quotient(2 * e, 2 * a);
    MulAssoc(k, 2, e);
    DividesBy(e, a, k);
  }

  lemma {:induction false} GcdBothShift(g: int, a: int, b: int, n: nat)
    requires IsGcd(g, a, b)
    ensures IsGcd(g * Pow2(n), a * Pow2(n), b * Pow2(n))
  {
    if n > 0 {
      var p := Pow2(n - 1);
      GcdBothShift(g, a, b, n - 1);
      GcdBothDouble(g * p, a * p, b * p);
      assert Pow2(n) == 2 * p;
      MulAssoc(g, 2, p);
      MulAssoc(a, 2, p);
      MulAssoc(b, 2, p);
    }
  }

  lemma GcdUnique(g: int, h: int, a: int, b: int)
    requires IsGcd(g, a, b) && IsGcd(h, a, b)
    ensures g == h
  {
    var i := Quotient(g, h);
    var j := Quotient(h, g);
    if g == 0 || h == 0 {
    } else {
      PositiveQuotient(i, g);
      PositiveQuotient(j, h);
      MulAtLeast(i, g);
      MulAtLeast(j, h);
    }
  }

  lemma PositiveQuotient(i: int, g: int)
    requires g > 0 && i * g > 0
    ensures i >= 1
  {
  }
}
