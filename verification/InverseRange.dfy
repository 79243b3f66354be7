/**
  Where the modular inverse lies.  Each round moves the coefficients out by a quarter
  of the modulus at most, and the number of rounds is bounded by the bits of the two
  numbers.  If one of the numbers has a small odd part, the coefficients stay close
  enough and the result is the canonical residue.  The bounds are kept on four times
  the coefficients.
*/
module InverseRange {
  import opened JsInt
  import opened BigShifts
  import opened Divisors
  import opened InverseSteps

  // ----- halving -----

  /** The coefficient of an odd number lies in [l, h]; that of an even one will, once it is halved. */
  predicate Box(n: int, c: int, l: int, h: int, m: int) {
    if IsOdd(n) then l <= 4 * c <= h else 2 * l + 4 * m <= 4 * c <= 2 * h
  }

  /** A halving is exact: it takes the coefficient, or the coefficient less m, to its half. */
  lemma HalvedExactly(s: Pair, x: int, m: int)
    requires m > 0 && Keeps(s, x, m) && s.u > 0 && !IsOdd(s.u)
    ensures var r := HalveUOnce(s, x, m); 2 * r.b == s.b || 2 * r.b == s.b - m
  {
    if m % 2 == 0 {
      KeptEven(s, x, m);
    }
    HalvedCoefficient(s, x, m);
    hide *;
  }

  lemma KeptEven(s: Pair, x: int, m: int)
    requires m > 0 && Keeps(s, x, m) && s.u > 0 && !IsOdd(s.u) && m % 2 == 0
    ensures !IsOdd(s.b)
  {
    EvenSum(s.a, s.b, m, x);
  }

  lemma HalvedCoefficient(s: Pair, x: int, m: int)
    requires m % 2 == 0 ==> !IsOdd(s.b)
    ensures var r := HalveUOnce(s, x, m); 2 * r.b == s.b || 2 * r.b == s.b - m
  {
  }

  /** Halving until odd keeps to the interval. */
  lemma {:induction false} HalveInBox(s: Pair, x: int, m: int, l: int, h: int)
    requires m > 0 && Keeps(s, x, m) && s.u > 0 && l <= -4 * m && 0 <= h && Box(s.u, s.b, l, h, m)
    ensures var r := HalveU(s, x, m);
            l <= 4 * r.b <= h && r.d == s.d && r.v == s.v && IsOdd(r.u) && 0 < r.u && Keeps(r, x, m)
    decreases s.u
  {
    if !IsOdd(s.u) {
      HalvedExactly(s, x, m);
      HalveUOnceKeeps(s, x, m);
      hide Keeps;
      HalveInBox(HalveUOnce(s, x, m), x, m, l, h);
    }
  }

  /** Both halvings of a round. */
  lemma HalvedInBoxes(s: Pair, x: int, m: int, l: int, h: int, l2: int, h2: int)
    requires m > 0 && Keeps(s, x, m) && s.u > 0 && s.v > 0
    requires l <= -4 * m && 0 <= h && Box(s.u, s.b, l, h, m)
    requires l2 <= -4 * m && 0 <= h2 && Box(s.v, s.d, l2, h2, m)
    ensures var t := HalveV(HalveU(s, x, m), x, m);
            && l <= 4 * t.b <= h && l2 <= 4 * t.d <= h2 && Keeps(t, x, m)
            && t.u == OddPart(s.u) && t.v == OddPart(s.v)
  {
    var r := HalveU(s, x, m);
    HalveInBox(s, x, m, l, h);
    KeepsSwap(r, x, m);
    HalveInBox(Swap(r), x, m, l2, h2);
    KeepsSwap(HalveU(Swap(r), x, m), x, m);
    HalvedIsOddPart(s, x, m);
    HalvedIsOddPart(Swap(r), x, m);
  }

  function OddPart(n: int): (r: int)
    requires n > 0
    ensures 0 < r <= n && IsOdd(r) && (!IsOdd(n) ==> 2 * r <= n)
  {
    if IsOdd(n) then n else OddPart(n / 2)
  }

  lemma {:induction false} HalvedIsOddPart(s: Pair, x: int, m: int)
    requires s.u > 0
    ensures HalveU(s, x, m).u == OddPart(s.u)
    decreases s.u
  {
    if !IsOdd(s.u) {
      HalvedIsOddPart(HalveUOnce(s, x, m), x, m);
    }
  }

  // ----- every input -----

  /** Within k quarters: K is k times m. */
  predicate Near(n: int, c: int, K: int, m: int) {
    Box(n, c, -K - 3 * m, K + m, m)
  }

  /** One more round, one more quarter. */
  lemma RoundNear(s: Pair, x: int, m: int, K: int)
    requires m > 0 && Keeps(s, x, m) && s.u > 0 && K >= m && Near(s.u, s.b, K, m) && Near(s.v, s.d, K, m)
    ensures var r := Round(s, x, m);
            && Keeps(r, x, m) && (r.u == 0 ==> -K - 3 * m <= 4 * r.d <= K + m)
            && Near(r.u, r.b, K + m, m) && Near(r.v, r.d, K + m, m)
  {
    KeepsSigns(s, x, m);
    hide *;
    NearIs(s.u, s.b, K, m);
    NearIs(s.v, s.d, K, m);
    HalvedInBoxes(s, x, m, -K - 3 * m, K + m, -K - 3 * m, K + m);
    var t := Halved(s, x, m);
    SubtractKeeps(t, x, m);
    SubtractNear(t, K, m);
  }

  lemma NearIs(n: int, c: int, K: int, m: int)
    ensures Near(n, c, K, m) <==> Box(n, c, -K - 3 * m, K + m, m)
  {
  }

  /** The numbers of a round before the subtraction. */
  lemma Halved(s: Pair, x: int, m: int) returns (t: Pair)
    requires s.u > 0 && s.v > 0
    ensures t == HalveV(HalveU(s, x, m), x, m) && Round(s, x, m) == Subtract(t, m)
    ensures t.u == OddPart(s.u) && t.v == OddPart(s.v) && IsOdd(t.u) && IsOdd(t.v) && t.u > 0 && t.v > 0
  {
    var r := HalveU(s, x, m);
    t := HalveV(r, x, m);
    HalvedIsOddPart(s, x, m);
    HalvedIsOddPart(Swap(r), x, m);
  }

  lemma SubtractNear(t: Pair, K: int, m: int)
    requires m > 0 && K >= m && IsOdd(t.u) && IsOdd(t.v)
    requires -K - 3 * m <= 4 * t.b <= K + m && -K - 3 * m <= 4 * t.d <= K + m
    ensures var r := Subtract(t, m);
            (r.u == 0 ==> -K - 3 * m <= 4 * r.d <= K + m) && Near(r.u, r.b, K + m, m) && Near(r.v, r.d, K + m, m)
  {
    hide *;
    SubtractParts(t, m);
    if t.u >= t.v {
      DifferenceNear(t.u, t.v, t.b, t.d, K, m);
    } else {
      DifferenceNear(t.v, t.u, t.d, t.b, K, m);
    }
  }

  /** The larger number and its coefficient become differences. */
  lemma SubtractParts(t: Pair, m: int)
    ensures var r := Subtract(t, m);
            if t.u >= t.v then r.u == t.u - t.v && r.v == t.v && r.b == t.b - t.d && r.d == t.d
            else r.u == t.u && r.v == t.v - t.u && r.b == t.b && r.d == t.d - t.b
  {
  }

  lemma DifferenceNear(n: int, n2: int, c: int, c2: int, K: int, m: int)
    requires m > 0 && K >= m && IsOdd(n) && IsOdd(n2)
    requires -K - 3 * m <= 4 * c <= K + m && -K - 3 * m <= 4 * c2 <= K + m
    ensures Near(n - n2, c - c2, K + m, m) && Near(n2, c2, K + m, m) && n2 != 0
  {
    assert !IsOdd(n - n2);
  }

  function Rounds(s: Pair, x: int, m: int): nat
    requires s.u >= 0 && s.v > 0
    decreases s.u + s.v
  {
    if s.u == 0 then 0 else 1 + Rounds(Round(s, x, m), x, m)
  }

  lemma {:induction false} RunNear(s: Pair, x: int, m: int, K: int)
    requires m > 0 && Keeps(s, x, m) && s.u > 0 && s.v > 0 && K >= m && Near(s.u, s.b, K, m) && Near(s.v, s.d, K, m)
    ensures var k := K + (Rounds(s, x, m) - 1) * m; -k - 3 * m <= 4 * Run(s, x, m).d <= k + m
    decreases s.u + s.v
  {
    var r := Round(s, x, m);
    RoundNear(s, x, m, K);
    RoundShrinks(s, x, m);
    RunRound(s, x, m);
    hide Keeps, Near, Box, Round;
    if r.u == 0 {
      RunEnd(r, x, m);
      assert Rounds(s, x, m) == 1;
    } else {
      RunNear(r, x, m, K + m);
      assert Rounds(s, x, m) == 1 + Rounds(r, x, m);
      DistribSum(m, Rounds(r, x, m) - 1, 1);
    }
  }

  lemma SmallerProduct(a: int, b: int, c: int, d: int)
    requires 0 < a <= c && 0 < b <= d
    ensures 0 < a * b <= c * d && (2 * a <= c || 2 * b <= d ==> 2 * (a * b) <= c * d)
  {
    assert a * b <= c * b && c * b <= c * d by {
      DistribSum(b, c - a, a);
      DistribSum(c, d - b, b);
    }
    if 2 * a <= c {
      assert (2 * a) * b <= c * b by { DistribSum(b, c - 2 * a, 2 * a); }
      MulAssoc(2, a, b);
    } else if 2 * b <= d {
      assert a * (2 * b) <= c * (2 * b) <= c * d by {
        DistribSum(2 * b, c - a, a);
        DistribSum(c, d - 2 * b, 2 * b);
      }
      MulAssoc(a, 2, b);
    }
  }

  /** Between rounds one number is even, so each round halves the product. */
  lemma {:induction false} RoundsBounded(s: Pair, x: int, m: int, n: nat)
    requires s.u >= 0 && s.v > 0 && s.u * s.v < Pow2(n)
    ensures Rounds(s, x, m) <= n
    ensures (!IsOdd(s.u) || !IsOdd(s.v)) && s.u > 0 ==> Rounds(s, x, m) < n
    decreases s.u + s.v
  {
    if s.u > 0 {
      var t := Halved(s, x, m);
      var r := Subtract(t, m);
      SmallerProduct(t.u, t.v, s.u, s.v);
      SmallerAfter(t, m);
      RoundShrinks(s, x, m);
      if !IsOdd(s.u) || !IsOdd(s.v) {
        HalfBelow(t.u * t.v, s.u * s.v, n);
        RoundsBounded(r, x, m, n - 1);
      } else {
        RoundsBounded(r, x, m, n);
      }
    }
  }

  lemma HalfBelow(half: int, whole: int, n: nat)
    requires 0 <= 2 * half <= whole < Pow2(n) && (half > 0 || n > 0 || whole == 0)
    ensures n > 0 ==> half < Pow2(n - 1)
    ensures half > 0 ==> n > 0
  {
  }

  lemma SmallerAfter(t: Pair, m: int)
    requires t.u > 0 && t.v > 0 && IsOdd(t.u) && IsOdd(t.v)
    ensures var r := Subtract(t, m);
            && r.u >= 0 && r.v > 0 && r.u * r.v < t.u * t.v && (!IsOdd(r.u) || !IsOdd(r.v))
  {
    hide *;
    SubtractParts(t, m);
    if t.u >= t.v {
      LessProduct(t.u, t.v);
    } else {
      LessProduct(t.v, t.u);
      Commutes(t.u, t.v);
      Commutes(t.u, t.v - t.u);
    }
  }

  lemma LessProduct(u: int, v: int)
    requires u >= v > 0 && IsOdd(u) && IsOdd(v)
    ensures (u - v) * v < u * v && !IsOdd(u - v)
  {
    SquareBelow(u - v, v);
  }

  lemma SquareBelow(w: int, v: int)
    requires v > 0
    ensures w * v < (w + v) * v
  {
    DistribSum(v, w, v);
    SmallerProduct(1, 1, v, v);
  }

  lemma Commutes(a: int, b: int)
    ensures a * b == b * a
  {
  }

  /** For every input: with x m below 2^n the result is at most (n - 5) / 4 moduli below 0 or (n - 3) / 4 above. */
  lemma InverseWithin(x: int, m: int, n: nat)
    requires x > 0 && m > 1 && x * m < Pow2(n)
    ensures var r := InverseOf(x, m); (0 <= r || -(n - 5) * m <= 4 * r) && (r < m || 4 * r <= (n - 3) * m)
  {
    hide *;
    ResultIs(x, m);
    if IsOdd(x) || IsOdd(m) {
      var s := Start(x, m);
      StartKeeps(x, m);
      RoundsBounded(s, x, m, n);
      RunNear(s, x, m, m);
      QuartersOff(Rounds(s, x, m), n, Run(s, x, m).d, m);
    }
  }

  /** The first pair, its coefficients near at hand. */
  lemma Start(x: int, m: int) returns (s: Pair)
    requires x > 0 && m > 1
    ensures s == Pair(m, x, 1, 0, 0, 1) && Near(s.u, s.b, m, m) && Near(s.v, s.d, m, m) && s.u * s.v == x * m
  {
    s := Pair(m, x, 1, 0, 0, 1);
  }

  lemma ResultIs(x: int, m: int)
    requires x > 0 && m > 1
    ensures if IsOdd(x) || IsOdd(m) then
              var s := Run(Pair(m, x, 1, 0, 0, 1), x, m); InverseOf(x, m) == if s.v != 1 then 0 else Adjust(s.d, m)
            else InverseOf(x, m) == 0
  {
    hide Run, Adjust;
  }

  lemma QuartersOff(k: int, n: int, d: int, m: int)
    requires m > 0 && 0 <= k <= n && -(m + (k - 1) * m) - 3 * m <= 4 * d <= m + (k - 1) * m + m
    ensures var r := Adjust(d, m); (0 <= r || -(n - 5) * m <= 4 * r) && (r < m || 4 * r <= (n - 3) * m)
  {
    DistribSum(m, k, n - k);
    DistribSum(m, k, -1);
    DistribSum(m, n, -5);
    DistribSum(m, n, -3);
    assert -(n - 5) * m == 5 * m - n * m;
    var km, nm := k * m, n * m;
    assert km <= nm;
  }

  // ----- small odd parts -----

  /** From v = 1 on the coefficient of v does not change. */
  lemma {:induction false} TailOne(s: Pair, x: int, m: int)
    requires s.u >= 0 && s.v == 1
    ensures Run(s, x, m).d == s.d
    decreases s.u
  {
    if s.u > 0 {
      var t := HalveU(s, x, m);
      SameD(s, x, m);
      assert HalveV(t, x, m) == t;
      RunRound(s, x, m);
      TailOne(Subtract(t, m), x, m);
    }
  }

  lemma {:induction false} SameD(s: Pair, x: int, m: int)
    requires s.u > 0
    ensures HalveU(s, x, m).d == s.d && HalveU(s, x, m).v == s.v
    decreases s.u
  {
    if !IsOdd(s.u) {
      SameD(HalveUOnce(s, x, m), x, m);
    }
  }

  /** Where the last coefficient must lie, if there is an inverse at all. */
  predicate Ends(s: Pair, m: int) {
    s.v == 1 ==> -2 * m <= s.d < 2 * m
  }

  /** A common factor 3 stays, so there is no inverse. */
  lemma {:induction false} CommonThree(s: Pair, x: int, m: int)
    requires s.u >= 0 && s.v > 0 && s.u % 3 == 0 && s.v % 3 == 0
    ensures Run(s, x, m).v % 3 == 0
    decreases s.u + s.v
  {
    if s.u > 0 {
      hide *;
      var t := Halved(s, x, m);
      ThreeStays(s.u);
      ThreeStays(s.v);
      SubtractThree(t, m);
      RunRound(s, x, m);
      RoundShrinks(s, x, m);
      CommonThree(Subtract(t, m), x, m);
    } else {
      RunEnd(s, x, m);
    }
  }

  lemma SubtractThree(t: Pair, m: int)
    requires t.u % 3 == 0 && t.v % 3 == 0
    ensures Subtract(t, m).u % 3 == 0 && Subtract(t, m).v % 3 == 0
  {
  }

  lemma {:induction false} ThreeStays(n: int)
    requires n > 0 && n % 3 == 0
    ensures OddPart(n) % 3 == 0
  {
    if !IsOdd(n) {
      assert (n / 2) % 3 == 0;
      ThreeStays(n / 2);
    }
  }

  /** In the boxes at a round, and with numbers that keep what is promised. */
  ghost predicate Within(s: Pair, x: int, m: int, l: int, h: int, l2: int, h2: int) {
    m > 1 && Keeps(s, x, m) && Box(s.u, s.b, l, h, m) && Box(s.v, s.d, l2, h2, m)
  }

  /** Before the subtraction of a round both coefficients are in their intervals. */
  lemma HalvedWithin(s: Pair, x: int, m: int, l: int, h: int, l2: int, h2: int) returns (t: Pair)
    requires Within(s, x, m, l, h, l2, h2) && s.u > 0 && l <= -4 * m && 0 <= h && l2 <= -4 * m && 0 <= h2
    ensures Round(s, x, m) == Subtract(t, m) && Keeps(t, x, m) && Keeps(Subtract(t, m), x, m) && m > 1 && s.v > 0
    ensures l <= 4 * t.b <= h && l2 <= 4 * t.d <= h2
    ensures t.u == OddPart(s.u) && t.v == OddPart(s.v) && IsOdd(t.u) && IsOdd(t.v) && t.u > 0 && t.v > 0
    ensures var r := Subtract(t, m); r.u >= 0 && r.v > 0 && r.u + r.v < s.u + s.v && Run(s, x, m) == Run(r, x, m)
  {
    KeepsSigns(s, x, m);
    HalvedInBoxes(s, x, m, l, h, l2, h2);
    hide *;
    t := Halved(s, x, m);
    SubtractKeeps(t, x, m);
    RoundShrinks(s, x, m);
    RunRound(s, x, m);
  }

  lemma WithinSigns(s: Pair, x: int, m: int, l: int, h: int, l2: int, h2: int)
    requires Within(s, x, m, l, h, l2, h2)
    ensures m > 1 && s.u >= 0 && s.v > 0
  {
    KeepsSigns(s, x, m);
  }

  lemma EndsIs(s: Pair, m: int)
    ensures Ends(s, m) <==> (s.v == 1 ==> -2 * m <= s.d < 2 * m)
  {
  }

  /** The second number is about to become 1, or a factor 3 is common. */
  predicate NearlyOne(u: int, v: int) {
    v in {1, 2, 4, 8} || (u == 1 && v in {3, 6}) || (u % 3 == 0 && v % 3 == 0)
  }

  lemma {:induction false} LastSteps(s: Pair, x: int, m: int)
    requires Within(s, x, m, -4 * m - 4, 4 * m, -8 * m, 4 * m + 4) && s.u > 0 && IsOdd(s.u) && NearlyOne(s.u, s.v)
    ensures Ends(Run(s, x, m), m)
    decreases s.u + s.v
  {
    hide *;
    WithinSigns(s, x, m, -4 * m - 4, 4 * m, -8 * m, 4 * m + 4);
    EndsIs(Run(s, x, m), m);
    var t := HalvedWithin(s, x, m, -4 * m - 4, 4 * m, -8 * m, 4 * m + 4);
    NearlyOneIs(s.u, s.v);
    if t.v == 1 {
      OneStays(t, m);
      TailOne(Subtract(t, m), x, m);
    } else if s.u % 3 == 0 && s.v % 3 == 0 {
      CommonThree(s, x, m);
    } else {
      OneFromThree(t, x, m);
      LastSteps(Subtract(t, m), x, m);
    }
  }

  lemma NearlyOneIs(u: int, v: int)
    requires u > 0 && v > 0 && IsOdd(u) && NearlyOne(u, v)
    ensures OddPart(u) == u
    ensures OddPart(v) == 1 || (u == 1 && OddPart(v) == 3) || (u % 3 == 0 && v % 3 == 0)
  {
    assert OddPart(2) == 1 && OddPart(4) == 1;
    assert OddPart(8) == OddPart(4);
    assert OddPart(6) == 3;
  }

  lemma OneStays(t: Pair, m: int)
    requires t.u > 0 && t.v == 1
    ensures Subtract(t, m).v == 1 && Subtract(t, m).d == t.d && Subtract(t, m).u == t.u - 1
  {
  }

  lemma OneFromThree(t: Pair, x: int, m: int)
    requires m > 1 && t.u == 1 && t.v == 3 && Keeps(Subtract(t, m), x, m)
    requires -4 * m - 4 <= 4 * t.b <= 4 * m && -8 * m <= 4 * t.d <= 4 * m + 4
    ensures var r := Subtract(t, m);
            Within(r, x, m, -4 * m - 4, 4 * m, -8 * m, 4 * m + 4) && r.u == 1 && IsOdd(r.u) && NearlyOne(r.u, r.v)
  {
    hide Keeps;
  }

  /** While the first number is the larger one, the coefficient of the second does not change. */
  lemma {:induction false} SmallSecond(s: Pair, x: int, m: int)
    requires Within(s, x, m, -4 * m - 4, 4 * m, -4 * m, 4) && s.u >= 0 && s.v > 0 && OddPart(s.v) <= 9
    ensures Ends(Run(s, x, m), m)
    decreases s.u + s.v
  {
    if s.u == 0 {
      RunEnd(s, x, m);
      return;
    }
    hide *;
    WithinSigns(s, x, m, -4 * m - 4, 4 * m, -4 * m, 4);
    var t := HalvedWithin(s, x, m, -4 * m - 4, 4 * m, -4 * m, 4);
    if t.u >= t.v {
      LargerFirst(t, x, m);
      SmallSecond(Subtract(t, m), x, m);
    } else {
      FirstSwitch(t, x, m);
      LastSteps(Subtract(t, m), x, m);
    }
  }

  lemma LargerFirst(t: Pair, x: int, m: int)
    requires m > 1 && IsOdd(t.u) && IsOdd(t.v) && t.u >= t.v > 0 && OddPart(t.v) <= 9 && Keeps(Subtract(t, m), x, m)
    requires -4 * m - 4 <= 4 * t.b <= 4 * m && -4 * m <= 4 * t.d <= 4
    ensures var r := Subtract(t, m);
            Within(r, x, m, -4 * m - 4, 4 * m, -4 * m, 4) && r.u >= 0 && r.v > 0 && OddPart(r.v) <= 9
  {
    hide Keeps;
  }

  lemma FirstSwitch(t: Pair, x: int, m: int)
    requires m > 1 && IsOdd(t.u) && IsOdd(t.v) && 0 < t.u < t.v <= 9 && Keeps(Subtract(t, m), x, m)
    requires -4 * m - 4 <= 4 * t.b <= 4 * m && -4 * m <= 4 * t.d <= 4
    ensures var r := Subtract(t, m);
            Within(r, x, m, -4 * m - 4, 4 * m, -8 * m, 4 * m + 4) && r.u > 0 && IsOdd(r.u) && NearlyOne(r.u, r.v)
  {
    hide Keeps;
    assert t.v in {3, 5, 7, 9} && t.u in {1, 3, 5, 7};
  }

  /** While the first number is a power of two, it becomes 1 and stays 1 until the second one is 1. */
  lemma {:induction false} FirstOne(s: Pair, x: int, m: int)
    requires Within(s, x, m, -6 * m, 2 * m, -6 * m, 6 * m) && s.u > 0 && s.v > 0 && OddPart(s.u) == 1
    ensures Ends(Run(s, x, m), m)
    decreases s.u + s.v
  {
    hide *;
    WithinSigns(s, x, m, -6 * m, 2 * m, -6 * m, 6 * m);
    EndsIs(Run(s, x, m), m);
    var t := HalvedWithin(s, x, m, -6 * m, 2 * m, -6 * m, 6 * m);
    if t.v == 1 {
      OneStays(t, m);
      TailOne(Subtract(t, m), x, m);
    } else {
      LargerSecondByOne(t, x, m);
      FirstOne(Subtract(t, m), x, m);
    }
  }

  lemma LargerSecondByOne(t: Pair, x: int, m: int)
    requires m > 1 && t.u == 1 && IsOdd(t.v) && t.v > 0 && t.v != 1 && Keeps(Subtract(t, m), x, m)
    requires -6 * m <= 4 * t.b <= 2 * m && -6 * m <= 4 * t.d <= 6 * m
    ensures var r := Subtract(t, m);
            Within(r, x, m, -6 * m, 2 * m, -6 * m, 6 * m) && r.u == 1 && r.v > 0 && OddPart(r.u) == 1
  {
    hide Keeps;
  }

  lemma {:induction false} SmallFirst(s: Pair, x: int, m: int)
    requires Within(s, x, m, -4 * m, 0, -4 * m, 4 * m) && s.u >= 0 && s.v > 0 && (s.u > 0 ==> OddPart(s.u) <= 9)
    ensures Ends(Run(s, x, m), m)
    decreases s.u + s.v
  {
    if s.u == 0 {
      RunEnd(s, x, m);
      return;
    }
    hide *;
    WithinSigns(s, x, m, -4 * m, 0, -4 * m, 4 * m);
    EndsIs(Run(s, x, m), m);
    var t := HalvedWithin(s, x, m, -4 * m, 0, -4 * m, 4 * m);
    if t.v == 1 {
      OneStays(t, m);
      TailOne(Subtract(t, m), x, m);
    } else if t.u < t.v {
      LargerSecond(t, x, m);
      SmallFirst(Subtract(t, m), x, m);
    } else if t.u == t.v {
      EqualEnd(t, m);
      RunEnd(Subtract(t, m), x, m);
    } else if t.u % 3 == 0 && t.v % 3 == 0 {
      SubtractThree(t, m);
      CommonThree(Subtract(t, m), x, m);
    } else {
      SecondSwitch(t, x, m);
      FirstOne(Subtract(t, m), x, m);
    }
  }

  lemma LargerSecond(t: Pair, x: int, m: int)
    requires m > 1 && IsOdd(t.u) && IsOdd(t.v) && 0 < t.u < t.v && OddPart(t.u) <= 9 && Keeps(Subtract(t, m), x, m)
    requires -4 * m <= 4 * t.b <= 0 && -4 * m <= 4 * t.d <= 4 * m
    ensures var r := Subtract(t, m);
            Within(r, x, m, -4 * m, 0, -4 * m, 4 * m) && r.u > 0 && r.v > 0 && OddPart(r.u) <= 9
  {
    hide Keeps;
  }

  lemma EqualEnd(t: Pair, m: int)
    requires t.u == t.v
    ensures Subtract(t, m).u == 0 && Subtract(t, m).v == t.v
  {
  }

  lemma SecondSwitch(t: Pair, x: int, m: int)
    requires m > 1 && IsOdd(t.u) && IsOdd(t.v) && 1 < t.v < t.u <= 9 && Keeps(Subtract(t, m), x, m)
    requires !(t.u % 3 == 0 && t.v % 3 == 0)
    requires -4 * m <= 4 * t.b <= 0 && -4 * m <= 4 * t.d <= 4 * m
    ensures var r := Subtract(t, m);
            Within(r, x, m, -6 * m, 2 * m, -6 * m, 6 * m) && r.u > 0 && r.v > 0 && OddPart(r.u) == 1
  {
    hide Keeps;
    assert t.u in {5, 7, 9} && t.v in {3, 5, 7};
    assert OddPart(2) == 1 && OddPart(4) == 1;
  }

  /** The canonical residue, whenever the odd part of one of the numbers is at most 9. */
  lemma InverseCanonical(x: int, m: int)
    requires x > 0 && m > 1 && (OddPart(x) <= 9 || OddPart(m) <= 9)
    ensures 0 <= InverseOf(x, m) < m
  {
    hide *;
    ResultIs(x, m);
    if IsOdd(x) || IsOdd(m) {
      var s := Start(x, m);
      StartKeeps(x, m);
      StartWithin(x, m);
      if OddPart(x) <= 9 {
        SmallSecond(s, x, m);
      } else {
        SmallFirst(s, x, m);
      }
      EndsIs(Run(s, x, m), m);
      AdjustCanonical(Run(s, x, m).d, m);
    }
  }

  /** In particular for every power of two in either place. */
  lemma PowersCanonical(k: nat, n: int)
    requires n > 1
    ensures Pow2(k) > 0 && 0 <= InverseOf(Pow2(k), n) < n
    ensures k > 0 ==> Pow2(k) > 1 && 0 <= InverseOf(n, Pow2(k)) < Pow2(k)
  {
    PowerIsOne(k);
    hide InverseOf, OddPart;
    InverseCanonical(Pow2(k), n);
    if k > 0 {
      InverseCanonical(n, Pow2(k));
    }
  }

  lemma {:induction false} PowerIsOne(k: nat)
    ensures OddPart(Pow2(k)) == 1
  {
    if k > 0 {
      PowerIsOne(k - 1);
      assert Pow2(k) / 2 == Pow2(k - 1);
    }
  }

  // ----- a second number much smaller than the first -----

  /** The last coefficient, for a second number whose odd part is below 2^n. */
  predicate Ranges(d: int, m: int, n: nat) {
    -(2 * n + 4) * m <= 4 * d <= (2 * n + 2) * m
  }

  lemma {:induction false} SecondBelow(s: Pair, x: int, m: int, n: nat)
    requires Within(s, x, m, -4 * m - 4, 4 * m, -4 * m, 4) && s.u >= 0 && s.v > 0 && n > 0 && OddPart(s.v) < Pow2(n)
    ensures Ranges(Run(s, x, m).d, m, n)
    decreases s.u + s.v
  {
    if s.u == 0 {
      RunEnd(s, x, m);
      StillNear(s.d, m, n);
      return;
    }
    hide *;
    WithinSigns(s, x, m, -4 * m - 4, 4 * m, -4 * m, 4);
    var t := HalvedWithin(s, x, m, -4 * m - 4, 4 * m, -4 * m, 4);
    var r := Subtract(t, m);
    if t.u >= t.v {
      LargerFirstBelow(t, x, m, n);
      SecondBelow(r, x, m, n);
    } else {
      SwitchBelow(t, x, m, n);
      RoundsBounded(r, x, m, 2 * n);
      RunNear(r, x, m, 3 * m);
      QuartersOut(Rounds(r, x, m), n, Run(r, x, m).d, m);
    }
  }

  lemma StillNear(d: int, m: int, n: nat)
    requires m > 1 && -8 * m <= 4 * d <= 4 * m && n > 0
    ensures (-4 * m <= 4 * d ==> Ranges(d, m, n))
  {
    MulAtLeast(n, m);
    DistribSum(m, 2 * n, 4);
    DistribSum(m, 2 * n, 2);
    MulAssoc(2, n, m);
    assert -(2 * n + 4) * m == -((2 * n + 4) * m);
  }

  lemma LargerFirstBelow(t: Pair, x: int, m: int, n: nat)
    requires m > 1 && IsOdd(t.u) && IsOdd(t.v) && t.u >= t.v > 0 && t.v < Pow2(n) && Keeps(Subtract(t, m), x, m)
    requires -4 * m - 4 <= 4 * t.b <= 4 * m && -4 * m <= 4 * t.d <= 4
    ensures var r := Subtract(t, m);
            Within(r, x, m, -4 * m - 4, 4 * m, -4 * m, 4) && r.u >= 0 && r.v > 0 && OddPart(r.v) < Pow2(n)
  {
    hide Keeps, Pow2;
  }

  lemma SwitchBelow(t: Pair, x: int, m: int, n: nat)
    requires m > 1 && IsOdd(t.u) && IsOdd(t.v) && 0 < t.u < t.v < Pow2(n) && Keeps(Subtract(t, m), x, m)
    requires -4 * m - 4 <= 4 * t.b <= 4 * m && -4 * m <= 4 * t.d <= 4
    ensures var r := Subtract(t, m);
            Near(r.u, r.b, 3 * m, m) && Near(r.v, r.d, 3 * m, m) && r.u > 0 && r.v > 0 && !IsOdd(r.v) && r.u * r.v < Pow2(2 * n)
  {
    hide *;
    var r := Subtract(t, m);
    SwitchNear(t, m);
    ProductBelow(r.u, r.v, Pow2(n));
    DoublePower(n);
  }

  lemma SwitchNear(t: Pair, m: int)
    requires m > 1 && IsOdd(t.u) && IsOdd(t.v) && 0 < t.u < t.v
    requires -4 * m - 4 <= 4 * t.b <= 4 * m && -4 * m <= 4 * t.d <= 4
    ensures var r := Subtract(t, m);
            Near(r.u, r.b, 3 * m, m) && Near(r.v, r.d, 3 * m, m) && r.u == t.u && 0 < r.v < t.v && !IsOdd(r.v)
  {
  }

  lemma DoublePower(n: nat)
    ensures Pow2(2 * n) == Pow2(n) * Pow2(n)
  {
    hide *;
    var k := n + n;
    Pow2Add(n, n);
    assert k == 2 * n && Pow2(k) == Pow2(n) * Pow2(n);
  }

  lemma ProductBelow(a: int, b: int, p: int)
    requires 0 < a < p && 0 < b < p
    ensures 0 < a * b < p * p
  {
    SmallerProduct(a, b, p - 1, p);
    DistribSum(p, p, -1);
  }

  lemma QuartersOut(k: nat, n: nat, d: int, m: int)
    requires m > 0 && k < 2 * n && -(3 * m + (k - 1) * m) - 3 * m <= 4 * d <= 3 * m + (k - 1) * m + m
    ensures Ranges(d, m, n)
  {
    DistribSum(m, k, -1);
    DistribSum(m, 2 * n, 4);
    DistribSum(m, 2 * n, 2);
    DistribSum(m, k + 1, 2 * n - (k + 1));
    DistribSum(m, k, 1);
    assert -(2 * n + 4) * m == -((2 * n + 4) * m);
    MulNonNegative(2 * n - (k + 1), m);
  }

  /** However large m is: with the odd part of x below 2^n the result is at most (n - 2) / 2 moduli below 0 or (n - 1) / 2 above. */
  lemma InverseWithinSmall(x: int, m: int, n: nat)
    requires x > 0 && m > 1 && n > 0 && OddPart(x) < Pow2(n)
    ensures var r := InverseOf(x, m); (0 <= r || -(n - 2) * m <= 2 * r) && (r < m || 2 * r <= (n - 1) * m)
  {
    hide *;
    ResultIs(x, m);
    if IsOdd(x) || IsOdd(m) {
      var s := Start(x, m);
      StartKeeps(x, m);
      StartWithin(x, m);
      SecondBelow(s, x, m, n);
      HalvesOff(n, Run(s, x, m).d, m);
    }
  }

  lemma StartWithin(x: int, m: int)
    requires x > 0 && m > 1 && Keeps(Pair(m, x, 1, 0, 0, 1), x, m)
    ensures Within(Pair(m, x, 1, 0, 0, 1), x, m, -4 * m - 4, 4 * m, -4 * m, 4)
    ensures Within(Pair(m, x, 1, 0, 0, 1), x, m, -4 * m, 0, -4 * m, 4 * m)
  {
    hide Keeps;
  }

  lemma HalvesOff(n: int, d: int, m: int)
    requires m > 0 && n >= 0 && Ranges(d, m, n)
    ensures var r := Adjust(d, m); (0 <= r || -(n - 2) * m <= 2 * r) && (r < m || 2 * r <= (n - 1) * m)
  {
    var nm := n * m;
    assert (2 * n + 4) * m == 2 * nm + 4 * m && (2 * n + 2) * m == 2 * nm + 2 * m by {
      DistribSum(m, 2 * n, 4);
      DistribSum(m, 2 * n, 2);
      MulAssoc(2, n, m);
    }
    assert -(2 * n + 4) * m == -((2 * n + 4) * m);
    assert -(n - 2) * m == 2 * m - nm by { DistribSum(m, n, -2); }
    assert (n - 1) * m == nm - m by { DistribSum(m, n, -1); }
  }
}
