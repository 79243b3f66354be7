/**
  The binary modular inverse on plain integers: the pair (u, v) is reduced to
  (0, gcd) while coefficients keep u = b x and v = d x modulo m.  For an even m
  the coefficients a and c of m are kept as well, and the equations are exact.
*/
module InverseSteps {
  import opened JsInt
  import opened BigShifts
  import opened Congruence
  import opened Divisors

  datatype Pair = Pair(u: int, v: int, a: int, b: int, c: int, d: int)

  function IsOdd(n: int): bool {
    n % 2 != 0
  }

  /** One halving of u. */
  function HalveUOnce(s: Pair, x: int, m: int): Pair {
    if m % 2 == 0 then
      var fix := IsOdd(s.a) || IsOdd(s.b);
      s.(u := s.u / 2, a := (if fix then s.a + x else s.a) / 2, b := (if fix then s.b - m else s.b) / 2)
    else
      s.(u := s.u / 2, b := (if IsOdd(s.b) then s.b - m else s.b) / 2)
  }

  function HalveU(s: Pair, x: int, m: int): (r: Pair)
    requires s.u > 0
    ensures 0 < r.u <= s.u && IsOdd(r.u) && r.v == s.v
    decreases s.u
  {
    if IsOdd(s.u) then s else HalveU(HalveUOnce(s, x, m), x, m)
  }

  /** The same for v: the roles are exchanged. */
  function Swap(s: Pair): Pair {
    Pair(s.v, s.u, s.c, s.d, s.a, s.b)
  }

  function HalveV(s: Pair, x: int, m: int): (r: Pair)
    requires s.v > 0
    ensures 0 < r.v <= s.v && IsOdd(r.v) && r.u == s.u
  {
    Swap(HalveU(Swap(s), x, m))
  }

  /** The smaller of the two is taken off the larger. */
  function Subtract(s: Pair, m: int): Pair {
    if s.u >= s.v then
      s.(u := s.u - s.v, a := if m % 2 == 0 then s.a - s.c else s.a, b := s.b - s.d)
    else
      s.(v := s.v - s.u, c := if m % 2 == 0 then s.c - s.a else s.c, d := s.d - s.b)
  }

  /** One round of the loop. */
  function Round(s: Pair, x: int, m: int): Pair
    requires s.u > 0 && s.v > 0
  {
    Subtract(HalveV(HalveU(s, x, m), x, m), m)
  }

  function Run(s: Pair, x: int, m: int): (r: Pair)
    requires s.u >= 0 && s.v > 0
    ensures r.u == 0 && r.v > 0
    decreases s.u + s.v
  {
    if s.u == 0 then s
    else Run(Round(s, x, m), x, m)
  }

  /** The last coefficient, brought back towards [0, m) by at most two steps. */
  function Adjust(d: int, m: int): int {
    if d >= m then d - m
    else if d >= 0 then d
    else if d + m < 0 then d + m + m
    else d + m
  }

  /** What `modInverse` returns. */
  function InverseOf(x: int, m: int): int
    requires x > 0 && m >= 0
  {
    if (x % 2 == 0 && m % 2 == 0) || m == 0 then 0
    else
      var s := Run(Pair(m, x, 1, 0, 0, 1), x, m);
      if s.v != 1 then 0 else Adjust(s.d, m)
  }

  // ----- the invariant -----

  ghost predicate Keeps(s: Pair, x: int, m: int) {
    && s.u >= 0 && s.v > 0 && (IsOdd(s.u) || IsOdd(s.v))
    && (forall h :: IsGcd(h, s.u, s.v) ==> IsGcd(h, m, x))
    && Congr(s.u, s.b * x, m) && Congr(s.v, s.d * x, m)
    && (m % 2 == 0 ==> IsOdd(x) && s.u == s.a * m + s.b * x && s.v == s.c * m + s.d * x)
  }

  lemma KeepsSwap(s: Pair, x: int, m: int)
    requires Keeps(s, x, m) && s.u > 0
    ensures Keeps(Swap(s), x, m)
  {
    forall h | IsGcd(h, s.v, s.u) ensures IsGcd(h, m, x) {
      GcdSym(h, s.v, s.u);
    }
  }

  lemma EvenSum(a: int, b: int, m: int, x: int)
    requires m % 2 == 0 && IsOdd(x) && (a * m + b * x) % 2 == 0
    ensures b % 2 == 0
  {
    var k, j := m / 2, x / 2;
    assert m == 2 * k && x == 2 * j + 1;
    MulAssoc(a, 2, k);
    DistribSum(b, 2 * j, 1);
    MulAssoc(b, 2, j);
    assert a * m + b * x == 2 * (a * k) + 2 * (b * j) + b;
  }

  /** Adding x to a and taking m from b leaves a m + b x alone. */
  lemma Shifted(a: int, b: int, x: int, m: int)
    ensures (a + x) * m + (b - m) * x == a * m + b * x
  {
    DistribSum(m, a, x);
    DistribSum(x, b, -m);
  }

  lemma HalfSum(a: int, b: int, x: int, m: int, u: int)
    requires 2 * u == (2 * a) * m + (2 * b) * x
    ensures u == a * m + b * x
  {
    MulAssoc(2, a, m);
    MulAssoc(2, b, x);
  }

  /** For odd m, twice u congruent to (2 b) x gives u congruent to b x. */
  lemma HalfCongr(u: int, b: int, x: int, m: int)
    requires m % 2 == 1 && m > 0 && Congr(2 * u, (2 * b) * x, m)
    ensures Congr(u, b * x, m)
  {
    MulAssoc(2, b, x);
    assert (2 * b) * x == (b * x) * 2;
    CongrBy(2 * ((m + 1) / 2), 1, m, 1);
    CongrCancel(u, b * x, 2, (m + 1) / 2, m);
  }

  lemma HalfSumOf(a: int, b: int, a2: int, b2: int, u2: int, x: int, m: int)
    requires a2 == 2 * a && b2 == 2 * b && u2 % 2 == 0 && u2 == a2 * m + b2 * x
    ensures u2 / 2 == a * m + b * x
  {
    HalfSum(a, b, x, m, u2 / 2);
  }

  /** Even m: the halved equation is exact again. */
  lemma HalveExact(s: Pair, x: int, m: int)
    requires m % 2 == 0 && IsOdd(x) && s.u % 2 == 0 && s.u == s.a * m + s.b * x
    ensures var r := HalveUOnce(s, x, m); r.u == r.a * m + r.b * x
  {
    EvenSum(s.a, s.b, m, x);
    var r := HalveUOnce(s, x, m);
    if IsOdd(s.a) {
      Shifted(s.a, s.b, x, m);
      HalfSumOf(r.a, r.b, s.a + x, s.b - m, s.u, x, m);
    } else {
      HalfSumOf(r.a, r.b, s.a, s.b, s.u, x, m);
    }
  }

  /** Odd m: the halved congruence. */
  lemma HalveModulo(s: Pair, x: int, m: int)
    requires m % 2 == 1 && m > 0 && s.u % 2 == 0 && Congr(s.u, s.b * x, m)
    ensures var r := HalveUOnce(s, x, m); Congr(r.u, r.b * x, m)
  {
    hide Congr;
    var r := HalveUOnce(s, x, m);
    var fixed := if IsOdd(s.b) then s.b - m else s.b;
    assert fixed == 2 * r.b && s.u == 2 * r.u;
    FixedCongr(s.u, s.b, fixed, x, m);
    HalfCongr(r.u, r.b, x, m);
  }

  lemma HalveUOnceKeeps(s: Pair, x: int, m: int)
    requires m > 0 && Keeps(s, x, m) && s.u > 0 && !IsOdd(s.u)
    ensures Keeps(HalveUOnce(s, x, m), x, m)
  {
    hide Congr, IsGcd;
    var r := HalveUOnce(s, x, m);
    assert s.u == 2 * r.u && r.v == s.v && r.c == s.c && r.d == s.d;
    forall h | IsGcd(h, r.u, r.v) ensures IsGcd(h, m, x) {
      GcdDouble(h, r.u, s.v);
    }
    if m % 2 == 0 {
      HalveExact(s, x, m);
      CongrBy(r.u, r.b * x, m, r.a);
    } else {
      HalveModulo(s, x, m);
    }
  }

  lemma FixedCongr(u: int, b: int, fixed: int, x: int, m: int)
    requires Congr(u, b * x, m) && (fixed == b || fixed == b - m)
    ensures Congr(u, fixed * x, m)
  {
    if fixed != b {
      DistribSum(x, b, -m);
      CongrBy(b * x, fixed * x, m, x);
      CongrTrans(u, b * x, fixed * x, m);
    }
  }

  lemma {:induction false} HalveUKeeps(s: Pair, x: int, m: int)
    requires m > 0 && Keeps(s, x, m) && s.u > 0
    ensures Keeps(HalveU(s, x, m), x, m)
    decreases s.u
  {
    if !IsOdd(s.u) {
      HalveUOnceKeeps(s, x, m);
      HalveUKeeps(HalveUOnce(s, x, m), x, m);
    }
  }

  /** Differences of two such equations. */
  lemma MinusExact(u: int, a: int, b: int, v: int, c: int, d: int, x: int, m: int)
    requires u == a * m + b * x && v == c * m + d * x
    ensures u - v == (a - c) * m + (b - d) * x
  {
    DistribSum(m, a, -c);
    DistribSum(m, c, -c);
    DistribSum(x, b, -d);
    DistribSum(x, d, -d);
  }

  lemma MinusModulo(u: int, b: int, v: int, d: int, x: int, m: int)
    requires Congr(u, b * x, m) && Congr(v, d * x, m)
    ensures Congr(u - v, (b - d) * x, m)
  {
    CongrAdd(u, b * x, v, d * x, m);
    DistribSum(x, b, -d);
    DistribSum(x, d, -d);
  }

  lemma SubtractKeeps(s: Pair, x: int, m: int)
    requires m > 0 && Keeps(s, x, m) && s.u > 0 && IsOdd(s.u) && IsOdd(s.v)
    ensures Keeps(Subtract(s, m), x, m)
  {
    if s.u >= s.v {
      SubtractUKeeps(s, x, m);
    } else {
      KeepsSwap(s, x, m);
      SubtractUKeeps(Swap(s), x, m);
      var r := Subtract(Swap(s), m);
      assert Subtract(s, m) == Swap(r);
      KeepsSwap(r, x, m);
    }
  }

  lemma SubtractUKeeps(s: Pair, x: int, m: int)
    requires m > 0 && Keeps(s, x, m) && IsOdd(s.u) && IsOdd(s.v) && s.u >= s.v
    ensures Keeps(Subtract(s, m), x, m)
  {
    hide Congr, IsGcd;
    var r := Subtract(s, m);
    MinusModulo(s.u, s.b, s.v, s.d, x, m);
    if m % 2 == 0 {
      MinusExact(s.u, s.a, s.b, s.v, s.c, s.d, x, m);
    }
    forall h | IsGcd(h, r.u, r.v) ensures IsGcd(h, m, x) {
      GcdMinus(h, s.u, s.v);
    }
  }

  lemma {:induction false} RunKeeps(s: Pair, x: int, m: int)
    requires m > 0 && Keeps(s, x, m)
    ensures Keeps(Run(s, x, m), x, m)
    decreases s.u + s.v
  {
    hide Keeps;
    assert s.u >= 0 && s.v > 0 by { KeepsSigns(s, x, m); }
    if s.u != 0 {
      var t := HalveU(s, x, m);
      HalveUKeeps(s, x, m);
      KeepsSwap(t, x, m);
      var w := HalveU(Swap(t), x, m);
      HalveUKeeps(Swap(t), x, m);
      KeepsSwap(w, x, m);
      SubtractKeeps(Swap(w), x, m);
      RunKeeps(Subtract(Swap(w), m), x, m);
    }
  }

  lemma KeepsSigns(s: Pair, x: int, m: int)
    requires Keeps(s, x, m)
    ensures s.u >= 0 && s.v > 0
  {
  }

  lemma AdjustCongr(d: int, m: int)
    ensures Congr(Adjust(d, m), d, m)
  {
    CongrBy(Adjust(d, m), d, m, if d >= m then -1 else if d >= 0 then 0 else if d + m < 0 then 2 else 1);
  }

  /** The whole contract: zero exactly when there is no inverse, otherwise an inverse. */
  lemma InverseCorrect(x: int, m: int)
    requires x > 0 && m > 1
    ensures InverseOf(x, m) == 0 <==> !IsGcd(1, x, m)
    ensures InverseOf(x, m) != 0 ==> Congr(InverseOf(x, m) * x, 1, m)
  {
    if x % 2 == 0 && m % 2 == 0 {
      EvenNotCoprime(x, m);
    } else {
      var s0 := Pair(m, x, 1, 0, 0, 1);
      StartKeeps(x, m);
      RunKeeps(s0, x, m);
      var s := Run(s0, x, m);
      GcdZero(s.v);
      GcdSym(s.v, m, x);
      if s.v == 1 {
        AdjustCongr(s.d, m);
        CongrScale(Adjust(s.d, m), s.d, x, m);
        CongrSym(1, s.d * x, m);
        CongrTrans(Adjust(s.d, m) * x, s.d * x, 1, m);
        ZeroNotOne(m);
      } else if IsGcd(1, x, m) {
        GcdUnique(1, s.v, x, m);
      }
    }
  }

  lemma StartKeeps(x: int, m: int)
    requires x > 0 && m > 1 && (IsOdd(x) || IsOdd(m))
    ensures Keeps(Pair(m, x, 1, 0, 0, 1), x, m)
  {
    CongrBy(m, 0 * x, m, 1);
    CongrRefl(x, m);
  }

  lemma EvenNotCoprime(x: int, m: int)
    requires x % 2 == 0 && m % 2 == 0
    ensures !IsGcd(1, x, m)
  {
    DividesBy(2, x, x / 2);
    DividesBy(2, m, m / 2);
    assert CommonDivisor(2, x, m);
    assert !Divides(2, 1);
  }

  lemma ZeroNotOne(m: int)
    requires m > 1
    ensures !Congr(0, 1, m)
  {
    forall k: int ensures 0 != 1 + k * m {
      if k <= -1 {
        MulAtLeast(-k, m);
        DistribSum(m, k, -k);
      } else if k >= 1 {
        MulAtLeast(k, m);
      }
    }
  }

  /** The result is the canonical residue exactly when the last coefficient lies within two moduli. */
  lemma AdjustCanonical(d: int, m: int)
    requires m > 0
    ensures 0 <= Adjust(d, m) < m <==> -2 * m <= d < 2 * m
  {
  }

  lemma RunEnd(s: Pair, x: int, m: int)
    requires s.u == 0 && s.v > 0
    ensures Run(s, x, m) == s
  {
  }

  lemma RoundShrinks(s: Pair, x: int, m: int)
    requires s.u > 0 && s.v > 0
    ensures var r := Round(s, x, m); r.u >= 0 && r.v > 0 && r.u + r.v < s.u + s.v
  {
  }

  lemma RunRound(s: Pair, x: int, m: int)
    requires s.u > 0 && s.v > 0
    ensures Run(s, x, m) == Run(Round(s, x, m), x, m)
  {
  }

  /** The range is not kept: the inverse of 1748 modulo 3659 comes out as -651. */
  lemma NotCanonical()
    ensures InverseOf(1748, 3659) == -651
  {
    assert Round(Pair(3659, 1748, 1, 0, 0, 1), 1748, 3659) == Pair(3222, 437, 1, 2744, 0, -2744);
    assert Round(Pair(3222, 437, 1, 2744, 0, -2744), 1748, 3659) == Pair(1174, 437, 1, 4116, 0, -2744);
    assert Round(Pair(1174, 437, 1, 4116, 0, -2744), 1748, 3659) == Pair(150, 437, 1, 4802, 0, -2744);
    assert Round(Pair(150, 437, 1, 4802, 0, -2744), 1748, 3659) == Pair(75, 362, 1, 2401, 0, -5145);
    assert Round(Pair(75, 362, 1, 2401, 0, -5145), 1748, 3659) == Pair(75, 106, 1, 2401, 0, -6803);
    assert Round(Pair(75, 106, 1, 2401, 0, -6803), 1748, 3659) == Pair(22, 53, 1, 7632, 0, -5231);
    assert Round(Pair(22, 53, 1, 7632, 0, -5231), 1748, 3659) == Pair(11, 42, 1, 3816, 0, -9047);
    assert Round(Pair(11, 42, 1, 3816, 0, -9047), 1748, 3659) == Pair(11, 10, 1, 3816, 0, -10169);
    assert Round(Pair(11, 10, 1, 3816, 0, -10169), 1748, 3659) == Pair(6, 5, 1, 10730, 0, -6914);
    assert Round(Pair(6, 5, 1, 10730, 0, -6914), 1748, 3659) == Pair(3, 2, 1, 5365, 0, -12279);
    assert Round(Pair(3, 2, 1, 5365, 0, -12279), 1748, 3659) == Pair(2, 1, 1, 13334, 0, -7969);
    assert Round(Pair(2, 1, 1, 13334, 0, -7969), 1748, 3659) == Pair(0, 1, 1, 14636, 0, -7969);
    assert Run(Pair(0, 1, 1, 14636, 0, -7969), 1748, 3659) == Pair(0, 1, 1, 14636, 0, -7969);
    RunRound(Pair(2, 1, 1, 13334, 0, -7969), 1748, 3659);
    RunRound(Pair(3, 2, 1, 5365, 0, -12279), 1748, 3659);
    RunRound(Pair(6, 5, 1, 10730, 0, -6914), 1748, 3659);
    RunRound(Pair(11, 10, 1, 3816, 0, -10169), 1748, 3659);
    RunRound(Pair(11, 42, 1, 3816, 0, -9047), 1748, 3659);
    RunRound(Pair(22, 53, 1, 7632, 0, -5231), 1748, 3659);
    RunRound(Pair(75, 106, 1, 2401, 0, -6803), 1748, 3659);
    RunRound(Pair(75, 362, 1, 2401, 0, -5145), 1748, 3659);
    RunRound(Pair(150, 437, 1, 4802, 0, -2744), 1748, 3659);
    RunRound(Pair(1174, 437, 1, 4116, 0, -2744), 1748, 3659);
    RunRound(Pair(3222, 437, 1, 2744, 0, -2744), 1748, 3659);
    RunRound(Pair(3659, 1748, 1, 0, 0, 1), 1748, 3659);
  }
}
