/** The inverse of an odd digit modulo 2^28 by Newton's iteration, doubling the correct bits. */
module NewtonInverse {
  import opened JsInt
  import opened BigDigits
  import opened BigShifts
  import opened Congruence

  /** JavaScript's `%`: the remainder takes the sign of the dividend. */
  function JsRem(a: int, m: int): (r: int)
    requires m > 0
    ensures -m < r < m && (a >= 0 ==> r == a % m) && (a <= 0 ==> r <= 0)
    ensures Congr(r, a, m)
  {
    RemCongr(a, m);
    if a >= 0 then a % m else -(-a % m)
  }

  lemma RemCongr(a: int, m: int)
    requires m > 0
    ensures Congr(a % m, a, m) && Congr(-(-a % m), a, m)
  {
    CongrMod(a, m);
    CongrMod(-a, m);
    CongrRefl(0, m);
    CongrAdd(0, 0, -a % m, -a, m);
  }

  /** Numbers a double holds exactly. */
  predicate IsSafe(x: int) {
    -0x20_0000_0000_0000 < x < 0x20_0000_0000_0000
  }

  lemma Newton(x: int, y: int, m: int)
    requires Congr(x * y, 1, m)
    ensures Congr(x * (y * (2 - x * y)), 1, m * m)
  {
    var k := CongrQuotient(x * y, 1, m);
    MulAssoc(x, y, 2 - x * y);
    var e := k * m;
    DistribSum(1 - e, 1, e);
    DistribSum(e, 1, -e);
    MulAssoc(k, m, k * m);
    MulAssoc(m, k, m);
    MulAssoc(k, k, m * m);
    assert e * e == (k * k) * (m * m);
    DistribSum(m * m, k * k, -(k * k));
    CongrBy(x * (y * (2 - x * y)), 1, m * m, -(k * k));
  }

  /** One iteration, on the operand cut to the modulus at hand. */
  lemma NewtonStep(x: int, xl: int, y: int, y': int, m: int, n: int, f: int)
    requires Congr(x * y, 1, m) && n * f == m * m
    requires Congr(xl, x, n) && Congr(y', y * (2 - xl * y), n)
    ensures Congr(x * y', 1, n)
  {
    Newton(x, y, m);
    CongrDivides(x * (y * (2 - x * y)), 1, n, f);
    CongrScale(xl, x, y, n);
    CongrRefl(2, n);
    CongrAdd(2, 2, xl * y, x * y, n);
    CongrScale(2 - xl * y, 2 - x * y, y, n);
    CongrTrans(y', y * (2 - xl * y), y * (2 - x * y), n);
    CongrScale(y', y * (2 - x * y), x, n);
    CongrTrans(x * y', x * (y * (2 - x * y)), 1, n);
  }

  lemma OddSquare(x: int)
    requires x % 2 == 1
    ensures Congr(x * (x % 4), 1, 4)
  {
    var q, r := x / 4, x % 4;
    DivModDef(x, 4);
    DistribSum(r, q * 4, r);
    MulAssoc(r, q, 4);
    if r == 1 {
      CongrBy(x * r, 1, 4, q * r);
    } else {
      CongrBy(x * r, 1, 4, q * r + 2);
    }
  }

  /** `-1/x mod 2^28` for an odd digit x, as `invDigit` computes it. */
  method InverseOfDigit(x: int) returns (r: int)
    requires 0 <= x < DV && x % 2 == 1
    ensures 0 <= r < DV && Congr(x * r, -1, DV)
  {
    hide LowBits, Congr, Pow2, JsRem;
    NewtonPowers();
    var y := LowBits(x, 2);
    OddSquare(x);
    MulRange(x % 16, y, 16, 4);
    var z := 2 - LowBits(x, 4) * y;
    CutStep(x, x % 16, y, y * z, 4, 16, 1);
    y := LowBits(y * z, 4);
    MulRange(x % 256, y, 256, 16);
    z := 2 - LowBits(x, 8) * y;
    CutStep(x, x % 256, y, y * z, 16, 256, 1);
    y := LowBits(y * z, 8);
    MulRange(x % 0x1_0000, y, 0x1_0000, 0x100);
    assert IsSafe(LowBits(x, 16) * y);
    z := 2 - LowBits(LowBits(x, 16) * y, 16);
    CutTwice(x, x % 0x1_0000, y, 0x100, 0x1_0000, 1);
    y := LowBits(y * z, 16);
    MulRange(x, y, DV, 0x1_0000);
    assert IsSafe(x * y);
    z := 2 - JsRem(x * y, DV);
    LastStep(x, y, z);
    y := JsRem(y * z, DV);
    r := if y > 0 then DV - y else -y;
    Negated(x, y, r);
  }

  lemma NewtonPowers()
    ensures Pow2(2) == 4 && Pow2(4) == 16 && Pow2(8) == 0x100 && Pow2(16) == 0x1_0000
  {
  }

  lemma CutStep(x: int, xl: int, y: int, yz: int, m: int, n: int, f: int)
    requires Congr(x * y, 1, m) && n * f == m * m && n > 0 && xl == x % n
    requires yz == y * (2 - xl * y)
    ensures Congr(x * (yz % n), 1, n)
  {
    CongrMod(x, n);
    CongrMod(yz, n);
    NewtonStep(x, xl, y, yz % n, m, n, f);
  }

  lemma CutTwice(x: int, xl: int, y: int, m: int, n: int, f: int)
    requires Congr(x * y, 1, m) && n * f == m * m && n > 0 && xl == x % n
    ensures Congr(x * ((y * (2 - xl * y % n)) % n), 1, n)
  {
    var z := xl * y % n;
    CongrMod(x, n);
    CongrMod(xl * y, n);
    CongrRefl(2, n);
    CongrAdd(2, 2, z, xl * y, n);
    CongrScale(2 - z, 2 - xl * y, y, n);
    CongrMod(y * (2 - z), n);
    CongrTrans((y * (2 - z)) % n, y * (2 - z), y * (2 - xl * y), n);
    NewtonStep(x, xl, y, (y * (2 - z)) % n, m, n, f);
  }

  lemma LastStep(x: int, y: int, z: int)
    requires 0 <= x < DV && 0 <= y < 0x1_0000 && Congr(x * y, 1, 0x1_0000)
    requires z == 2 - x * y % DV
    ensures IsSafe(y * z)
    ensures Congr(x * JsRem(y * z, DV), 1, DV)
  {
    hide Congr, JsRem;
    var w := x * y % DV;
    MulRange(y, w, 0x1_0000, DV);
    DistribSum(y, 2, -w);
    CongrMod(x * y, DV);
    CongrRefl(2, DV);
    CongrAdd(2, 2, w, x * y, DV);
    CongrScale(z, 2 - x * y, y, DV);
    CongrTrans(JsRem(y * z, DV), y * z, y * (2 - x * y), DV);
    CongrRefl(x, DV);
    NewtonStep(x, x, y, JsRem(y * z, DV), 0x1_0000, DV, 16);
  }

  lemma Negated(x: int, y: int, r: int)
    requires -DV < y < DV && Congr(x * y, 1, DV)
    requires r == if y > 0 then DV - y else -y
    ensures 0 <= r < DV && Congr(x * r, -1, DV)
  {
    var k := CongrQuotient(x * y, 1, DV);
    DistribSum(x, DV, -y);
    if y > 0 {
      CongrBy(x * r, -1, DV, x - k);
    } else {
      CongrBy(x * r, -1, DV, -k);
    }
  }
}
