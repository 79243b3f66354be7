/** The arithmetic behind shifting a digit array by bits and comparing two of them. */
module BigShifts {
  import opened JsInt
  import opened BigDigits

  lemma DistribSum(p: int, a: int, b: int)
    ensures p * (a + b) == p * a + p * b
    ensures (a + b) * p == a * p + b * p
  {
  }

  lemma MulAssoc(a: int, b: int, c: int)
    ensures a * (b * c) == (a * b) * c
    ensures a * (b * c) == b * (a * c)
  {
  }

  lemma MulNonNegative(a: int, b: int)
    requires a >= 0 && b >= 0
    ensures a * b >= 0
  {
    MulMono(0, a, b);
  }

  lemma DivModDef(x: int, p: int)
    requires p > 0
    ensures x == p * (x / p) + x % p && x == (x / p) * p + x % p
    ensures 0 <= x % p < p
  {
  }

  /** p * (v q b) with p q = DV */
  lemma Carried(p: int, q: int, v: int, b: int)
    requires p * q == DV
    ensures p * ((v * q) * b) == v * (DV * b)
  {
    calc {
      p * ((v * q) * b);
      { MulAssoc(v, q, b); }
      p * (v * (q * b));
      { MulAssoc(p, v, q * b); }
      v * (p * (q * b));
      { MulAssoc(p, q, b); }
      v * ((p * q) * b);
    }
  }

  /** A word is p times its high part plus its low part, at any power. */
  lemma Rejoined(p: int, h: int, v: int, w: int, b: int)
    requires w == p * h + v
    ensures p * (h * b) + v * b == w * b
  {
    MulAssoc(p, h, b);
    DistribSum(b, p * h, v);
  }

  // ----- right shift: p = 2^bs, q = 2^(28-bs) -----

  /** After m digits the result, still missing the bits of the next digit, is the operand without its lowest bits, over p. */
  ghost predicate ShiftedRight(d: Digits, x: Digits, ds: nat, m: nat, bs: nat)
    requires bs < 28
  {
    && m >= 1 && IsDigits(x, ds, m) && IsDigits(d, 0, m)
    && d[m - 1] == x[ds + m - 1] / Pow2(bs)
    && Pow2(bs) * Val(d, 0, m) == Val(x, ds, m) - x[ds] % Pow2(bs)
  }

  lemma RightStart(d: Digits, x: Digits, ds: nat, bs: nat)
    requires bs < 28 && IsDigits(x, ds, 1)
    ensures ShiftedRight(d[0 := x[ds] / Pow2(bs)], x, ds, 1, bs)
  {
    var p := Pow2(bs);
    PowPair(bs);
    DivBound(x[ds], p, Pow2(28 - bs));
    MulAtLeast(Pow2(28 - bs), p);
    ValPut(d, 0, 0, x[ds] / p);
    assert PowB(0) == 1;
    assert Val(x, ds, 1) == Val(x, ds, 0) + x[ds] * PowB(0);
    DivModDef(x[ds], p);
    assert x[ds] / p < DV by {
      assert Pow2(28 - bs) <= p * Pow2(28 - bs) by { MulAtLeast(p, Pow2(28 - bs)); }
    }
  }

  /** Bits v, below p, fit above the q-bounded part of a digit. */
  lemma FillFits(bs: nat, w: int, v: int)
    requires bs < 28 && 0 <= w < DV && 0 <= v < Pow2(bs)
    ensures 0 <= w / Pow2(bs) < Pow2(28 - bs)
    ensures 0 <= v * Pow2(28 - bs) <= DV - Pow2(28 - bs)
    ensures Or(w / Pow2(bs), v * Pow2(28 - bs)) == w / Pow2(bs) + v * Pow2(28 - bs)
  {
    var p, q := Pow2(bs), Pow2(28 - bs);
    PowPair(bs);
    DivBound(w, p, q);
    MulMono(v, p - 1, q);
    DistribSum(q, p, -1);
    MulMono(0, v, q);
    OrDisjoint(w / p, v, 28 - bs);
  }

  /** Bits v, below 2^bs, enter the top of digit m-1. */
  lemma RightFill(d: Digits, x: Digits, ds: nat, m: nat, bs: nat, v: int)
    requires bs < 28 && ShiftedRight(d, x, ds, m, bs)
    requires 0 <= v < Pow2(bs)
    ensures IsInt32(v * Pow2(28 - bs))
    ensures Or(d[m - 1], v * Pow2(28 - bs)) == d[m - 1] + v * Pow2(28 - bs)
    ensures var e := d[m - 1 := d[m - 1] + v * Pow2(28 - bs)];
      && IsDigits(e, 0, m)
      && Pow2(bs) * Val(e, 0, m) == Val(x, ds, m) - x[ds] % Pow2(bs) + v * PowB(m)
  {
    hide Pow2, Or;
    FillFits(bs, x[ds + m - 1], v);
    PowPair(bs);
    var p, q, b := Pow2(bs), Pow2(28 - bs), PowB(m - 1);
    var e := d[m - 1 := d[m - 1] + v * q];
    ValSame(d, e, 0, m - 1);
    DistribSum(b, d[m - 1], v * q);
    DistribSum(p, Val(d, 0, m), (v * q) * b);
    Carried(p, q, v, b);
  }

  /** The next digit, shifted. */
  lemma RightNext(d: Digits, x: Digits, ds: nat, m: nat, bs: nat)
    requires bs < 28 && ShiftedRight(d, x, ds, m, bs)
    requires IsDigits(x, ds, m + 1)
    ensures m - 1 in d && IsInt32((x[ds + m] % Pow2(bs)) * Pow2(28 - bs))
    ensures var v := x[ds + m] % Pow2(bs);
      Or(d[m - 1], v * Pow2(28 - bs)) == d[m - 1] + v * Pow2(28 - bs)
    ensures var v := x[ds + m] % Pow2(bs);
      ShiftedRight(d[m - 1 := d[m - 1] + v * Pow2(28 - bs)][m := x[ds + m] / Pow2(bs)], x, ds, m + 1, bs)
  {
    var p, q := Pow2(bs), Pow2(28 - bs);
    var w := x[ds + m];
    var v := w % p;
    RightFill(d, x, ds, m, bs, v);
    var e := d[m - 1 := d[m - 1] + v * q];
    PowPair(bs);
    DivBound(w, p, q);
    MulAtLeast(p, q);
    ValPut(e, 0, m, w / p);
    DistribSum(p, Val(e, 0, m), (w / p) * PowB(m));
    DivModDef(w, p);
    Rejoined(p, w / p, v, w, PowB(m));
  }

  /** Dropping the low part of a number is division. */
  lemma FloorDiv(v: int, p: int, r: int, low: int)
    requires p > 0 && p * r == v - low && 0 <= low < p
    ensures v / p == r
  {
    DivModUnique(v, p, r, low);
  }

  lemma DivDiv(v: int, a: int, b: int)
    requires a > 0 && b > 0
    ensures a * b > 0 && v / (a * b) == (v / a) / b
  {
    MulAtLeast(a, b);
    var q, r := v / a, v % a;
    var q', r' := q / b, q % b;
    assert v == q * a + r;
    assert q == q' * b + r';
    assert v == (q' * b + r') * a + r;
    assert (q' * b + r') * a == q' * (a * b) + r' * a;
    MulMono(r', b - 1, a);
    MulMono(0, r', a);
    assert (b - 1) * a == a * b - a;
    DivModUnique(v, a * b, q', r' * a + r);
  }

  /** The digits from ds on, shifted by bs bits and closed with the sign bits, are the number over 2^(28 ds + bs). */
  lemma RightTotal(d: Digits, x: Digits, ds: nat, m: nat, bs: nat, s: int)
    requires bs < 28 && m >= 1 && (s == 0 || s == -1) && IsDigits(x, 0, ds + m) && IsDigits(d, 0, m)
    requires Pow2(bs) * Val(d, 0, m) == Val(x, ds, m) - x[ds] % Pow2(bs) + (s % Pow2(bs)) * PowB(m)
    ensures Val(d, 0, m) + s * PowB(m) == (Val(x, 0, ds + m) + s * PowB(ds + m)) / Pow2(28 * ds + bs)
  {
    hide Pow2, Val;
    var p, b, a := Pow2(bs), PowB(m), PowB(ds);
    var high := Val(x, ds, m) + s * b;
    SignBits(s, p);
    DivModDef(x[ds], p);
    DistribSum(p, Val(d, 0, m), s * b);
    MulAssoc(p, s, b);
    DistribSum(b, s % p, p * s);
    FloorDiv(high, p, Val(d, 0, m) + s * b, x[ds] % p);
    ValSplit(x, 0, ds, m);
    ValBound(x, 0, ds);
    PowBAdd(ds, m);
    MulAssoc(s, a, b);
    DistribSum(a, Val(x, ds, m), s * b);
    FloorDiv(Val(x, 0, ds + m) + s * PowB(ds + m), a, high, Val(x, 0, ds));
    DivDiv(Val(x, 0, ds + m) + s * PowB(ds + m), a, p);
    PowBIsPow2(ds);
    Pow2Add(28 * ds, bs);
  }

  lemma SignBits(s: int, p: int)
    requires (s == 0 || s == -1) && p > 0
    ensures s % p + p * s == s
  {
    if s == -1 {
      DivModUnique(-1, p, -1, p - 1);
    }
  }

  /** Shifting out every digit leaves the sign. */
  lemma RightAll(x: Digits, t: nat, s: int, n: nat)
    requires (s == 0 || s == -1) && IsDigits(x, 0, t) && 28 * t <= n
    ensures (Val(x, 0, t) + s * PowB(t)) / Pow2(n) == s
  {
    hide Pow2, Val;
    ValBound(x, 0, t);
    PowBIsPow2(t);
    Pow2AtMost(28 * t, n);
    var v := Val(x, 0, t) + s * PowB(t);
    DivModUnique(v, Pow2(n), s, v - s * Pow2(n));
  }

  // ----- left shift -----

  /** Digits i+1.. of x are written, shifted, from index at on; c holds the bits for the digit below. */
  ghost predicate ShiftedLeft(d: Digits, at: nat, x: Digits, i: nat, n: nat, c: int, bs: nat, top: int)
    requires bs < 28
  {
    && IsDigits(x, i, n) && IsDigits(d, at, n)
    && 0 <= c < DV && c % Pow2(bs) == 0
    && c + DV * Val(d, at, n) == Pow2(bs) * Val(x, i, n) + top * PowB(n)
  }

  /** The sign word's bits as the first carry. */
  lemma SignTop(bs: nat, s: int)
    requires bs < 28 && (s == 0 || s == -1)
    ensures IsInt32(s * Pow2(bs))
    ensures (s * Pow2(bs)) % DV % Pow2(bs) == 0
    ensures (s * Pow2(bs)) % DV + DV * s == s * Pow2(bs)
  {
    hide Pow2;
    var p, q := Pow2(bs), Pow2(28 - bs);
    PowPair(bs);
    MulAtLeast(q, p);
    if s == -1 {
      DistribSum(p, q, -1);
      DivModUnique(-p, DV, -1, DV - p);
      DivModUnique(DV - p, p, q - 1, 0);
    } else {
      assert s * p == 0;
      DivModUnique(0, p, 0, 0);
    }
  }

  lemma LeftStart(d: Digits, at: nat, x: Digits, i: nat, bs: nat, s: int)
    requires bs < 28 && (s == 0 || s == -1)
    ensures var top := (s * Pow2(bs)) % DV; ShiftedLeft(d, at, x, i, 0, top, bs, top)
  {
    hide Pow2;
    SignTop(bs, s);
  }

  lemma LeftTotalArith(a: int, p: int, X: int, top: int, b: int, s: int)
    requires top + DV * s == s * p
    ensures a * (p * X + top * b) + s * (a * (DV * b)) == (X + s * b) * (a * p)
  {
    calc {
      a * (p * X + top * b) + s * (a * (DV * b));
      { MulAssoc(s, a, DV * b); }
      a * (p * X + top * b) + a * (s * (DV * b));
      { DistribSum(a, p * X + top * b, s * (DV * b)); }
      a * (p * X + top * b + s * (DV * b));
      { MulAssoc(s, DV, b); DistribSum(b, top, DV * s); }
      a * (p * X + (s * p) * b);
      { MulAssoc(p, s, b); DistribSum(p, X, s * b); }
      a * (p * (X + s * b));
      { MulAssoc(a, p, X + s * b); }
      (a * p) * (X + s * b);
    }
  }

  /** Digits, zeros and sign put together: the number times 2^(28 ds + bs). */
  lemma LeftTotal(d: Digits, x: Digits, ds: nat, t: nat, c: int, bs: nat, s: int)
    requires bs < 28 && (s == 0 || s == -1)
    requires ShiftedLeft(d, ds + 1, x, 0, t, c, bs, (s * Pow2(bs)) % DV)
    requires IsDigits(d, 0, ds) && forall k :: 0 <= k < ds ==> d[k] == 0
    requires ds in d && d[ds] == c
    ensures Val(d, 0, ds + t + 1) + s * PowB(ds + t + 1) == (Val(x, 0, t) + s * PowB(t)) * Pow2(28 * ds + bs)
  {
    hide Pow2, Val;
    var p, top, X, b, a := Pow2(bs), (s * Pow2(bs)) % DV, Val(x, 0, t), PowB(t), PowB(ds);
    SignTop(bs, s);
    ValZero(d, 0, ds);
    ValSplit(d, 0, ds, t + 1);
    ValLow(d, ds, t + 1);
    PowBAdd(ds, t + 1);
    PowBIsPow2(ds);
    Pow2Add(28 * ds, bs);
    LeftTotalArith(a, p, X, top, b, s);
  }

  lemma LeftSum(p: int, q: int, w: int, hi: int, lo: int, c: int, vd: int, vx: int, top: int, b: int)
    requires p * q == DV && w == q * hi + lo
    requires c + DV * vd == p * vx + top * b
    ensures lo * p + DV * (hi + c + DV * vd) == p * (w + DV * vx) + top * (DV * b)
  {
    DistribSum(p, q * hi, lo);
    MulAssoc(p, q, hi);
    MulAssoc(DV, top, b);
    MulAssoc(p, DV, vx);
    DistribSum(p, w, DV * vx);
  }

  /** The low bits of a digit, moved up, and the room they leave below them. */
  lemma LeftFits(bs: nat, w: int, c: int)
    requires bs < 28 && 0 <= w < DV && 0 <= c < DV && c % Pow2(bs) == 0
    ensures var hi, lo := w / Pow2(28 - bs), w % Pow2(28 - bs);
      && 0 <= hi && hi + c < DV && Or(hi, c) == hi + c
      && 0 <= lo * Pow2(bs) < DV && lo * Pow2(bs) % Pow2(bs) == 0
  {
    var p, q := Pow2(bs), Pow2(28 - bs);
    PowPair(bs);
    var hi, lo := w / q, w % q;
    DivBound(w, q, p);
    DivModDef(c, p);
    var k := c / p;
    if k >= q {
      MulMono(q, k, p);
    }
    MulMono(k, q - 1, p);
    DistribSum(p, q, -1);
    OrDisjoint(hi, k, bs);
    MulMono(lo, q - 1, p);
    MulMono(0, lo, p);
    DivModUnique(lo * p, p, lo, 0);
  }

  lemma LeftNext(d: Digits, at: nat, x: Digits, i: nat, n: nat, c: int, bs: nat, top: int)
    requires at > 0 && i > 0 && bs < 28 && ShiftedLeft(d, at, x, i, n, c, bs, top)
    requires IsDigits(x, i - 1, n + 1)
    ensures var hi, lo := x[i - 1] / Pow2(28 - bs), x[i - 1] % Pow2(28 - bs);
      && Or(hi, c) == hi + c
      && IsInt32(lo * Pow2(bs))
      && ShiftedLeft(d[at - 1 := hi + c], at - 1, x, i - 1, n + 1, lo * Pow2(bs), bs, top)
  {
    hide Pow2, Or, Val;
    var p, q := Pow2(bs), Pow2(28 - bs);
    PowPair(bs);
    var w := x[i - 1];
    var hi, lo := w / q, w % q;
    LeftFits(bs, w, c);
    var e := d[at - 1 := hi + c];
    ValSame(d, e, at, n);
    ValLow(e, at - 1, n + 1);
    ValLow(x, i - 1, n + 1);
    DivModDef(w, q);
    LeftSum(p, q, w, hi, lo, c, Val(d, at, n), Val(x, i, n), top, PowB(n));
  }

  lemma ShiftedLeftElsewhere(d: Digits, at: nat, x: Digits, i: nat, n: nat, c: int, bs: nat, top: int, k: int, v: int)
    requires bs < 28 && ShiftedLeft(d, at, x, i, n, c, bs, top) && !(at <= k < at + n)
    ensures ShiftedLeft(d[k := v], at, x, i, n, c, bs, top)
  {
    ValSame(d, d[k := v], at, n);
  }

  // ----- comparison -----

  /** The highest digit that differs decides. */
  lemma {:induction false} TopDigitDecides(x: Digits, y: Digits, i: nat, n: nat)
    requires i < n && IsDigits(x, 0, n) && IsDigits(y, 0, n)
    requires x[i] < y[i] && forall k :: i < k < n ==> x[k] == y[k]
    ensures Val(x, 0, n) < Val(y, 0, n)
  {
    if i + 1 == n {
      ValBound(x, 0, i);
      ValBound(y, 0, i);
      MulMono(x[i] + 1, y[i], PowB(i));
      assert (x[i] + 1) * PowB(i) == x[i] * PowB(i) + PowB(i);
    } else {
      TopDigitDecides(x, y, i, n - 1);
    }
  }
}
