/** The arithmetic behind the half-word multiply, the two multiplication loops and Montgomery's reduction step. */
module BigMultiply {
  import opened JsInt
  import opened BigDigits
  import opened BigShifts

  /** The low and high half-words. */
  function Low14(x: int): (r: int)
    ensures r == x % 0x4000
  {
    Pow2Values();
    AndMask(x, 14);
    And(x, 0x3fff)
  }

  function High14(x: int): (r: int)
    ensures IsInt32(x) ==> r == x / 0x4000
  {
    Pow2Values();
    Shr(x, 14)
  }

  function Up14(x: int): (r: int)
    ensures IsInt32(x * 0x4000) ==> r == x * 0x4000
  {
    Pow2Values();
    Shl(x, 14)
  }

  /** (xh 2^14 + xl)(h 2^14 + l), expanded. */
  lemma HalfWords(xl: int, xh: int, l: int, h: int)
    ensures (xh * 0x4000 + xl) * (h * 0x4000 + l) == (xh * h) * 0x1000_0000 + (xh * l + h * xl) * 0x4000 + xl * l
  {
    DistribSum(h * 0x4000 + l, xh * 0x4000, xl);
    DistribSum(xh * 0x4000, h * 0x4000, l);
    DistribSum(xl, h * 0x4000, l);
    MulAssoc(xh * 0x4000, h, 0x4000);
    MulAssoc(xh, 0x4000, h);
    MulAssoc(xl, h, 0x4000);
    MulAssoc(xh, 0x4000, l);
  }

  /** One step of the half-word multiply: every intermediate fits in 32 bits and the word is exact. */
  lemma HalfWordStep(x: int, d: int, w: int, c: int)
    requires 0 <= x < 2 * DV && 0 <= d < DV && 0 <= w < DV && 0 <= c < 3 * DV
    ensures var xl, xh, l, h := x % 0x4000, x / 0x4000, d % 0x4000, d / 0x4000;
      var m := xh * l + h * xl;
      var v := xl * l + (m % 0x4000) * 0x4000 + w + c;
      && 0 <= m < TWO31 && 0 <= (m % 0x4000) * 0x4000 < TWO31 && 0 <= v < TWO31
      && v % DV + DV * (v / DV + m / 0x4000 + xh * h) == x * d + w + c
      && 0 <= v / DV + m / 0x4000 + xh * h < 3 * DV
      && (x < DV && c < DV ==> v / DV + m / 0x4000 + xh * h < DV)
      && (x <= 2 * DV - 2 && c <= 2 * DV - 2 ==> v / DV + m / 0x4000 + xh * h <= 2 * DV - 2)
  {
    var xl, xh, l, h := x % 0x4000, x / 0x4000, d % 0x4000, d / 0x4000;
    MulRange(xh, l, 0x7fff, 0x3fff);
    MulRange(h, xl, 0x3fff, 0x3fff);
    MulRange(xl, l, 0x3fff, 0x3fff);
    MulRange(xh, h, 0x7fff, 0x3fff);
    HalfWords(xl, xh, l, h);
    var m := xh * l + h * xl;
    var v := xl * l + (m % 0x4000) * 0x4000 + w + c;
    assert m == (m / 0x4000) * 0x4000 + m % 0x4000;
    assert v == (v / DV) * DV + v % DV;
    MulRange(x, d, 2 * DV - 1, DV - 1);
    if x < DV {
      MulRange(x, d, DV - 1, DV - 1);
    }
    if x <= 2 * DV - 2 {
      MulRange(x, d, 2 * DV - 2, DV - 1);
    }
  }

  /** The running total of `am` after n digits. */
  ghost predicate AmDone(w: Digits, w0: Digits, j: nat, x: int, d: Digits, i: nat, n: nat, c: int, c0: int) {
    && IsDigits(w, j, n) && IsDigits(w0, j, n) && IsDigits(d, i, n)
    && Val(w, j, n) + c * PowB(n) == Val(w0, j, n) + x * Val(d, i, n) + c0
  }

  lemma AmNext(w: Digits, w0: Digits, j: nat, x: int, d: Digits, i: nat, n: nat, c: int, c0: int, lo: int, c': int)
    requires AmDone(w, w0, j, x, d, i, n, c, c0)
    requires IsDigits(w0, j, n + 1) && IsDigits(d, i, n + 1)
    requires 0 <= lo < DV && lo + DV * c' == x * d[i + n] + w0[j + n] + c
    ensures AmDone(w[j + n := lo], w0, j, x, d, i, n + 1, c', c0)
  {
    var p := PowB(n);
    ValPut(w, j, n, lo);
    DistribSum(x, Val(d, i, n), d[i + n] * p);
    MulAssoc(x, d[i + n], p);
    MulAssoc(c', DV, p);
    DistribSum(p, lo, DV * c');
    DistribSum(p, x * d[i + n], w0[j + n] + c);
    DistribSum(p, w0[j + n], c);
  }

  /** A carry stored in the digit above a stretch. */
  lemma AmClose(w: Digits, w0: Digits, j: nat, x: int, d: Digits, i: nat, n: nat, c: int, c0: int, above: int)
    requires AmDone(w, w0, j, x, d, i, n, c, c0)
    ensures Val(w[j + n := above + c], j, n + 1) == Val(w0[j + n := above], j, n + 1) + x * Val(d, i, n) + c0
  {
    ValPut(w, j, n, above + c);
    ValPut(w0, j, n, above);
    DistribSum(PowB(n), above, c);
  }

  lemma StretchSum(p: int, low: int, mid: int, gain: int, q: int, high: int)
    ensures low + p * (mid + gain + q * high) == low + p * (mid + q * high) + p * gain
  {
    DistribSum(p, mid + q * high, gain);
  }

  /** Adding to a stretch adds that much, at its power, to the whole number. */
  lemma StretchGain(a: Digits, b: Digits, j: nat, n: nat, above: nat, gain: int)
    requires forall k :: 0 <= k < j + n + above ==> k in a && k in b
    requires forall k :: 0 <= k < j + n + above && !(j <= k < j + n) ==> a[k] == b[k]
    requires Val(b, j, n) == Val(a, j, n) + gain
    ensures Val(b, 0, j + n + above) == Val(a, 0, j + n + above) + PowB(j) * gain
  {
    hide Val, PowB;
    var total := j + (n + above);
    ValSplit(a, 0, j, n + above);
    ValSplit(b, 0, j, n + above);
    ValSplit(a, j, n, above);
    ValSplit(b, j, n, above);
    ValSame(a, b, 0, j);
    ValSame(a, b, j + n, above);
    StretchSum(PowB(j), Val(a, 0, j), Val(a, j, n), gain, PowB(n), Val(a, j + n, above));
  }

  /** Row i of the schoolbook product: the digits up to i + n hold X times the i lowest digits of y. */
  lemma ProductRow(w: Digits, w0: Digits, i: nat, y: Digits, x: Digits, n: nat, c: int)
    requires IsDigits(w0, 0, i + n) && (forall k :: 0 <= k <= i ==> k in y) && 0 <= c < DV
    requires forall k :: k < i ==> (k in w <==> k in w0) && (k in w ==> w[k] == w0[k])
    requires AmDone(w, w0, i, y[i], x, 0, n, c, 0)
    requires Val(w0, 0, i + n) == Val(x, 0, n) * Val(y, 0, i)
    ensures IsDigits(w[i + n := c], 0, i + n + 1)
    ensures Val(w[i + n := c], 0, i + n + 1) == Val(x, 0, n) * Val(y, 0, i + 1)
  {
    hide PowB;
    var X, p := Val(x, 0, n), PowB(i);
    ValPut(w, i, n, c);
    ValSplit(w[i + n := c], 0, i, n + 1);
    ValSame(w[i + n := c], w0, 0, i);
    ValSplit(w0, 0, i, n);
    DistribSum(p, Val(w0, i, n), y[i] * X);
    MulAssoc(p, y[i], X);
    MulAssoc(X, y[i], p);
    DistribSum(X, Val(y, 0, i), y[i] * p);
  }

  /** What remains of a square once the digits below i are accounted for. */
  ghost function SquareRest(x: Digits, i: nat, n: nat): int
    requires i <= n && forall k :: 0 <= k < n ==> k in x
  {
    PowB(2 * i) * (Val(x, i, n - i) * Val(x, i, n - i))
  }

  /** The two multiply-adds of row i remove digit i from the rest. */
  lemma SquareRow(x: Digits, i: nat, n: nat)
    requires i < n && forall k :: 0 <= k < n ==> k in x
    ensures SquareRest(x, i, n) == SquareRest(x, i + 1, n)
            + PowB(2 * i) * (x[i] * x[i]) + PowB(2 * i + 1) * (2 * x[i] * Val(x, i + 1, n - i - 1))
  {
    var u, v, p := x[i], Val(x, i + 1, n - i - 1), PowB(2 * i);
    ValLow(x, i, n - i);
    SquareOfSum(u, v);
    assert PowB(2 * i + 1) == DV * p;
    assert PowB(2 * (i + 1)) == DV * PowB(2 * i + 1);
    DistribSum(p, u * u + DV * (2 * u * v), DV * DV * (v * v));
    DistribSum(p, u * u, DV * (2 * u * v));
    MulAssoc(p, DV, 2 * u * v);
    MulAssoc(p, DV * DV, v * v);
  }

  lemma SquareOfSum(u: int, v: int)
    ensures (u + DV * v) * (u + DV * v) == u * u + DV * (2 * u * v) + DV * DV * (v * v)
  {
    DistribSum(u + DV * v, u, DV * v);
    DistribSum(u, u, DV * v);
    DistribSum(DV * v, u, DV * v);
    MulAssoc(u, DV, v);
    MulAssoc(DV * v, DV, v);
    MulAssoc(v, DV, u);
    MulAssoc(DV, v, v);
    assert 2 * u * v == 2 * (u * v);
  }

  /** A square of n digits has at most 2 n. */
  lemma SquareFits(x: Digits, n: nat)
    requires IsDigits(x, 0, n)
    ensures 0 <= Val(x, 0, n) * Val(x, 0, n) < PowB(2 * n)
  {
    ValBound(x, 0, n);
    var v, p := Val(x, 0, n), PowB(n);
    MulRange(v, v, p - 1, p - 1);
    DistribSum(p - 1, p, -1);
    DistribSum(p, p, -1);
    PowBAdd(n, n);
  }

  /** If the number fits in n digits, so does its top digit. */
  lemma TopFits(d: Digits, n: nat)
    requires n > 0 && IsDigits(d, 0, n - 1) && n - 1 in d && d[n - 1] >= 0
    requires Val(d, 0, n) < PowB(n)
    ensures IsDigits(d, 0, n)
  {
    ValBound(d, 0, n - 1);
    if d[n - 1] >= DV {
      MulMono(DV, d[n - 1], PowB(n - 1));
    }
  }

  // ----- lowest set bit -----

  predicate IsLowestBit(v: int, r: nat) {
    v % Pow2(r) == 0 && (v / Pow2(r)) % 2 == 1
  }

  lemma LowestBitOf(v: int, r: nat, odd: int)
    requires v == odd * Pow2(r) && odd % 2 == 1
    ensures IsLowestBit(v, r)
  {
    DivModUnique(v, Pow2(r), odd, 0);
  }

  /** Zero digits below a digit with lowest bit b. */
  lemma LowestBitOfDigits(d: Digits, t: nat, s: int, i: nat, b: nat)
    requires i < t && b < 28 && forall k :: 0 <= k < t ==> k in d
    requires (forall k :: 0 <= k < i ==> d[k] == 0) && IsLowestBit(d[i], b)
    ensures IsLowestBit(Val(d, 0, t) + s * PowB(t), 28 * i + b)
  {
    hide Val, Pow2;
    var n := t - i - 1;
    ValSplit(d, 0, i, t - i);
    ValZero(d, 0, i);
    ValLow(d, i, t - i);
    PowBAdd(i, n + 1);
    assert PowB(n + 1) == DV * PowB(n);
    var rest := Val(d, i + 1, n) + s * PowB(n);
    var p, q, a := Pow2(b), Pow2(27 - b), PowB(i);
    PowPair(b);
    assert Pow2(28 - b) == 2 * q by { NextPow2(27 - b); }
    var odd := d[i] / p + 2 * (q * rest);
    DivModDef(d[i], p);
    calc {
      Val(d, 0, t) + s * PowB(t);
      a * (d[i] + DV * Val(d, i + 1, n)) + s * (a * (DV * PowB(n)));
      { MulAssoc(s, a, DV * PowB(n)); DistribSum(a, d[i] + DV * Val(d, i + 1, n), s * (DV * PowB(n))); MulAssoc(s, DV, PowB(n)); }
      a * (d[i] + DV * rest);
      { OddPart(d[i] / p, p, q, rest); }
      a * (odd * p);
      { MulAssoc(a, odd, p); }
      odd * (a * p);
      { PowBIsPow2(i); Pow2Add(28 * i, b); }
      odd * Pow2(28 * i + b);
    }
    OddPlusEven(d[i] / p, q * rest);
    LowestBitOf(Val(d, 0, t) + s * PowB(t), 28 * i + b, odd);
  }

  lemma OddPlusEven(h: int, k: int)
    ensures (h + 2 * k) % 2 == h % 2
  {
  }

  lemma NextPow2(n: nat)
    ensures Pow2(n + 1) == 2 * Pow2(n)
  {
  }

  lemma OddPart(h: int, p: int, q: int, rest: int)
    requires p * (2 * q) == DV
    ensures h * p + DV * rest == (h + 2 * (q * rest)) * p
  {
    DistribSum(p, h, 2 * (q * rest));
    MulAssoc(2, q, rest);
    MulAssoc(p, 2 * q, rest);
  }

  /** A number whose digits are all zero is its sign word, shifted. */
  lemma LowestBitOfSign(d: Digits, t: nat)
    requires forall k :: 0 <= k < t ==> k in d && d[k] == 0
    ensures IsLowestBit(Val(d, 0, t) - PowB(t), 28 * t)
  {
    ValZero(d, 0, t);
    PowBIsPow2(t);
    LowestBitOf(-PowB(t), 28 * t, -1);
  }

}
