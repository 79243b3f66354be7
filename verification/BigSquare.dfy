/** The rows of the product and square loops. */
module BigSquare {
  import opened BigDigits
  import opened BigShifts
  import opened BigMultiply
  import opened BigNumbers

  lemma AmStart(w: Digits, j: nat, x: int, d: Digits, i: nat, c0: int)
    ensures AmDone(w, w, j, x, d, i, 0, c0, c0)
  {
  }

  lemma ProductStart(d: Digits, x: Digits, n: nat, y: Digits)
    requires IsDigits(x, 0, n) && forall k :: 0 <= k < n ==> k in d && d[k] == 0
    ensures Val(d, 0, 0 + n) == Val(x, 0, n) * Val(y, 0, 0)
  {
    ValZero(d, 0, n);
  }

  /** The product of the absolute values, and the sign. */
  lemma SignOfProduct(v: int, w: int)
    ensures (if v < 0 then -v else v) * (if w < 0 then -w else w) == if (v < 0) == (w < 0) then v * w else -(v * w)
  {
    AddMul(v, 0, w);
    AddMul(w, 0, v);
    AddMul(w, 0, -v);
  }

  lemma SignedProduct(x: Digits, m: nat, sx: int, y: Digits, n: nat, sy: int)
    requires IsNum(x, m, sx) && IsNum(y, n, sy)
    ensures var v, w := NumVal(x, m, sx), NumVal(y, n, sy);
      (if v < 0 then -v else v) * (if w < 0 then -w else w) == if sx == sy then v * w else -(v * w)
  {
    hide Val, PowB, NumVal;
    SignWord(x, m, sx);
    SignWord(y, n, sy);
    SignOfProduct(NumVal(x, m, sx), NumVal(y, n, sy));
  }

  /** Before row i of the square: the digits hold all but the rest, and above i + n there is only a carry bit. */
  ghost predicate SquareSoFar(d: Digits, x: Digits, i: nat, n: nat) {
    && i <= n && IsDigits(x, 0, n) && IsDigits(d, 0, 2 * n)
    && (i < n ==> d[i + n] <= 1) && (forall k :: i + n < k < 2 * n ==> d[k] == 0)
    && Val(d, 0, 2 * n) + SquareRest(x, i, n) == Val(x, 0, n) * Val(x, 0, n)
  }

  lemma SquareStart(d: Digits, x: Digits, n: nat)
    requires IsDigits(x, 0, n) && forall k :: 0 <= k < 2 * n ==> k in d && d[k] == 0
    ensures SquareSoFar(d, x, 0, n)
  {
    ValZero(d, 0, 2 * n);
  }

  /** The digits that row i reads and writes. */
  lemma SquareReady(d: Digits, x: Digits, i: nat, n: nat)
    requires SquareSoFar(d, x, i, n)
    ensures IsDigits(x, 0, n) && IsDigits(d, 0, 2 * n)
  {
  }

  /** The digits after the last carry of a row is added at index k. */
  function WithCarry(w: Digits, k: nat, top: int): Digits {
    if top >= DV then w[k := top][k := top - DV][k + 1 := 1] else w[k := top]
  }

  /** The two multiply-adds of a row and its last carry. */
  lemma SquareStep(w0: Digits, w1: Digits, w2: Digits, x: Digits, i: nat, n: nat, c: int, c': int)
    requires i + 1 < n && SquareSoFar(w0, x, i, n) && 0 <= c < DV && 0 <= c' <= 2 * DV - 2
    requires AmDone(w1, w0, 2 * i, x[i], x, i, 1, c, 0)
    requires forall k :: k != 2 * i ==> (k in w1 <==> k in w0) && (k in w1 ==> w1[k] == w0[k])
    requires AmDone(w2, w1, 2 * i + 1, 2 * x[i], x, i + 1, n - i - 1, c', c)
    requires forall k :: !(2 * i + 1 <= k < i + n) ==> (k in w2 <==> k in w1) && (k in w2 ==> w2[k] == w1[k])
    ensures i + n in w2
    ensures SquareSoFar(WithCarry(w2, i + n, w2[i + n] + c'), x, i + 1, n)
  {
    hide Val, PowB, SquareRest;
    SquareRowGain(w0, w1, w2, x, i, n, c, c');
    SquareRow(x, i, n);
    var top := w2[i + n] + c';
    if top >= DV {
      CarryBit(w2[i + n := top], WithCarry(w2, i + n, top), i + n, 2 * n);
    }
  }

  /** What the row adds, the carries c and c' included. */
  lemma SquareRowGain(w0: Digits, w1: Digits, w2: Digits, x: Digits, i: nat, n: nat, c: int, c': int)
    requires i + 1 < n && IsDigits(x, 0, n) && IsDigits(w0, 0, 2 * n)
    requires AmDone(w1, w0, 2 * i, x[i], x, i, 1, c, 0)
    requires forall k :: k != 2 * i ==> (k in w1 <==> k in w0) && (k in w1 ==> w1[k] == w0[k])
    requires AmDone(w2, w1, 2 * i + 1, 2 * x[i], x, i + 1, n - i - 1, c', c)
    requires forall k :: !(2 * i + 1 <= k < i + n) ==> (k in w2 <==> k in w1) && (k in w2 ==> w2[k] == w1[k])
    ensures IsDigits(w1, 0, 2 * n) && IsDigits(w2, 0, 2 * n)
    ensures Val(w2[i + n := w2[i + n] + c'], 0, 2 * n) == Val(w0, 0, 2 * n)
            + PowB(2 * i) * (x[i] * x[i]) + PowB(2 * i + 1) * (2 * x[i] * Val(x, i + 1, n - i - 1))
  {
    hide PowB, Val;
    SquareDigitGain(w0, w1, x, i, n, c);
    SquareTailGain(w1, w2, x, i, n, c, c');
    NextPowB(2 * i);
    RowSum(PowB(2 * i), x[i] * x[i], c, 2 * x[i] * Val(x, i + 1, n - i - 1));
  }

  lemma SquareDigitGain(w0: Digits, w1: Digits, x: Digits, i: nat, n: nat, c: int)
    requires i < n && IsDigits(x, 0, n) && IsDigits(w0, 0, 2 * n)
    requires AmDone(w1, w0, 2 * i, x[i], x, i, 1, c, 0)
    requires forall k :: k != 2 * i ==> (k in w1 <==> k in w0) && (k in w1 ==> w1[k] == w0[k])
    ensures IsDigits(w1, 0, 2 * n)
    ensures Val(w1, 0, 2 * n) == Val(w0, 0, 2 * n) + PowB(2 * i) * (x[i] * x[i] - c * DV)
  {
    hide PowB, Val;
    OneDigit(x, i);
    ProductUnits();
    StretchGain(w0, w1, 2 * i, 1, 2 * n - 2 * i - 1, x[i] * x[i] - c * DV);
  }

  lemma SquareTailGain(w1: Digits, w2: Digits, x: Digits, i: nat, n: nat, c: int, c': int)
    requires i + 1 < n && IsDigits(x, 0, n) && IsDigits(w1, 0, 2 * n)
    requires AmDone(w2, w1, 2 * i + 1, 2 * x[i], x, i + 1, n - i - 1, c', c)
    requires forall k :: !(2 * i + 1 <= k < i + n) ==> (k in w2 <==> k in w1) && (k in w2 ==> w2[k] == w1[k])
    ensures IsDigits(w2, 0, 2 * n)
    ensures Val(w2[i + n := w2[i + n] + c'], 0, 2 * n)
            == Val(w1, 0, 2 * n) + PowB(2 * i + 1) * (2 * x[i] * Val(x, i + 1, n - i - 1) + c)
  {
    hide PowB, Val;
    var w3 := w2[i + n := w2[i + n] + c'];
    AmClose(w2, w1, 2 * i + 1, 2 * x[i], x, i + 1, n - i - 1, c', c, w2[i + n]);
    ValSame(w1[i + n := w2[i + n]], w1, 2 * i + 1, n - i);
    StretchGain(w1, w3, 2 * i + 1, n - i, n - i - 1, 2 * x[i] * Val(x, i + 1, n - i - 1) + c);
  }

  lemma RowSum(p: int, square: int, c: int, mixed: int)
    ensures p * (square - c * DV) + (DV * p) * (mixed + c) == p * square + (DV * p) * mixed
  {
    DistribSum(p, square, -c * DV);
    DistribSum(DV * p, mixed, c);
    MulAssoc(p, -c, DV);
    MulAssoc(DV, p, c);
    DistribSum(p, c, -c);
    MulAssoc(DV, p, -c);
  }

  lemma ProductUnits()
    ensures PowB(0) == 1 && PowB(1) == DV
  {
  }

  lemma NextPowB(n: nat)
    ensures PowB(n + 1) == DV * PowB(n)
  {
  }

  /** Taking DV off a digit and adding one to the next keeps the number. */
  lemma CarryBit(a: Digits, b: Digits, j: nat, total: nat)
    requires j + 2 <= total && (forall k :: 0 <= k < total ==> k in a && k in b)
    requires forall k :: 0 <= k < total && k != j && k != j + 1 ==> a[k] == b[k]
    requires b[j] == a[j] - DV && b[j + 1] == a[j + 1] + 1
    ensures Val(b, 0, total) == Val(a, 0, total)
  {
    ValLow(a, j, 2);
    ValLow(b, j, 2);
    ProductUnits();
    assert Val(a, j + 1, 1) == Val(a, j + 1, 0) + a[j + 1] * PowB(0);
    assert Val(b, j + 1, 1) == Val(b, j + 1, 0) + b[j + 1] * PowB(0);
    StretchGain(a, b, j, 2, total - j - 2, 0);
  }

  /** The last square x[n-1]^2 and its carry. */
  lemma SquareEnd(w0: Digits, w1: Digits, x: Digits, n: nat, c: int)
    requires n > 0 && SquareSoFar(w0, x, n - 1, n) && 0 <= c < DV
    requires AmDone(w1, w0, 2 * n - 2, x[n - 1], x, n - 1, 1, c, 0)
    requires forall k :: k != 2 * n - 2 ==> (k in w1 <==> k in w0) && (k in w1 ==> w1[k] == w0[k])
    ensures 2 * n - 1 in w1
    ensures var w2 := w1[2 * n - 1 := w1[2 * n - 1] + c];
      IsDigits(w2, 0, 2 * n) && Val(w2, 0, 2 * n) == Val(x, 0, n) * Val(x, 0, n)
  {
    hide PowB, Val;
    var j, u := 2 * n - 2, x[n - 1];
    var w2 := w1[j + 1 := w1[j + 1] + c];
    assert Val(x, n - 1, 1) == u by { OneDigit(x, n - 1); }
    AmClose(w1, w0, j, u, x, n - 1, 1, c, 0, w1[j + 1]);
    ValSame(w0[j + 1 := w1[j + 1]], w0, j, 2);
    StretchGain(w0, w2, j, 2, 0, u * u);
    assert SquareRest(x, n - 1, n) == PowB(j) * (u * u);
    SquareFits(x, n);
    TopFits(w2, 2 * n);
  }

  lemma OneDigit(d: Digits, j: nat)
    requires j in d
    ensures Val(d, j, 1) == d[j]
  {
    assert Val(d, j, 0) == 0 && PowB(0) == 1;
  }
}
