/**
  Sign and digits together: the number a digit array with a length and a sign
  word stands for, and the steps of the loops that build such arrays.
*/
module BigNumbers {
  import opened JsInt
  import opened BigDigits
  import opened BigShifts
  import opened BigMultiply

  ghost predicate IsNum(d: Digits, t: nat, s: int) {
    (s == 0 || s == -1) && IsDigits(d, 0, t)
  }

  ghost function NumVal(d: Digits, t: nat, s: int): int
    requires IsNum(d, t, s)
  {
    Val(d, 0, t) + s * PowB(t)
  }

  lemma NumValIs(d: Digits, t: nat, s: int)
    requires IsNum(d, t, s)
    ensures NumVal(d, t, s) == Val(d, 0, t) + s * PowB(t)
  {
  }

  /** No superfluous top digit. */
  ghost predicate IsClamped(d: Digits, t: nat, s: int)
    requires IsNum(d, t, s)
  {
    t == 0 || d[t - 1] != (if s == 0 then 0 else DM)
  }

  lemma ClampStep(d: Digits, t: nat, s: int)
    requires IsNum(d, t, s) && t > 0 && d[t - 1] == (if s == 0 then 0 else DM)
    ensures NumVal(d, t - 1, s) == NumVal(d, t, s)
  {
  }

  /** A clamped non-negative number is at least the power of its top digit, a clamped negative one below it. */
  lemma NegativeTop(d: Digits, t: nat)
    requires t > 0 && IsDigits(d, 0, t) && d[t - 1] < DM
    ensures Val(d, 0, t) - PowB(t) < -PowB(t - 1)
  {
    ValSplit(d, 0, t - 1, 1);
    ValBound(d, 0, t - 1);
    var p := PowB(t - 1);
    MulMono(d[t - 1], DM - 1, p);
    assert PowB(t) == DV * p;
  }

  lemma ClampedRange(d: Digits, t: nat, s: int)
    requires IsNum(d, t, s) && IsClamped(d, t, s)
    ensures s == 0 ==> 0 <= NumVal(d, t, s) < PowB(t)
    ensures s == 0 && t > 0 ==> PowB(t - 1) <= NumVal(d, t, s)
    ensures s == -1 ==> -PowB(t) <= NumVal(d, t, s) < 0
    ensures s == -1 && t > 0 ==> NumVal(d, t, s) < -PowB(t - 1)
  {
    ValBound(d, 0, t);
    if s == -1 && t > 0 {
      NegativeTop(d, t);
    }
    if s == 0 && t > 0 {
      ValTop(d, 0, t);
    }
  }

  /** The digits written so far and the carry stand for `total`. */
  ghost predicate Running(d: Digits, i: nat, c: int, total: int) {
    IsDigits(d, 0, i) && Val(d, 0, i) + c * PowB(i) == total
  }

  lemma RunningZero(d: Digits, x: Digits, y: Digits)
    ensures Running(d, 0, 0, Val(x, 0, 0) - Val(y, 0, 0))
    ensures Running(d, 0, 0, Val(x, 0, 0) + Val(y, 0, 0))
  {
  }

  lemma AddMul(a: int, b: int, p: int)
    ensures (a + b) * p == a * p + b * p
    ensures (a - b) * p == a * p - b * p
    ensures (-a) * p == -(a * p)
  {
  }

  /** One digit of a carry loop: adding x to the carry adds x at this power. */
  lemma CarryDigit(d: Digits, i: nat, c: int, x: int, total: int)
    requires Running(d, i, c, total)
    ensures Running(d[i := (c + x) % DV], i + 1, (c + x) / DV, total + x * PowB(i))
  {
    AddMul(c, x, PowB(i));
    ValPut(d, 0, i, (c + x) % DV);
    Carry(c + x, PowB(i));
  }

  lemma GainDigit(d: Digits, i: nat, c: int, x: Digits, base: int)
    requires forall k :: 0 <= k <= i ==> k in x
    requires Running(d, i, c, base + Val(x, 0, i))
    ensures Running(d[i := (c + x[i]) % DV], i + 1, (c + x[i]) / DV, base + Val(x, 0, i + 1))
  {
    CarryDigit(d, i, c, x[i], base + Val(x, 0, i));
  }

  lemma LoseDigit(d: Digits, i: nat, c: int, y: Digits, base: int)
    requires forall k :: 0 <= k <= i ==> k in y
    requires Running(d, i, c, base - Val(y, 0, i))
    ensures Running(d[i := (c - y[i]) % DV], i + 1, (c - y[i]) / DV, base - Val(y, 0, i + 1))
  {
    CarryDigit(d, i, c, -y[i], base - Val(y, 0, i));
    AddMul(y[i], 0, PowB(i));
  }

  lemma SubDigits(d: Digits, i: nat, c: int, x: Digits, y: Digits)
    requires forall k :: 0 <= k <= i ==> k in x && k in y
    requires Running(d, i, c, Val(x, 0, i) - Val(y, 0, i))
    ensures Running(d[i := (c + x[i] - y[i]) % DV], i + 1, (c + x[i] - y[i]) / DV, Val(x, 0, i + 1) - Val(y, 0, i + 1))
  {
    CarryDigit(d, i, c, x[i] - y[i], Val(x, 0, i) - Val(y, 0, i));
    AddMul(x[i], y[i], PowB(i));
  }

  lemma AddDigits(d: Digits, i: nat, c: int, x: Digits, y: Digits)
    requires forall k :: 0 <= k <= i ==> k in x && k in y
    requires Running(d, i, c, Val(x, 0, i) + Val(y, 0, i))
    ensures Running(d[i := (c + x[i] + y[i]) % DV], i + 1, (c + x[i] + y[i]) / DV, Val(x, 0, i + 1) + Val(y, 0, i + 1))
  {
    CarryDigit(d, i, c, x[i] + y[i], Val(x, 0, i) + Val(y, 0, i));
    AddMul(x[i], y[i], PowB(i));
  }

  /** The sign word of an operand enters the carry at its length. */
  lemma GainSign(d: Digits, i: nat, c: int, x: Digits, s: int, base: int)
    requires IsNum(x, i, s) && Running(d, i, c, base + Val(x, 0, i))
    ensures Running(d, i, c + s, base + NumVal(x, i, s))
  {
    AddMul(c, s, PowB(i));
  }

  lemma LoseSign(d: Digits, i: nat, c: int, y: Digits, s: int, base: int)
    requires IsNum(y, i, s) && Running(d, i, c, base - Val(y, 0, i))
    ensures Running(d, i, c - s, base - NumVal(y, i, s))
  {
    AddMul(c, s, PowB(i));
  }

  /** The last carry becomes the sign word and, if it does not fit there, a digit. */
  lemma CarryOut(d: Digits, i: nat, c: int, total: int)
    requires Running(d, i, c, total) && -DV < c < DV
    ensures c == 0 ==> IsNum(d, i, 0) && NumVal(d, i, 0) == total
    ensures c == -1 ==> IsNum(d, i, -1) && NumVal(d, i, -1) == total
    ensures c < -1 ==> IsNum(d[i := DV + c], i + 1, -1) && NumVal(d[i := DV + c], i + 1, -1) == total
    ensures c > 0 ==> IsNum(d[i := c], i + 1, 0) && NumVal(d[i := c], i + 1, 0) == total
  {
    ValPut(d, 0, i, c);
    ValPut(d, 0, i, DV + c);
    AddMul(DV, c, PowB(i));
  }

  lemma LowBit(d: Digits, t: nat, s: int)
    requires IsNum(d, t, s) && t > 0
    ensures NumVal(d, t, s) % 2 == d[0] % 2
  {
    hide Val;
    ValLow(d, 0, t);
    var p := PowB(t - 1);
    MulAssoc(s, DV, p);
    EvenPlus(d[0], Val(d, 1, t - 1) + s * p);
  }

  lemma EvenPlus(low: int, k: int)
    ensures (low + DV * k) % 2 == low % 2
  {
  }

  /** Shifting out every digit leaves the sign word alone. */
  lemma RightNothing(x: Digits, t: nat, s: int, n: nat, d: Digits)
    requires IsNum(x, t, s) && 28 * t <= n
    ensures IsNum(d, 0, s) && IsClamped(d, 0, s) && NumVal(d, 0, s) == NumVal(x, t, s) / Pow2(n)
  {
    RightAll(x, t, s, n);
  }

  lemma LeftEnd(d: Digits, x: Digits, ds: nat, t: nat, c: int, bs: nat, s: int)
    requires bs < 28 && IsNum(x, t, s)
    requires ShiftedLeft(d, ds + 1, x, 0, t, c, bs, (s * Pow2(bs)) % DV)
    requires ds in d && d[ds] == c && forall k :: 0 <= k < ds ==> k in d && d[k] == 0
    ensures IsNum(d, ds + t + 1, s) && NumVal(d, ds + t + 1, s) == NumVal(x, t, s) * Pow2(28 * ds + bs)
  {
    LeftTotal(d, x, ds, t, c, bs, s);
  }

  /** The result of a right shift once the sign bits have entered its top digit. */
  lemma RightEnd(d: Digits, x: Digits, ds: nat, m: nat, bs: nat, s: int)
    requires bs < 28 && ShiftedRight(d, x, ds, m, bs) && IsNum(x, ds + m, s)
    ensures IsInt32((s % Pow2(bs)) * Pow2(28 - bs)) && m - 1 in d
    ensures var e := if bs > 0 then d[m - 1 := Or(d[m - 1], (s % Pow2(bs)) * Pow2(28 - bs))] else d;
      IsNum(e, m, s) && NumVal(e, m, s) == NumVal(x, ds + m, s) / Pow2(28 * ds + bs)
  {
    hide Pow2, Val, Or, PowB;
    var v := s % Pow2(bs);
    RightFill(d, x, ds, m, bs, v);
    var e := d[m - 1 := d[m - 1] + v * Pow2(28 - bs)];
    RightTotal(e, x, ds, m, bs, s);
    if bs == 0 {
      ModOne(s);
      assert e == d;
    }
  }

  lemma ModOne(s: int)
    ensures Pow2(0) == 1 && s % Pow2(0) == 0
  {
  }

  lemma SmallPowers()
    ensures Pow2(0) == 1 && Pow2(1) == 2 && Pow2(2) == 4 && Pow2(4) == 16 && Pow2(8) == 256 && Pow2(16) == 65536
  {
  }

  /** Shifting k zero bits out of y. */
  lemma ShiftOut(x: int, y: int, r: nat, k: nat)
    requires x == y * Pow2(r) && y % Pow2(k) == 0
    ensures x == (y / Pow2(k)) * Pow2(r + k)
  {
    hide Pow2;
    DivModDef(y, Pow2(k));
    MulAssoc(y / Pow2(k), Pow2(k), Pow2(r));
    Pow2Add(k, r);
  }

  /** If y is a multiple of p but not of p * p, then y / p is not a multiple of p. */
  lemma StillNonzero(y: int, p: int)
    requires p > 0 && p * p > 0 && y % p == 0 && y % (p * p) != 0
    ensures (y / p) % p != 0
  {
    DivModDef(y, p);
    DivModDef(y / p, p);
    if (y / p) % p == 0 {
      MulAssoc(p, p, y / p / p);
      DivModUnique(y, p * p, y / p / p, 0);
    }
  }

  lemma LowestBitNonzero(v: int, r: nat)
    requires IsLowestBit(v, r)
    ensures v != 0
  {
  }

  lemma LowestBitBelow(x: int, r: nat)
    requires 0 < x < DV && IsLowestBit(x, r)
    ensures r < 28
  {
    if r >= 28 {
      Pow2Values();
      Pow2AtMost(28, r);
    }
  }

  lemma DivMod28(n: nat, ds: nat, bs: nat)
    requires ds == n / 28 && bs == n % 28
    ensures n == 28 * ds + bs
  {
  }

  /** Digits n up to i of x are the lowest digits of d. */
  ghost predicate Dropped(d: Digits, x: Digits, n: nat, i: nat) {
    forall k :: 0 <= k < i - n ==> Moved(d, x, n, k)
  }

  /** Digit k of d is digit k + n of x. */
  ghost predicate Moved(d: Digits, x: Digits, n: nat, k: int) {
    k in d && k + n in x && d[k] == x[k + n]
  }

  lemma DroppedNone(d: Digits, x: Digits, n: nat)
    ensures Dropped(d, x, n, n)
  {
  }

  lemma DroppedNext(d: Digits, x: Digits, n: nat, i: nat)
    requires n <= i && i in x && Dropped(d, x, n, i)
    ensures Dropped(d[i - n := x[i]], x, n, i + 1)
  {
    var after := d[i - n := x[i]];
    forall k | 0 <= k < i + 1 - n ensures Moved(after, x, n, k) {
      if k < i - n {
        assert Moved(d, x, n, k);
      }
    }
  }

  /** Dropping n digits is division by 2^(28 n), rounding down. */
  lemma DropDigits(d: Digits, x: Digits, t: nat, s: int, n: nat)
    requires IsNum(x, t, s)
    requires Dropped(d, x, n, if n < t then t else n)
    ensures var m := if n < t then t - n else 0;
      && IsNum(d, m, s) && NumVal(d, m, s) == NumVal(x, t, s) / PowB(n)
      && (IsClamped(x, t, s) ==> IsClamped(d, m, s))
  {
    hide Val, PowB, Dropped;
    if n < t {
      var m := t - n;
      DroppedAll(d, x, n, m);
      assert forall k :: n <= k < n + m ==> k in x && Digit(x, k) == x[k];
      ValShift(d, x, n, m);
      Shifted(d, x, n, m);
      ValSplit(x, 0, n, m);
      ValBound(x, 0, n);
      PowBAdd(n, m);
      MulAssoc(s, PowB(n), PowB(m));
      DistribSum(PowB(n), Val(x, n, m), s * PowB(m));
      FloorDiv(NumVal(x, t, s), PowB(n), Val(x, n, m) + s * PowB(m), Val(x, 0, n));
    } else {
      PowBIsPow2(n);
      RightNothing(x, t, s, 28 * n, d);
    }
  }

  lemma {:induction false} ValShift(d: Digits, x: Digits, n: nat, m: nat)
    requires forall k :: 0 <= k < m ==> k in d && d[k] == Digit(x, n + k)
    requires forall k :: n <= k < n + m ==> k in x
    ensures Val(d, 0, m) == Val(x, n, m)
  {
    if m > 0 {
      ValShift(d, x, n, m - 1);
      assert d[m - 1] == Digit(x, n + (m - 1));
    }
  }

  lemma Shifted(d: Digits, x: Digits, n: nat, m: nat)
    requires forall k :: 0 <= k < m ==> k in d && d[k] == Digit(x, n + k)
    requires IsDigits(x, 0, n + m)
    ensures IsDigits(d, 0, m) && (m > 0 ==> d[m - 1] == x[n + m - 1])
  {
    forall k | 0 <= k < m ensures 0 <= d[k] < DV {
      assert n + k in x;
    }
    assert m > 0 ==> d[m - 1] == Digit(x, n + (m - 1));
  }

  function Digit(x: Digits, k: int): int {
    if k in x then x[k] else 0
  }

  /** The digits of a dropped number, one by one. */
  lemma DroppedAll(d: Digits, x: Digits, n: nat, m: nat)
    requires Dropped(d, x, n, n + m)
    ensures forall k :: 0 <= k < m ==> k in d && d[k] == Digit(x, n + k)
  {
    forall k | 0 <= k < m ensures k in d && d[k] == Digit(x, n + k) {
      assert Moved(d, x, n, k);
    }
  }

  /** Inserting n zero digits is multiplication by 2^(28 n). */
  lemma InsertDigits(d: Digits, x: Digits, t: nat, s: int, n: nat)
    requires IsNum(x, t, s)
    requires forall k :: 0 <= k < n ==> k in d && d[k] == 0
    requires forall k :: n <= k < n + t ==> k in d && d[k] == x[k - n]
    ensures IsNum(d, n + t, s) && NumVal(d, n + t, s) == NumVal(x, t, s) * PowB(n)
  {
    hide Val, PowB;
    assert forall k :: 0 <= k < t ==> k in x && x[k] == Digit(d, n + k) by {
      forall k | 0 <= k < t ensures k in x && x[k] == Digit(d, n + k) {
        assert n + k in d && d[n + k] == x[n + k - n];
      }
    }
    ValShift(x, d, n, t);
    ValSplit(d, 0, n, t);
    ValZero(d, 0, n);
    PowBAdd(n, t);
    MulAssoc(s, PowB(n), PowB(t));
    DistribSum(PowB(n), Val(x, 0, t), s * PowB(t));
  }

  lemma ModMinus(v: int, m: int)
    requires m > 0
    ensures (v - m) % m == v % m
  {
    DivModDef(v, m);
    DistribSum(m, v / m, -1);
    DivModUnique(v - m, m, v / m - 1, v % m);
  }

  lemma ModBelow(v: int, m: int)
    requires 0 <= v < m
    ensures v % m == v
  {
    DivModUnique(v, m, 0, v);
  }

  lemma ModOfNegative(v: int, m: int)
    requires m > 0 && v < 0
    ensures v % m == if (-v) % m == 0 then 0 else m - (-v) % m
  {
    var q, r := (-v) / m, (-v) % m;
    DivModDef(-v, m);
    if r == 0 {
      DistribSum(m, q, -q);
      DivModUnique(v, m, -q, 0);
    } else {
      DistribSum(m, -q, -1);
      DistribSum(m, q, -q);
      DivModUnique(v, m, -q - 1, m - r);
    }
  }

  /** The sign word is the sign. */
  lemma SignWord(d: Digits, t: nat, s: int)
    requires IsNum(d, t, s)
    ensures s < 0 <==> NumVal(d, t, s) < 0
  {
    ValBound(d, 0, t);
  }
}
