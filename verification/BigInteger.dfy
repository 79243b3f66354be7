/**
  Signed big integers held as a digit array, a length `t` and a sign word `s`
  that is 0 or -1.  The number is the sum of the digits plus s * 2^(28 t).

  Every operation writes its result object digit by digit, and the result may be
  one of the operands wherever the source calls it that way.
*/
module BigIntegers {
  import opened JsInt
  import opened BigDigits
  import opened BigShifts
  import opened BigMultiply
  import opened BigNumbers
  import opened BigSquare

  class BigInteger {
    var digits: Digits
    var t: nat
    var s: int

    ghost predicate Valid()
      reads this
    {
      IsNum(digits, t, s)
    }

    ghost predicate Clamped()
      requires Valid()
      reads this
    {
      IsClamped(digits, t, s)
    }

    ghost function Value(): int
      requires Valid()
      reads this
    {
      NumVal(digits, t, s)
    }

    constructor ()
      ensures Valid() && Clamped() && Value() == 0
    {
      digits, t, s := map[], 0, 0;
    }

    /** `fromInt` for the values it can take: it names an undefined variable below -1. */
    method FromInt(x: int)
      requires -1 <= x < DV
      modifies this
      ensures Valid() && Clamped() && Value() == x
    {
      t := 1;
      s := if x < 0 then -1 else 0;
      if x > 0 {
        digits := digits[0 := x];
      } else {
        t := 0;
      }
      assert PowB(1) == DV && PowB(0) == 1;
      assert t == 1 ==> Val(digits, 0, 1) == Val(digits, 0, 0) + digits[0] * PowB(0);
    }

    method CopyTo(r: BigInteger)
      requires Valid()
      modifies r
      ensures r.Valid() && r.Value() == old(Value())
      ensures r.t == old(t) && r.s == old(s)
      ensures forall k :: 0 <= k < t ==> r.digits[k] == old(digits)[k]
    {
      var i := t - 1;
      while i >= 0
        invariant -1 <= i < t && t == old(t) && s == old(s)
        invariant forall k :: 0 <= k < t ==> k in digits && digits[k] == old(digits)[k]
        invariant forall k :: i < k < t ==> k in r.digits && r.digits[k] == old(digits)[k]
      {
        r.digits := r.digits[i := digits[i]];
        i := i - 1;
      }
      r.t := t;
      r.s := s;
      ValSame(old(digits), r.digits, 0, t);
    }

    method Clone() returns (r: BigInteger)
      requires Valid()
      ensures fresh(r) && r.Valid() && r.Value() == Value() && r.t == t && r.s == s
      ensures Clamped() ==> r.Clamped()
    {
      r := new BigInteger();
      CopyTo(r);
    }

    method Clamp()
      requires Valid()
      modifies this`t
      ensures Valid() && Clamped() && Value() == old(Value())
    {
      hide Val, PowB, NumVal, Low28;
      var c := Low28(s);
      while t > 0 && digits[t - 1] == c
        invariant Valid() && Value() == old(Value())
        decreases t
      {
        ClampStep(digits, t, s);
        t := t - 1;
      }
    }

    /** The end of subTo and addTo: the carry left over after i digits becomes sign and top digit. */
    method TakeCarry(n: nat, c: int, ghost total: int)
      requires Running(digits, n, c, total) && -DV < c < DV
      modifies this
      ensures Valid() && Clamped() && Value() == total
    {
      hide Running;
      CarryOut(digits, n, c, total);
      var i := n;
      s := if c < 0 then -1 else 0;
      if c < -1 {
        digits := digits[i := DV + c];
        i := i + 1;
      } else if c > 0 {
        digits := digits[i := c];
        i := i + 1;
      }
      t := i;
      Clamp();
    }

    /** r = this - a, exact for all signs, also when r is an operand. */
    method SubTo(a: BigInteger, r: BigInteger)
      requires Valid() && a.Valid()
      modifies r
      ensures r.Valid() && r.Clamped()
      ensures r.Value() == old(Value()) - old(a.Value())
    {
      hide Running, PowB, Val, NumVal, IsClamped, Low28, High28;
      ghost var x, y, tt, at, ss, sa := digits, a.digits, t, a.t, s, a.s;
      RunningZero(r.digits, x, y);
      var i, c := 0, 0;
      var m := if a.t < t then a.t else t;
      while i < m
        invariant 0 <= i <= m && -1 <= c <= 0
        invariant t == tt && a.t == at && s == ss && a.s == sa
        invariant forall k :: i <= k < tt ==> k in digits && digits[k] == x[k]
        invariant forall k :: i <= k < at ==> k in a.digits && a.digits[k] == y[k]
        invariant Running(r.digits, i, c, Val(x, 0, i) - Val(y, 0, i))
      {
        SubDigits(r.digits, i, c, x, y);
        c := c + digits[i] - a.digits[i];
        r.digits := r.digits[i := Low28(c)];
        i := i + 1;
        c := High28(c);
      }
      if a.t < t {
        LoseSign(r.digits, i, c, y, sa, Val(x, 0, i));
        c := c - a.s;
        while i < t
          invariant at <= i <= tt && -1 <= c <= 1
          invariant t == tt && s == ss && a.s == sa
          invariant forall k :: i <= k < tt ==> k in digits && digits[k] == x[k]
          invariant Running(r.digits, i, c, -NumVal(y, at, sa) + Val(x, 0, i))
        {
          GainDigit(r.digits, i, c, x, -NumVal(y, at, sa));
          c := c + digits[i];
          r.digits := r.digits[i := Low28(c)];
          i := i + 1;
          c := High28(c);
        }
        GainSign(r.digits, i, c, x, ss, -NumVal(y, at, sa));
        c := c + s;
      } else {
        GainSign(r.digits, i, c, x, ss, -Val(y, 0, i));
        c := c + s;
        while i < a.t
          invariant tt <= i <= at && -2 <= c <= 1
          invariant a.t == at && a.s == sa
          invariant forall k :: i <= k < at ==> k in a.digits && a.digits[k] == y[k]
          invariant Running(r.digits, i, c, NumVal(x, tt, ss) - Val(y, 0, i))
        {
          LoseDigit(r.digits, i, c, y, NumVal(x, tt, ss));
          c := c - a.digits[i];
          r.digits := r.digits[i := Low28(c)];
          i := i + 1;
          c := High28(c);
        }
        LoseSign(r.digits, i, c, y, sa, NumVal(x, tt, ss));
        c := c - a.s;
      }
      r.TakeCarry(i, c, NumVal(x, tt, ss) - NumVal(y, at, sa));
    }

    /** r = this + a, exact for all signs, also when r is an operand. */
    method AddTo(a: BigInteger, r: BigInteger)
      requires Valid() && a.Valid()
      modifies r
      ensures r.Valid() && r.Clamped()
      ensures r.Value() == old(Value()) + old(a.Value())
    {
      hide Running, PowB, Val, NumVal, IsClamped, Low28, High28;
      ghost var x, y, tt, at, ss, sa := digits, a.digits, t, a.t, s, a.s;
      RunningZero(r.digits, x, y);
      var i, c := 0, 0;
      var m := if a.t < t then a.t else t;
      while i < m
        invariant 0 <= i <= m && 0 <= c <= 1
        invariant t == tt && a.t == at && s == ss && a.s == sa
        invariant forall k :: i <= k < tt ==> k in digits && digits[k] == x[k]
        invariant forall k :: i <= k < at ==> k in a.digits && a.digits[k] == y[k]
        invariant Running(r.digits, i, c, Val(x, 0, i) + Val(y, 0, i))
      {
        AddDigits(r.digits, i, c, x, y);
        c := c + digits[i] + a.digits[i];
        r.digits := r.digits[i := Low28(c)];
        i := i + 1;
        c := High28(c);
      }
      if a.t < t {
        GainSign(r.digits, i, c, y, sa, Val(x, 0, i));
        c := c + a.s;
        while i < t
          invariant at <= i <= tt && -1 <= c <= 1
          invariant t == tt && s == ss && a.s == sa
          invariant forall k :: i <= k < tt ==> k in digits && digits[k] == x[k]
          invariant Running(r.digits, i, c, NumVal(y, at, sa) + Val(x, 0, i))
        {
          GainDigit(r.digits, i, c, x, NumVal(y, at, sa));
          c := c + digits[i];
          r.digits := r.digits[i := Low28(c)];
          i := i + 1;
          c := High28(c);
        }
        GainSign(r.digits, i, c, x, ss, NumVal(y, at, sa));
        c := c + s;
      } else {
        GainSign(r.digits, i, c, x, ss, Val(y, 0, i));
        c := c + s;
        while i < a.t
          invariant tt <= i <= at && -1 <= c <= 1
          invariant a.t == at && a.s == sa
          invariant forall k :: i <= k < at ==> k in a.digits && a.digits[k] == y[k]
          invariant Running(r.digits, i, c, NumVal(x, tt, ss) + Val(y, 0, i))
        {
          GainDigit(r.digits, i, c, y, NumVal(x, tt, ss));
          c := c + a.digits[i];
          r.digits := r.digits[i := Low28(c)];
          i := i + 1;
          c := High28(c);
        }
        GainSign(r.digits, i, c, y, sa, NumVal(x, tt, ss));
        c := c + a.s;
      }
      r.TakeCarry(i, c, NumVal(x, tt, ss) + NumVal(y, at, sa));
    }

    method Negate() returns (r: BigInteger)
      requires Valid()
      ensures fresh(r) && r.Valid() && r.Clamped() && r.Value() == -Value()
    {
      var zero := new BigInteger();
      r := new BigInteger();
      zero.SubTo(this, r);
    }

    /** The object itself when it is not negative. */
    method Abs() returns (r: BigInteger)
      requires Valid()
      ensures r.Valid() && r.s == 0 && r.Value() == (if Value() < 0 then -Value() else Value())
      ensures if s < 0 then fresh(r) && r.Clamped() else r == this
    {
      ValBound(digits, 0, t);
      if s < 0 {
        r := Negate();
        ValBound(r.digits, 0, r.t);
      } else {
        r := this;
      }
    }

    /** The sign of this - a, except for two negative operands of different lengths: there it is exactly the wrong sign. */
    method CompareTo(a: BigInteger) returns (r: int)
      requires Valid() && a.Valid() && Clamped() && a.Clamped()
      ensures s == 0 || a.s == 0 || t == a.t ==> (r < 0 <==> Value() < a.Value()) && (r == 0 <==> Value() == a.Value())
      ensures s < 0 && a.s < 0 && t != a.t ==> r != 0 && (r < 0 <==> Value() > a.Value())
    {
      ClampedRange(digits, t, s);
      ClampedRange(a.digits, a.t, a.s);
      r := s - a.s;
      if r != 0 {
        return;
      }
      var i := t;
      r := i - a.t;
      if r != 0 {
        if r < 0 {
          PowBMono(t, a.t - 1);
        } else {
          PowBMono(a.t, t - 1);
        }
        return;
      }
      while i > 0
        invariant 0 <= i <= t
        invariant forall k :: i <= k < t ==> digits[k] == a.digits[k]
      {
        i := i - 1;
        r := digits[i] - a.digits[i];
        if r != 0 {
          if r < 0 {
            TopDigitDecides(digits, a.digits, i, t);
          } else {
            TopDigitDecides(a.digits, digits, i, t);
          }
          return;
        }
      }
      ValSame(digits, a.digits, 0, t);
      r := 0;
    }

    method IsEven() returns (even: bool)
      requires Valid()
      ensures even <==> Value() % 2 == 0
    {
      if t > 0 {
        LowBit(digits, t, s);
        Pow2Values();
        even := LowBits(digits[0], 1) == 0;
      } else {
        even := s == 0;
      }
    }

    method Signum() returns (r: int)
      requires Valid() && Clamped()
      ensures r == if Value() < 0 then -1 else if Value() == 0 then 0 else 1
    {
      ClampedRange(digits, t, s);
      if s < 0 {
        return -1;
      } else if t <= 0 || (t == 1 && digits[0] <= 0) {
        return 0;
      } else {
        return 1;
      }
    }

    /** r = this >> n, rounding down; r may be this. */
    method RShiftTo(n: nat, r: BigInteger)
      requires Valid()
      modifies r
      ensures r.Valid() && r.Clamped()
      ensures r.Value() == old(Value()) / Pow2(n)
    {
      hide Pow2, PowB, Val, Or, And, Shr, Shl, ShrBits, LowBits, ShlBits, ShiftedRight, NumVal, IsClamped;
      ghost var x, tt, ss := digits, t, s;
      r.s := s;
      var ds := n / DB;
      if ds >= t {
        RightNothing(x, tt, ss, n, r.digits);
        r.t := 0;
        return;
      }
      var bs := n % DB;
      var cbs := DB - bs;
      DivMod28(n, ds, bs);
      RightStart(r.digits, x, ds, bs);
      r.digits := r.digits[0 := ShrBits(digits[ds], bs)];
      var i := ds + 1;
      while i < t
        invariant ds + 1 <= i <= tt && t == tt && s == ss && r.s == ss
        invariant forall k :: i <= k < tt ==> k in digits && digits[k] == x[k]
        invariant ShiftedRight(r.digits, x, ds, i - ds, bs)
      {
        RightNext(r.digits, x, ds, i - ds, bs);
        var low := LowBits(digits[i], bs);
        r.digits := r.digits[i - ds - 1 := Or(r.digits[i - ds - 1], ShlBits(low, cbs))];
        r.digits := r.digits[i - ds := ShrBits(digits[i], bs)];
        i := i + 1;
      }
      RightEnd(r.digits, x, ds, tt - ds, bs, ss);
      if bs > 0 {
        r.digits := r.digits[t - ds - 1 := Or(r.digits[t - ds - 1], ShlBits(LowBits(s, bs), cbs))];
      }
      r.t := t - ds;
      r.Clamp();
    }

    /** r = this << n; r may be this. */
    method LShiftTo(n: nat, r: BigInteger)
      requires Valid()
      modifies r
      ensures r.Valid() && r.Clamped()
      ensures r.Value() == old(Value()) * Pow2(n)
    {
      hide Pow2, PowB, Val, Or, And, Shr, Shl, ShrBits, LowBits, ShlBits, Low28, ShiftedLeft, NumVal, IsClamped;
      ghost var x, tt, ss := digits, t, s;
      var bs := n % DB;
      var cbs := DB - bs;
      var ds := n / DB;
      DivMod28(n, ds, bs);
      SignTop(bs, s);
      var c := Low28(ShlBits(s, bs));
      ghost var top := c;
      LeftStart(r.digits, tt + ds + 1, x, tt, bs, ss);
      var i := t - 1;
      while i >= 0
        invariant -1 <= i < tt && t == tt && s == ss
        invariant forall k :: 0 <= k <= i ==> k in digits && digits[k] == x[k]
        invariant ShiftedLeft(r.digits, i + ds + 2, x, i + 1, tt - 1 - i, c, bs, top)
      {
        LeftNext(r.digits, i + ds + 2, x, i + 1, tt - 1 - i, c, bs, top);
        var lo := LowBits(digits[i], cbs);
        r.digits := r.digits[i + ds + 1 := Or(ShrBits(digits[i], cbs), c)];
        c := ShlBits(lo, bs);
        i := i - 1;
      }
      i := ds - 1;
      while i >= 0
        invariant -1 <= i < ds && t == tt && s == ss
        invariant forall k :: i < k < ds ==> k in r.digits && r.digits[k] == 0
        invariant ShiftedLeft(r.digits, ds + 1, x, 0, tt, c, bs, top)
      {
        ShiftedLeftElsewhere(r.digits, ds + 1, x, 0, tt, c, bs, top, i, 0);
        r.digits := r.digits[i := 0];
        i := i - 1;
      }
      ShiftedLeftElsewhere(r.digits, ds + 1, x, 0, tt, c, bs, top, ds, c);
      r.digits := r.digits[ds := c];
      LeftEnd(r.digits, x, ds, tt, c, bs, ss);
      r.s := s;
      r.t := t + ds + 1;
      r.Clamp();
    }

    /** `am3`: adds x times n digits of this, from i, to the digits of w from j; returns the last carry. */
    method Am(i: nat, x: int, w: BigInteger, j: nat, c0: int, n: nat) returns (c: int)
      requires w != this
      requires IsDigits(digits, i, n) && IsDigits(w.digits, j, n)
      requires 0 <= x < 2 * DV && 0 <= c0 < 3 * DV
      modifies w`digits
      ensures AmDone(w.digits, old(w.digits), j, x, digits, i, n, c, c0)
      ensures 0 <= c < 3 * DV
      ensures x < DV && c0 < DV ==> c < DV
      ensures x <= 2 * DV - 2 && c0 <= 2 * DV - 2 ==> c <= 2 * DV - 2
      ensures forall k :: !(j <= k < j + n) ==> (k in w.digits <==> k in old(w.digits))
      ensures forall k :: !(j <= k < j + n) && k in w.digits ==> w.digits[k] == old(w.digits)[k]
    {
      hide Val, PowB, Low14, High14, Up14, Low28, High28, AmDone;
      AmStart(w.digits, j, x, digits, i, c0);
      c := c0;
      var xl, xh := Low14(x), High14(x);
      var k := 0;
      while k < n
        invariant 0 <= k <= n
        invariant AmDone(w.digits, old(w.digits), j, x, digits, i, k, c, c0)
        invariant 0 <= c < 3 * DV
        invariant x < DV && c0 < DV ==> c < DV
        invariant x <= 2 * DV - 2 && c0 <= 2 * DV - 2 ==> c <= 2 * DV - 2
        invariant forall m :: !(j <= m < j + k) ==> (m in w.digits <==> m in old(w.digits))
        invariant forall m :: !(j <= m < j + k) && m in w.digits ==> w.digits[m] == old(w.digits)[m]
      {
        HalfWordStep(x, digits[i + k], w.digits[j + k], c);
        var l := Low14(digits[i + k]);
        var h := High14(digits[i + k]);
        var m := xh * l + h * xl;
        ghost var c1 := c;
        l := xl * l + Up14(Low14(m)) + w.digits[j + k] + c;
        c := High28(l) + High14(m) + xh * h;
        AmNext(w.digits, old(w.digits), j, x, digits, i, k, c1, c0, l % DV, c);
        w.digits := w.digits[j + k := Low28(l)];
        k := k + 1;
      }
    }

    /** The loop both multiplications start with: digits n-1 down to 0 become zero. */
    method ClearDigits(n: nat)
      modifies this`digits
      ensures forall k :: 0 <= k < n ==> k in digits && digits[k] == 0
    {
      var i := n;
      while i > 0
        invariant 0 <= i <= n
        invariant forall k :: i <= k < n ==> k in digits && digits[k] == 0
      {
        i := i - 1;
        digits := digits[i := 0];
      }
    }

    /** The end of both multiplications: the digits hold the product, which is not negative. */
    method TakeProduct(ghost x: Digits, ghost m: nat, ghost y: Digits, ghost n: nat)
      requires IsDigits(digits, 0, t) && IsDigits(x, 0, m) && IsDigits(y, 0, n)
      requires Val(digits, 0, t) == Val(x, 0, m) * Val(y, 0, n)
      modifies this
      ensures Valid() && Clamped()
      ensures Value() == NumVal(x, m, 0) * NumVal(y, n, 0)
    {
      hide Val, PowB;
      s := 0;
      Clamp();
    }

    /** r = this * a for an r that is neither operand. */
    method MultiplyTo(a: BigInteger, r: BigInteger)
      requires Valid() && a.Valid() && r != this && r != a
      modifies r
      ensures r.Valid() && r.Clamped()
      ensures r.Value() == Value() * a.Value()
    {
      hide Val, PowB, AmDone, NumVal, IsClamped;
      var x := Abs();
      var y := a.Abs();
      NumValIs(x.digits, x.t, 0);
      NumValIs(y.digits, y.t, 0);
      r.t := x.t + y.t;
      r.ClearDigits(x.t);
      ProductStart(r.digits, x.digits, x.t, y.digits);
      var i := 0;
      while i < y.t
        modifies r
        invariant 0 <= i <= y.t && r.t == x.t + y.t
        invariant IsDigits(r.digits, 0, i + x.t)
        invariant Val(r.digits, 0, i + x.t) == Val(x.digits, 0, x.t) * Val(y.digits, 0, i)
      {
        ghost var w0 := r.digits;
        var c := x.Am(0, y.digits[i], r, i, 0, x.t);
        ProductRow(r.digits, w0, i, y.digits, x.digits, x.t, c);
        r.digits := r.digits[i + x.t := c];
        i := i + 1;
      }
      r.TakeProduct(x.digits, x.t, y.digits, y.t);
      SignedProduct(digits, t, s, a.digits, a.t, a.s);
      if s != a.s {
        var zero := new BigInteger();
        zero.SubTo(r, r);
      }
    }

    /** Row i of the square of a non-negative number: its own square and the doubled mixed products. */
    method SquareRow(r: BigInteger, i: nat)
      requires r != this && i + 1 < t && SquareSoFar(r.digits, digits, i, t)
      modifies r`digits
      ensures SquareSoFar(r.digits, digits, i + 1, t)
    {
      hide Val, PowB, AmDone, SquareSoFar;
      ghost var w0 := r.digits;
      SquareReady(w0, digits, i, t);
      var c := Am(i, digits[i], r, 2 * i, 0, 1);
      ghost var w1 := r.digits;
      var c' := Am(i + 1, 2 * digits[i], r, 2 * i + 1, c, t - i - 1);
      SquareStep(w0, w1, r.digits, digits, i, t, c, c');
      var top := r.digits[i + t] + c';
      r.digits := r.digits[i + t := top];
      if top >= DV {
        r.digits := r.digits[i + t := top - DV][i + t + 1 := 1];
      }
    }

    /** r = this * this for an r that is not this: each mixed product is added once, doubled. */
    method SquareTo(r: BigInteger)
      requires Valid() && r != this
      modifies r
      ensures r.Valid() && r.Clamped()
      ensures r.Value() == Value() * Value()
    {
      hide Val, PowB, AmDone, NumVal, IsClamped, SquareSoFar;
      var x := Abs();
      NumValIs(x.digits, x.t, 0);
      var n := x.t;
      r.t := 2 * n;
      r.ClearDigits(r.t);
      SquareStart(r.digits, x.digits, n);
      var i := 0;
      while i + 1 < n
        modifies r
        invariant 0 <= i && (n == 0 ==> i == 0) && (n > 0 ==> i <= n - 1) && r.t == 2 * n
        invariant SquareSoFar(r.digits, x.digits, i, n)
        decreases n - i
      {
        x.SquareRow(r, i);
        i := i + 1;
      }
      if r.t > 0 {
        ghost var w0 := r.digits;
        SquareReady(w0, x.digits, i, n);
        var c := x.Am(i, x.digits[i], r, 2 * i, 0, 1);
        SquareEnd(w0, r.digits, x.digits, n, c);
        r.digits := r.digits[r.t - 1 := r.digits[r.t - 1] + c];
      } else {
        ProductStart(r.digits, x.digits, 0, x.digits);
      }
      r.TakeProduct(x.digits, x.t, x.digits, x.t);
      SignedProduct(digits, t, s, digits, t, s);
    }

    /** r = this, n zero digits inserted below. */
    method DLShiftTo(n: nat, r: BigInteger)
      requires Valid()
      modifies r
      ensures r.Valid() && r.Value() == old(Value()) * PowB(n) && r.s == old(s)
    {
      hide NumVal, PowB;
      ghost var x, tt, ss := digits, t, s;
      var i := t - 1;
      while i >= 0
        invariant -1 <= i < tt && t == tt && s == ss
        invariant forall k :: 0 <= k <= i ==> k in digits && digits[k] == x[k]
        invariant forall k :: i + n < k < n + tt ==> k in r.digits && r.digits[k] == x[k - n]
      {
        r.digits := r.digits[i + n := digits[i]];
        i := i - 1;
      }
      i := n - 1;
      while i >= 0
        invariant -1 <= i < n && t == tt && s == ss
        invariant forall k :: n <= k < n + tt ==> k in r.digits && r.digits[k] == x[k - n]
        invariant forall k :: i < k < n ==> k in r.digits && r.digits[k] == 0
      {
        r.digits := r.digits[i := 0];
        i := i - 1;
      }
      r.t := t + n;
      r.s := s;
      InsertDigits(r.digits, x, tt, ss, n);
    }

    /** r = this without its n lowest digits; r may be this. */
    method DRShiftTo(n: nat, r: BigInteger)
      requires Valid()
      modifies r
      ensures r.Valid() && r.Value() == old(Value()) / PowB(n)
      ensures old(Clamped()) ==> r.Clamped()
    {
      hide NumVal, PowB, Dropped;
      ghost var x, tt, ss := digits, t, s;
      var i := n;
      DroppedNone(r.digits, x, n);
      while i < t
        invariant n <= i && (if n <= tt then i <= tt else i == n) && t == tt && s == ss
        invariant forall k :: i <= k < tt ==> k in digits && digits[k] == x[k]
        invariant Dropped(r.digits, x, n, i)
      {
        DroppedNext(r.digits, x, n, i);
        r.digits := r.digits[i - n := digits[i]];
        i := i + 1;
      }
      r.t := if t - n > 0 then t - n else 0;
      r.s := s;
      DropDigits(r.digits, x, tt, ss, n);
    }

    /**
      The remainder modulo a positive a, in [0, a).  The source estimates quotient
      digits with doubles; here the remainder is reached by subtraction.
    */
    method Mod(a: BigInteger) returns (r: BigInteger)
      requires Valid() && a.Valid() && a.Clamped() && a.Value() > 0
      ensures fresh(r) && r.Valid() && r.Clamped() && r.Value() == Value() % a.Value()
    {
      r := new BigInteger();
      var x := Abs();
      x.CopyTo(r);
      r.Remainder(a);
      SignWord(digits, t, s);
      if s < 0 {
        ModOfNegative(Value(), a.Value());
        var sign := r.Signum();
        if sign > 0 {
          a.SubTo(r, r);
        }
      }
    }

    /** this becomes its remainder modulo a. */
    method Remainder(a: BigInteger)
      requires Valid() && a.Valid() && a.Clamped() && a != this
      requires Value() >= 0 && a.Value() > 0
      modifies this
      ensures Valid() && Clamped() && Value() == old(Value()) % a.Value()
    {
      Clamp();
      SignWord(a.digits, a.t, a.s);
      var c := CompareTo(a);
      while c >= 0
        invariant Valid() && Clamped() && Value() >= 0
        invariant Value() % a.Value() == old(Value()) % a.Value()
        invariant c >= 0 <==> Value() >= a.Value()
        decreases Value()
      {
        ModMinus(Value(), a.Value());
        SubTo(a, this);
        c := CompareTo(a);
      }
      ModBelow(Value(), a.Value());
    }

    /** The index of the lowest set bit, -1 for zero. */
    method GetLowestSetBit() returns (r: int)
      requires Valid()
      ensures Value() == 0 ==> r == -1
      ensures Value() != 0 ==> r >= 0 && IsLowestBit(Value(), r)
    {
      var i := 0;
      while i < t
        invariant 0 <= i <= t
        invariant forall k :: 0 <= k < i ==> digits[k] == 0
      {
        if digits[i] != 0 {
          var b := LBit(digits[i]);
          LowestBitOfDigits(digits, t, s, i, b);
          LowestBitNonzero(Value(), 28 * i + b);
          return i * DB + b;
        }
        i := i + 1;
      }
      ValZero(digits, 0, t);
      if s < 0 {
        LowestBitOfSign(digits, t);
        return t * DB;
      }
      return -1;
    }
  }

  /** `lbit` on a nonzero digit. */
  method LBit(x: int) returns (r: nat)
    requires 0 < x < DV
    ensures r < 28 && IsLowestBit(x, r)
  {
    hide Pow2, IsLowestBit, ShrBits, LowBits;
    SmallPowers();
    var y := x;
    r := 0;
    if LowBits(y, 16) == 0 {
      ShiftOut(x, y, r, 16);
      y, r := ShrBits(y, 16), r + 16;
    }
    assert 0 < y < DV && y % 65536 != 0;
    if LowBits(y, 8) == 0 {
      ShiftOut(x, y, r, 8);
      StillNonzero(y, 256);
      y, r := ShrBits(y, 8), r + 8;
    }
    assert 0 < y < DV && y % 256 != 0 && x == y * Pow2(r);
    if LowBits(y, 4) == 0 {
      ShiftOut(x, y, r, 4);
      StillNonzero(y, 16);
      y, r := ShrBits(y, 4), r + 4;
    }
    assert 0 < y < DV && y % 16 != 0 && x == y * Pow2(r);
    if LowBits(y, 2) == 0 {
      ShiftOut(x, y, r, 2);
      StillNonzero(y, 4);
      y, r := ShrBits(y, 2), r + 2;
    }
    assert 0 < y < DV && y % 4 != 0 && x == y * Pow2(r);
    if LowBits(y, 1) == 0 {
      ShiftOut(x, y, r, 1);
      StillNonzero(y, 2);
      LowestBitOf(x, r + 1, y / 2);
      r := r + 1;
    } else {
      LowestBitOf(x, r, y);
    }
    LowestBitBelow(x, r);
  }

  /** What every number that a public method gets or gives is. */
  ghost predicate Usable(n: BigInteger)
    reads n
  {
    n.Valid() && n.Clamped()
  }
}
