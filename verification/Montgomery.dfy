/**
  Montgomery reduction on digit arrays.  R is 2^(28 t) for a modulus of t digits;
  a residue r stands for a when r is a R modulo m.
*/
module Montgomeries {
  import opened JsInt
  import opened BigDigits
  import opened BigShifts
  import opened BigMultiply
  import opened BigNumbers
  import opened BigIntegers
  import opened Congruence
  import opened NewtonInverse
  import opened MontgomeryLemmas

  /** `invDigit`: 0 for an empty or even number, else -1/this modulo 2^28. */
  method InvDigit(n: BigInteger) returns (r: int)
    requires n.Valid()
    ensures n.t >= 1 && n.digits[0] % 2 == 1 ==> 0 <= r < DV && Congr(n.digits[0] * r, -1, DV)
    ensures n.t < 1 || n.digits[0] % 2 == 0 ==> r == 0
  {
    if n.t < 1 {
      return 0;
    }
    Pow2One();
    if LowBits(n.digits[0], 1) == 0 {
      return 0;
    }
    r := InverseOfDigit(n.digits[0]);
  }

  class Montgomery {
    const m: BigInteger
    const mp: int
    const mpl: int
    const mph: int
    const um: int
    const mt2: nat

    /** The modulus is odd and positive, and the constants fit it. */
    ghost predicate Valid()
      reads m
    {
      && m.Valid() && m.Clamped() && m.s == 0 && m.t > 0
      && m.Value() % 2 == 1
      && 0 <= mp < DV && Congr(m.digits[0] * mp, -1, DV)
      && mpl == mp % 0x8000 && mph == mp / 0x8000 && um == 0x1fff && mt2 == 2 * m.t
    }

    /** R */
    ghost function Radix(): (r: int)
      reads m
      ensures r >= 1
    {
      PowB(m.t)
    }

    constructor (n: BigInteger)
      requires n.Valid() && n.Clamped() && n.Value() > 0 && n.Value() % 2 == 1
      ensures m == n && Valid()
    {
      SignWord(n.digits, n.t, n.s);
      PositiveHasDigit(n.digits, n.t, n.s);
      LowBit(n.digits, n.t, n.s);
      var inv := InvDigit(n);
      m := n;
      mp := inv;
      mpl := Low15(inv);
      mph := High15(inv);
      um := 0x1fff;
      mt2 := 2 * n.t;
    }

    /** The carry of round i, added to digit j0, moves up; it stops inside the padding. */
    method PropagateCarry(x: BigInteger, i: nat, j0: nat, ghost x0: int, ghost u: int)
      requires Valid() && x != m && i < m.t && x.s == 0 && x.t == 2 * m.t + 1
      requires 0 <= u < PowB(i + 1)
      requires Propagating(x.digits, 2 * m.t + 1, i, j0, x0 + Val(m.digits, 0, m.t) * u)
      requires x0 + Val(m.digits, 0, m.t) * u < PowB(2 * m.t + 1)
      modifies x
      ensures x.s == 0 && x.t == 2 * m.t + 1
      ensures Reducing(x.digits, 2 * m.t + 1, i + 1, x0, Val(m.digits, 0, m.t), u)
    {
      hide Val, PowB, Congr, Reducing, Propagating;
      ghost var len, total := 2 * m.t + 1, x0 + Val(m.digits, 0, m.t) * u;
      var j := j0;
      PropagateReady(x.digits, len, i, j, total);
      while x.digits[j] >= DV
        modifies x
        invariant x.s == 0 && x.t == len
        invariant i < j < len && j in x.digits
        invariant Propagating(x.digits, len, i, j, total)
        decreases len - j
      {
        PropagateReady(x.digits, len, i, j, total);
        RoundCarry(x.digits, m.t, i, j, total);
        x.digits := x.digits[j := x.digits[j] - DV][j + 1 := x.digits[j + 1] + 1];
        j := j + 1;
        PropagateReady(x.digits, len, i, j, total);
      }
      CarryDone(x.digits, len, i, j, x0, Val(m.digits, 0, m.t), u);
    }

    /** Makes room for the rounds. */
    method Pad(x: BigInteger)
      requires Valid() && x != m && x.Valid() && x.s == 0 && x.t <= mt2 + 1
      modifies x
      ensures x.s == 0 && x.t == mt2 + 1 && IsDigits(x.digits, 0, x.t)
      ensures Val(x.digits, 0, x.t) == old(Val(x.digits, 0, x.t))
    {
      hide Val, Congr, IsClamped, NumVal;
      while x.t <= mt2
        invariant x.t <= mt2 + 1 && x.s == 0 && IsDigits(x.digits, 0, x.t)
        invariant Val(x.digits, 0, x.t) == old(Val(x.digits, 0, x.t))
        decreases mt2 - x.t
      {
        PadDigit(x.digits, x.t);
        x.digits := x.digits[x.t := 0];
        x.t := x.t + 1;
      }
    }

    /** Round i: a multiple of m that makes digit i zero is added. */
    method Round(x: BigInteger, i: nat, ghost x0: int, ghost u: int) returns (ghost u1: int)
      requires Valid() && x != m && i < m.t && x.s == 0 && x.t == 2 * m.t + 1
      requires 0 <= x0 < Val(m.digits, 0, m.t) * PowB(m.t)
      requires Reducing(x.digits, 2 * m.t + 1, i, x0, Val(m.digits, 0, m.t), u)
      modifies x
      ensures x.s == 0 && x.t == 2 * m.t + 1
      ensures Reducing(x.digits, 2 * m.t + 1, i + 1, x0, Val(m.digits, 0, m.t), u1)
    {
      hide Val, PowB, Congr, Reducing, Propagating, AmDone, IsClamped, NumVal, Low15, High15, Low13, Up15, Low28, JsRem;
      ghost var md, mt := m.digits, m.t;
      ghost var w0 := x.digits;
      RoundReady(w0, 2 * mt + 1, i, x0, Val(md, 0, mt), u);
      SplitWord(x.digits[i], mp);
      var j := Low15(x.digits[i]);
      var u0 := Low28(j * mpl + Up15(Low13(j * mph + High15(x.digits[i]) * mpl)));
      DigitCancels(x.digits[i], mp, md[0], u0);
      j := i + m.t;
      var c := m.Am(0, u0, x, i, 0, m.t);
      RoundAdds(x.digits, w0, md, mt, i, u0, c, x0, u);
      u1 := u + u0 * PowB(i);
      RoundBound(md, mt, i + 1, x0, u1);
      x.digits := x.digits[j := x.digits[j] + c];
      PropagateCarry(x, i, j, x0, u1);
    }

    /** After all rounds: division by R, and one subtraction if need be. */
    method Quotient(x: BigInteger, ghost x0: int, ghost u: int)
      requires Valid() && x != m && x.s == 0 && x.t == 2 * m.t + 1
      requires 0 <= x0 < Val(m.digits, 0, m.t) * PowB(m.t)
      requires Reducing(x.digits, 2 * m.t + 1, m.t, x0, Val(m.digits, 0, m.t), u)
      modifies x
      ensures x.Valid() && x.Clamped() && x.s == 0
      ensures 0 <= x.Value() < m.Value() && Congr(x.Value() * Radix(), x0, m.Value())
    {
      hide Val, PowB, Congr, Reducing, IsClamped, NumVal;
      AllRounds(x.digits, m.digits, m.t, x0, u);
      RoundReady(x.digits, 2 * m.t + 1, m.t, x0, Val(m.digits, 0, m.t), u);
      NumValIs(m.digits, m.t, 0);
      NumValIs(x.digits, x.t, 0);
      x.Clamp();
      x.DRShiftTo(m.t, x);
      ghost var q := x.Value();
      SignWord(x.digits, x.t, x.s);
      var c := x.CompareTo(m);
      if c >= 0 {
        x.SubTo(m, x);
      }
      SignWord(x.digits, x.t, x.s);
      QuotientRepresents(q, Radix(), x0, m.Value(), u, x.Value());
    }

    /** `reduce`: x becomes x / R modulo m, for every x below m R. */
    method Reduce(x: BigInteger)
      requires Valid() && x != m
      requires x.Valid() && x.s == 0 && x.t <= mt2 + 1 && x.Value() < m.Value() * Radix()
      modifies x
      ensures x.Valid() && x.Clamped() && x.s == 0
      ensures 0 <= x.Value() < m.Value()
      ensures Congr(x.Value() * Radix(), old(x.Value()), m.Value())
    {
      hide Val, PowB, Congr, Reducing, IsClamped, NumVal;
      ghost var x0 := x.Value();
      NumValIs(m.digits, m.t, 0);
      NumValIs(x.digits, x.t, 0);
      ValBound(x.digits, 0, x.t);
      Pad(x);
      ghost var u := 0;
      StartRounds(x.digits, 2 * m.t + 1, x0, Val(m.digits, 0, m.t));
      var i := 0;
      while i < m.t
        invariant 0 <= i <= m.t && x.s == 0 && x.t == 2 * m.t + 1
        invariant Reducing(x.digits, 2 * m.t + 1, i, x0, Val(m.digits, 0, m.t), u)
      {
        u := Round(x, i, x0, u);
        i := i + 1;
      }
      Quotient(x, x0, u);
    }

    /** r stands for a: it is a R modulo m, in [0, m). */
    ghost predicate Stands(r: int, a: int)
      requires Valid()
      reads m
    {
      0 <= r < m.Value() && Congr(r, a * Radix(), m.Value())
    }

    /** `convert`: x R modulo m, also for negative x. */
    method Convert(x: BigInteger) returns (r: BigInteger)
      requires Valid() && x.Valid() && x.Clamped()
      ensures fresh(r) && r.Valid() && r.Clamped() && Stands(r.Value(), x.Value())
    {
      hide PowB, NumVal, IsClamped, Congr;
      r := new BigInteger();
      var abs := x.Abs();
      abs.DLShiftTo(m.t, r);
      MulNonNegative(abs.Value(), Radix());
      SignWord(m.digits, m.t, m.s);
      r.Remainder(m);
      ConvertCongr(x.Value(), abs.Value(), Radix(), m.Value(), r.Value());
      SignWord(x.digits, x.t, x.s);
      SignWord(r.digits, r.t, r.s);
      if x.s < 0 {
        var sign := r.Signum();
        if sign > 0 {
          m.SubTo(r, r);
        }
      }
    }

    /** `revert`: the number a residue stands for, modulo m. */
    method Revert(x: BigInteger, ghost a: int) returns (r: BigInteger)
      requires Valid() && x.Valid() && x.Clamped() && Stands(x.Value(), a)
      ensures fresh(r) && r.Valid() && r.Clamped() && r.Value() == a % m.Value()
    {
      hide PowB, NumVal, IsClamped, Congr;
      r := new BigInteger();
      x.CopyTo(r);
      ResidueFits(x.digits, x.t, x.s, m.digits, m.t);
      SignWord(r.digits, r.t, r.s);
      MulGrows(r.Value(), Radix());
      Reduce(r);
      RevertCongr(r.Value(), x.Value(), a, m.t, m.Value());
    }

    /** `mulTo`: the product of what x and y stand for. */
    method MulTo(x: BigInteger, y: BigInteger, r: BigInteger, ghost a: int, ghost b: int)
      requires Valid() && x.Valid() && y.Valid() && r !in {x, y, m}
      requires Stands(x.Value(), a) && Stands(y.Value(), b)
      modifies r
      ensures r.Valid() && r.Clamped() && Stands(r.Value(), a * b)
    {
      hide PowB, NumVal, IsClamped, Congr;
      x.MultiplyTo(y, r);
      ProductReducible(r.digits, r.t, r.s, x.Value(), y.Value(), m.digits, m.t);
      ghost var p := r.Value();
      Reduce(r);
      ProductCongr(r.Value(), x.Value(), y.Value(), a, b, m.t, m.Value());
    }

    /** `sqrTo`: the square of what x stands for. */
    method SqrTo(x: BigInteger, r: BigInteger, ghost a: int)
      requires Valid() && x.Valid() && r !in {x, m}
      requires Stands(x.Value(), a)
      modifies r
      ensures r.Valid() && r.Clamped() && Stands(r.Value(), a * a)
    {
      hide PowB, NumVal, IsClamped, Congr;
      x.SquareTo(r);
      ProductReducible(r.digits, r.t, r.s, x.Value(), x.Value(), m.digits, m.t);
      Reduce(r);
      ProductCongr(r.Value(), x.Value(), x.Value(), a, a, m.t, m.Value());
    }
  }

  lemma MulGrows(a: int, b: int)
    requires a >= 0 && b >= 1
    ensures a <= a * b
  {
    MulMono(1, b, a);
  }

  /** The remainder of |x| R, negated for a negative x, is x R. */
  lemma ConvertCongr(x: int, abs: int, radix: int, m: int, r: int)
    requires m > 0 && abs == (if x < 0 then -x else x) && r == (abs * radix) % m
    ensures 0 <= r < m
    ensures x >= 0 ==> Congr(r, x * radix, m)
    ensures x < 0 ==> Congr(-r, x * radix, m) && Congr(m - r, x * radix, m)
  {
    CongrMod(abs * radix, m);
    if x < 0 {
      CongrRefl(0, m);
      CongrAdd(0, 0, r, abs * radix, m);
      DistribSum(radix, x, -x);
      CongrBy(m, 0, m, 1);
      CongrAdd(m, 0, -r, x * radix, m);
    }
  }

  /** The radix has an inverse modulo an odd m. */
  lemma {:induction false} RadixInverse(n: nat, m: int) returns (inv: int)
    requires m % 2 == 1 && m > 0
    ensures Congr(PowB(n) * inv, 1, m)
  {
    if n == 0 {
      inv := 1;
      CongrRefl(1, m);
    } else {
      var i := RadixInverse(n - 1, m);
      var h := DigitInverse(28, m);
      Pow2Values();
      inv := h * i;
      CongrMul(DV * h, 1, PowB(n - 1) * i, 1, m);
      FourFactors(DV, PowB(n - 1), h, i);
    }
  }

  lemma FourFactors(a: int, b: int, c: int, d: int)
    ensures (a * b) * (c * d) == (a * c) * (b * d)
  {
    MulAssoc(a * b, c, d);
    MulAssoc(a, b, c);
    MulAssoc(a, c, b);
    MulAssoc(a * c, b, d);
    assert (a * b) * c == (a * c) * b;
  }

  lemma {:induction false} DigitInverse(k: nat, m: int) returns (inv: int)
    requires m % 2 == 1 && m > 0
    ensures Congr(Pow2(k) * inv, 1, m)
  {
    if k == 0 {
      inv := 1;
      CongrRefl(1, m);
    } else {
      var i := DigitInverse(k - 1, m);
      var h := (m + 1) / 2;
      inv := h * i;
      CongrBy(2 * h, 1, m, 1);
      CongrMul(2 * h, 1, Pow2(k - 1) * i, 1, m);
      FourFactors(2, Pow2(k - 1), h, i);
    }
  }

  lemma RevertCongr(r: int, x: int, a: int, t: nat, m: int)
    requires m % 2 == 1 && m > 0 && 0 <= r < m
    requires Congr(r * PowB(t), x, m) && Congr(x, a * PowB(t), m)
    ensures r == a % m
  {
    hide Congr, PowB;
    CongrTrans(r * PowB(t), x, a * PowB(t), m);
    var inv := RadixInverse(t, m);
    CongrCancel(r, a, PowB(t), inv, m);
    CongrSym(r, a, m);
    CongrUnique(a, r, m);
  }

  lemma ProductCongr(r: int, x: int, y: int, a: int, b: int, t: nat, m: int)
    requires m % 2 == 1 && m > 0
    requires Congr(r * PowB(t), x * y, m) && Congr(x, a * PowB(t), m) && Congr(y, b * PowB(t), m)
    ensures Congr(r, (a * b) * PowB(t), m)
  {
    hide Congr, PowB;
    var p := PowB(t);
    CongrMul(x, a * p, y, b * p, m);
    FourFactors(a, p, b, p);
    MulAssoc(a * b, p, p);
    CongrTrans(r * p, x * y, ((a * b) * p) * p, m);
    var inv := RadixInverse(t, m);
    CongrCancel(r, (a * b) * p, p, inv, m);
  }

  /** A residue has no more digits than the modulus. */
  lemma ResidueFits(d: Digits, t: nat, s: int, md: Digits, mt: nat)
    requires IsNum(d, t, s) && IsClamped(d, t, s) && IsNum(md, mt, 0)
    requires 0 <= NumVal(d, t, s) < NumVal(md, mt, 0)
    ensures t <= mt
  {
    hide PowB, Val;
    NumValIs(md, mt, 0);
    ValBound(md, 0, mt);
    ClampedRange(d, t, s);
    if t > mt {
      PowBMono(mt, t - 1);
    }
  }

  lemma ProductReducible(d: Digits, t: nat, s: int, x: int, y: int, md: Digits, mt: nat)
    requires IsNum(d, t, s) && IsClamped(d, t, s) && IsNum(md, mt, 0)
    requires 0 <= x < NumVal(md, mt, 0) && 0 <= y < NumVal(md, mt, 0) && NumVal(d, t, s) == x * y
    ensures s == 0 && t <= 2 * mt + 1 && x * y < NumVal(md, mt, 0) * PowB(mt)
  {
    hide PowB, Val;
    NumValIs(md, mt, 0);
    ValBound(md, 0, mt);
    var m, p := NumVal(md, mt, 0), PowB(mt);
    MulMono(0, x, y);
    MulMono(y, m, x);
    MulMono(x, m - 1, m);
    DistribSum(m, m, -1);
    MulMono(m, p, m);
    MulMono(m, p, p);
    PowBAdd(mt, mt);
    ClampedRange(d, t, s);
    if t > 2 * mt {
      PowBMono(2 * mt, t - 1);
    }
  }

  lemma PositiveHasDigit(d: Digits, t: nat, s: int)
    requires IsNum(d, t, s) && NumVal(d, t, s) > 0
    ensures t > 0 && s == 0
  {
    ValBound(d, 0, t);
  }

  lemma PadDigit(d: Digits, t: nat)
    requires IsDigits(d, 0, t)
    ensures IsDigits(d[t := 0], 0, t + 1) && Val(d[t := 0], 0, t + 1) == Val(d, 0, t)
  {
    ValPut(d, 0, t, 0);
  }

  lemma StartRounds(d: Digits, len: nat, x0: int, m: int)
    requires IsDigits(d, 0, len) && Val(d, 0, len) == x0
    ensures Reducing(d, len, 0, x0, m, 0)
  {
  }

  lemma RoundReady(d: Digits, len: nat, i: nat, x0: int, m: int, u: int)
    requires Reducing(d, len, i, x0, m, u)
    ensures IsDigits(d, 0, len) && 0 <= u < PowB(i)
  {
  }

  lemma PropagateReady(d: Digits, len: nat, i: nat, j: nat, total: int)
    requires Propagating(d, len, i, j, total)
    ensures i < j < len && forall k :: 0 <= k < len ==> k in d
  {
  }
}
