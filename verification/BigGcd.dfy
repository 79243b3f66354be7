/** `gcd` on big integers: the binary algorithm with in-place shifts. */
module BigGcd {
  import opened JsInt
  import opened BigDigits
  import opened BigShifts
  import opened BigMultiply
  import opened BigNumbers
  import opened BigIntegers
  import opened Divisors

  /** x without its trailing zero bits. */
  lemma OddAfterShift(x: int, i: nat)
    requires IsLowestBit(x, i)
    ensures (x / Pow2(i)) % 2 == 1 && x == (x / Pow2(i)) * Pow2(i)
    ensures x > 0 ==> 0 < x / Pow2(i) <= x
    ensures i == 0 ==> x / Pow2(i) == x
  {
    var p, q := Pow2(i), x / Pow2(i);
    DivModDef(x, p);
    if x > 0 {
      PositiveQuotient(q, p);
      MulAtLeast(p, q);
    }
  }

  /** Dividing by fewer bits than there are trailing zeros is exact. */
  lemma ExactShift(x: int, i: nat, g: nat)
    requires IsLowestBit(x, i) && g <= i
    ensures x == (x / Pow2(g)) * Pow2(g)
    ensures g == i ==> (x / Pow2(g)) % 2 == 1
  {
    OddAfterShift(x, i);
    Pow2Add(i - g, g);
    MulAssoc(x / Pow2(i), Pow2(i - g), Pow2(g));
    DivModUnique(x, Pow2(g), (x / Pow2(i)) * Pow2(i - g), 0);
  }

  /** Whatever is the gcd of the current pair is the gcd of the pair at the start. */
  ghost predicate Leads(x: int, y: int, x0: int, y0: int) {
    forall h :: IsGcd(h, x, y) ==> IsGcd(h, x0, y0)
  }

  lemma LeadsShift(x: int, i: nat, y: int, x0: int, y0: int)
    requires IsLowestBit(x, i) && y % 2 == 1 && Leads(x, y, x0, y0)
    ensures Leads(x / Pow2(i), y, x0, y0)
  {
    OddAfterShift(x, i);
    forall h | IsGcd(h, x / Pow2(i), y) ensures IsGcd(h, x0, y0) {
      GcdShift(h, x / Pow2(i), y, i);
    }
  }

  lemma LeadsSym(x: int, y: int, x0: int, y0: int)
    requires Leads(x, y, x0, y0)
    ensures Leads(y, x, x0, y0)
  {
    forall h | IsGcd(h, y, x) ensures IsGcd(h, x0, y0) {
      GcdSym(h, y, x);
    }
  }

  /** Half the difference of two odd numbers. */
  lemma LeadsHalfDifference(x: int, y: int, x0: int, y0: int)
    requires x % 2 == 1 && y % 2 == 1 && Leads(x, y, x0, y0)
    ensures Leads((x - y) / Pow2(1), y, x0, y0)
    ensures Pow2(1) == 2
  {
    assert Pow2(1) == 2;
    var half := (x - y) / 2;
    assert x - y == 2 * half;
    forall h | IsGcd(h, half, y) ensures IsGcd(h, x0, y0) {
      GcdDouble(h, half, y);
      GcdMinus(h, x, y);
    }
  }

  lemma LeadsRefl(x: int, y: int)
    ensures Leads(x, y, x, y)
  {
  }

  lemma LeadsEnd(y: int, x0: int, y0: int)
    requires y >= 0 && Leads(0, y, x0, y0)
    ensures IsGcd(y, x0, y0)
  {
    GcdZero(y);
  }

  /** Undoing the signs and the swap at the start. */
  lemma GcdOfAbs(g: int, v: int, w: int, x: int, y: int)
    requires IsGcd(g, x, y)
    requires (x == v || x == -v) && (y == w || y == -w)
    ensures IsGcd(g, v, w)
  {
    if x == -v && x != v {
      GcdNeg(g, v, y);
    }
    if y == -w && y != w {
      GcdSym(g, v, y);
      GcdNeg(g, w, v);
      GcdSym(g, w, v);
    }
  }

  /** A copy of |n|. */
  method AbsCopy(n: BigInteger) returns (r: BigInteger)
    requires n.Valid() && n.Clamped()
    ensures fresh(r) && r.Valid() && r.Clamped() && r.s == 0
    ensures r.Value() == if n.Value() < 0 then -n.Value() else n.Value()
  {
    SignWord(n.digits, n.t, n.s);
    if n.s < 0 {
      r := n.Negate();
    } else {
      r := n.Clone();
    }
    SignWord(r.digits, r.t, r.s);
  }

  /** x >>= its number of trailing zeros. */
  method DropZeros(x: BigInteger, i: int)
    requires x.Valid() && x.Clamped() && x.Value() > 0
    requires i >= 0 && IsLowestBit(x.Value(), i)
    modifies x
    ensures x.Valid() && x.Clamped() && x.Value() == old(x.Value()) / Pow2(i)
    ensures x.Value() % 2 == 1 && 0 < x.Value() <= old(x.Value())
  {
    OddAfterShift(x.Value(), i);
    if i > 0 {
      x.RShiftTo(i, x);
    }
  }

  /** x = (x - y) >> 1 */
  method HalfDifference(x: BigInteger, y: BigInteger)
    requires x.Valid() && y.Valid() && x != y
    modifies x
    ensures x.Valid() && x.Clamped() && x.Value() == (old(x.Value()) - y.Value()) / Pow2(1)
  {
    x.SubTo(y, x);
    x.RShiftTo(1, x);
  }

  /** The greatest common divisor of any two numbers. */
  method Gcd(n: BigInteger, a: BigInteger) returns (r: BigInteger)
    requires n.Valid() && n.Clamped() && a.Valid() && a.Clamped()
    ensures fresh(r) && r.Valid() && r.Clamped()
    ensures IsGcd(r.Value(), n.Value(), a.Value())
  {
    hide IsGcd, IsLowestBit, Pow2, NumVal, IsClamped;
    var x := AbsCopy(n);
    var y := AbsCopy(a);
    ghost var vx, vy := x.Value(), y.Value();
    NonNegative(x.digits, x.t);
    NonNegative(y.digits, y.t);
    var c := x.CompareTo(y);
    ghost var swapped := c < 0;
    if c < 0 {
      x, y := y, x;
    }
    ghost var x0, y0 := x.Value(), y.Value();
    var i := x.GetLowestSetBit();
    var g := y.GetLowestSetBit();
    if g < 0 {
      GcdZero(x0);
      Unswap(x0, n.Value(), a.Value(), vx, vy, x0, y0, swapped);
      return x;
    }
    ghost var ix, iy := i, g;
    if i < g {
      g := i;
    }
    ExactShift(x0, ix, g);
    ExactShift(y0, iy, g);
    ShiftPositive(x0, g);
    ShiftPositive(y0, g);
    if g > 0 {
      x.RShiftTo(g, x);
      y.RShiftTo(g, y);
    } else {
      NoShift(x0);
      NoShift(y0);
    }
    ghost var x1, y1 := x.Value(), y.Value();
    LeadsRefl(x1, y1);
    var sign := x.Signum();
    while sign > 0
      invariant fresh(x) && fresh(y) && x != y
      invariant x.Valid() && x.Clamped() && y.Valid() && y.Clamped()
      invariant x.Value() >= 0 && y.Value() > 0
      invariant x.Value() % 2 == 1 || y.Value() % 2 == 1
      invariant Leads(x.Value(), y.Value(), x1, y1)
      invariant sign > 0 <==> x.Value() > 0
      decreases x.Value() + y.Value()
    {
      HalveRound(x, y, x1, y1);
      sign := x.Signum();
    }
    LeadsEnd(y.Value(), x1, y1);
    GcdBothShift(y.Value(), x1, y1, g);
    Unswap(y.Value() * Pow2(g), n.Value(), a.Value(), vx, vy, x0, y0, swapped);
    if g > 0 {
      y.LShiftTo(g, y);
    } else {
      NoShift(y.Value());
    }
    return y;
  }

  /** One round of the loop: both numbers become odd, then the larger one half the difference. */
  method HalveRound(x: BigInteger, y: BigInteger, ghost x1: int, ghost y1: int)
    requires x != y && x.Valid() && x.Clamped() && y.Valid() && y.Clamped()
    requires x.Value() > 0 && y.Value() > 0
    requires x.Value() % 2 == 1 || y.Value() % 2 == 1
    requires Leads(x.Value(), y.Value(), x1, y1)
    modifies x, y
    ensures x.Valid() && x.Clamped() && y.Valid() && y.Clamped()
    ensures x.Value() >= 0 && y.Value() > 0
    ensures x.Value() % 2 == 1 || y.Value() % 2 == 1
    ensures Leads(x.Value(), y.Value(), x1, y1)
    ensures x.Value() + y.Value() < old(x.Value() + y.Value())
  {
    hide IsGcd, Leads, IsLowestBit, Pow2, NumVal, IsClamped;
    var i := x.GetLowestSetBit();
    ghost var v, w := x.Value(), y.Value();
    OddIsUnshifted(v, i);
    if w % 2 == 1 {
      LeadsShift(v, i, w, x1, y1);
    }
    DropZeros(x, i);
    v := x.Value();
    i := y.GetLowestSetBit();
    OddIsUnshifted(w, i);
    LeadsSym(v, w, x1, y1);
    LeadsShift(w, i, v, x1, y1);
    DropZeros(y, i);
    w := y.Value();
    LeadsSym(w, v, x1, y1);
    SignWord(x.digits, x.t, x.s);
    var c := x.CompareTo(y);
    if c >= 0 {
      LeadsHalfDifference(v, w, x1, y1);
      HalfDifference(x, y);
    } else {
      LeadsHalfDifference(w, v, x1, y1);
      HalfDifference(y, x);
      LeadsSym(y.Value(), v, x1, y1);
    }
  }

  lemma OddIsUnshifted(x: int, i: int)
    requires i >= 0 && IsLowestBit(x, i)
    ensures x % 2 == 1 ==> x / Pow2(i) == x
  {
    if x % 2 == 1 && i > 0 {
      OddAfterShift(x, i);
      assert Pow2(i) == 2 * Pow2(i - 1);
      EvenTimes(x / Pow2(i), Pow2(i - 1));
    } else {
      assert i == 0 ==> Pow2(i) == 1;
    }
  }

  lemma NonNegative(d: Digits, t: nat)
    requires IsNum(d, t, 0)
    ensures NumVal(d, t, 0) >= 0
  {
    ValBound(d, 0, t);
  }

  lemma ShiftPositive(x: int, g: nat)
    requires x > 0 && x == (x / Pow2(g)) * Pow2(g)
    ensures x / Pow2(g) > 0
  {
    PositiveQuotient(x / Pow2(g), Pow2(g));
  }

  lemma NoShift(x: int)
    ensures x / Pow2(0) == x && x * Pow2(0) == x
  {
  }

  lemma Unswap(g: int, v: int, w: int, vx: int, vy: int, x0: int, y0: int, swapped: bool)
    requires IsGcd(g, x0, y0)
    requires vx == (if v < 0 then -v else v) && vy == (if w < 0 then -w else w)
    requires if swapped then x0 == vy && y0 == vx else x0 == vx && y0 == vy
    ensures IsGcd(g, v, w)
  {
    if swapped {
      GcdSym(g, x0, y0);
    }
    GcdOfAbs(g, v, w, vx, vy);
  }
}
