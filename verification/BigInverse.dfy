/** `modInverse` on big integers: six numbers updated in place. */
module BigInverse {
  import opened JsInt
  import opened BigDigits
  import opened BigNumbers
  import opened BigIntegers
  import opened InverseSteps

  lemma TwoAndHalf(x: int)
    ensures x / Pow2(1) == x / 2
  {
    assert Pow2(1) == 2;
  }

  /** `nbv` */
  method Small(x: int) returns (r: BigInteger)
    requires -1 <= x < DV
    ensures fresh(r) && Usable(r) && r.Value() == x
  {
    r := new BigInteger();
    r.FromInt(x);
  }

  /** n >>= 1 */
  method Half(n: BigInteger)
    requires Usable(n)
    modifies n
    ensures Usable(n) && n.Value() == old(n.Value()) / 2
  {
    TwoAndHalf(n.Value());
    n.RShiftTo(1, n);
  }

  /** The first inner loop on (u, a, b); the second is the same on (v, c, d). */
  method HalveEven(u: BigInteger, a: BigInteger, b: BigInteger, x: BigInteger, m: BigInteger, ac: bool, ghost s: Pair)
    requires Usable(u) && Usable(a) && Usable(b) && Usable(x) && Usable(m)
    requires u != a && u != b && a != b && x !in {u, a, b} && m !in {u, a, b}
    requires ac <==> m.Value() % 2 == 0
    requires u.Value() > 0 && s.u == u.Value() && s.a == a.Value() && s.b == b.Value()
    modifies u, a, b
    ensures Usable(u) && Usable(a) && Usable(b)
    ensures var r := HalveU(s, x.Value(), m.Value());
      u.Value() == r.u && a.Value() == r.a && b.Value() == r.b && r.c == s.c && r.d == s.d
  {
    hide HalveU, NumVal, IsClamped;
    ghost var t := s;
    var even := u.IsEven();
    while even
      invariant Usable(u) && Usable(a) && Usable(b)
      invariant u.Value() > 0 && t.u == u.Value() && t.a == a.Value() && t.b == b.Value() && t.c == s.c && t.d == s.d
      invariant HalveU(s, x.Value(), m.Value()) == HalveU(t, x.Value(), m.Value())
      invariant even <==> u.Value() % 2 == 0
      decreases u.Value()
    {
      HalveOn(t, x.Value(), m.Value());
      t := HalveUOnce(t, x.Value(), m.Value());
      Half(u);
      if ac {
        var evenA := a.IsEven();
        var evenB := b.IsEven();
        if !evenA || !evenB {
          a.AddTo(x, a);
          b.SubTo(m, b);
        }
        Half(a);
      } else {
        var evenB := b.IsEven();
        if !evenB {
          b.SubTo(m, b);
        }
      }
      Half(b);
      even := u.IsEven();
    }
    HalveDone(t, x.Value(), m.Value());
  }

  lemma HalveOn(t: Pair, x: int, m: int)
    requires t.u > 0 && t.u % 2 == 0
    ensures HalveU(t, x, m) == HalveU(HalveUOnce(t, x, m), x, m)
  {
  }

  lemma HalveDone(t: Pair, x: int, m: int)
    requires t.u > 0 && t.u % 2 != 0
    ensures HalveU(t, x, m) == t
  {
  }

  predicate Distinct(u: BigInteger, v: BigInteger, a: BigInteger, b: BigInteger, c: BigInteger, d: BigInteger) {
    && u != v && u != a && u != b && u != c && u != d && v != a && v != b && v != c && v != d
    && a != b && a != c && a != d && b != c && b != d && c != d
  }

  ghost predicate Holds(s: Pair, u: BigInteger, v: BigInteger, a: BigInteger, b: BigInteger, c: BigInteger, d: BigInteger)
    reads u, v, a, b, c, d
  {
    && Usable(u) && Usable(v) && Usable(a) && Usable(b) && Usable(c) && Usable(d)
    && s == Pair(u.Value(), v.Value(), a.Value(), b.Value(), c.Value(), d.Value())
  }

  lemma HoldsParts(s: Pair, u: BigInteger, v: BigInteger, a: BigInteger, b: BigInteger, c: BigInteger, d: BigInteger)
    requires Holds(s, u, v, a, b, c, d)
    ensures Usable(u) && Usable(v) && Usable(d) && s.u == u.Value() && s.v == v.Value() && s.d == d.Value()
    ensures u.Valid() && u.Clamped()
  {
  }

  /** Takes the smaller off the larger, with its coefficients. */
  method TakeOff(u: BigInteger, v: BigInteger, a: BigInteger, b: BigInteger, c: BigInteger, d: BigInteger,
                 ac: bool, ghost m: int, ghost s: Pair)
    requires Distinct(u, v, a, b, c, d) && Holds(s, u, v, a, b, c, d)
    requires s.u > 0 && s.v > 0 && (ac <==> m % 2 == 0)
    modifies u, v, a, b, c, d
    ensures Holds(Subtract(s, m), u, v, a, b, c, d)
  {
    SignWord(u.digits, u.t, u.s);
    var order := u.CompareTo(v);
    if order >= 0 {
      u.SubTo(v, u);
      if ac {
        a.SubTo(c, a);
      }
      b.SubTo(d, b);
    } else {
      v.SubTo(u, v);
      if ac {
        c.SubTo(a, c);
      }
      d.SubTo(b, d);
    }
  }

  /** The body of the outer loop. */
  method OneRound(u: BigInteger, v: BigInteger, a: BigInteger, b: BigInteger, c: BigInteger, d: BigInteger,
                  n: BigInteger, m: BigInteger, ac: bool, ghost s: Pair)
    requires Distinct(u, v, a, b, c, d) && Holds(s, u, v, a, b, c, d)
    requires n !in {u, v, a, b, c, d} && m !in {u, v, a, b, c, d} && Usable(n) && Usable(m)
    requires s.u > 0 && s.v > 0 && (ac <==> m.Value() % 2 == 0)
    modifies u, v, a, b, c, d
    ensures Holds(Round(s, n.Value(), m.Value()), u, v, a, b, c, d)
  {
    hide HalveU, Subtract, NumVal;
    ghost var s1 := HalveU(s, n.Value(), m.Value());
    HalveEven(u, a, b, n, m, ac, s);
    ghost var s2 := HalveU(Swap(s1), n.Value(), m.Value());
    HalveEven(v, c, d, n, m, ac, Swap(s1));
    TakeOff(u, v, a, b, c, d, ac, m.Value(), Swap(s2));
  }

  /** The last coefficient becomes the result. */
  method Finish(v: BigInteger, d: BigInteger, m: BigInteger) returns (r: BigInteger)
    requires Usable(v) && Usable(d) && Usable(m)
    requires v.Value() > 0 && m.Value() > 0 && d != m && d != v
    modifies d
    ensures Usable(r) && r.Value() == if old(v.Value()) != 1 then 0 else Adjust(old(d.Value()), old(m.Value()))
  {
    SignWord(v.digits, v.t, v.s);
    SignWord(m.digits, m.t, m.s);
    var one := Small(1);
    var isOne := v.CompareTo(one);
    if isOne != 0 {
      r := new BigInteger();
      return;
    }
    var order := d.CompareTo(m);
    if order >= 0 {
      r := new BigInteger();
      d.SubTo(m, r);
      return;
    }
    var sign := d.Signum();
    if sign < 0 {
      d.AddTo(m, d);
    } else {
      return d;
    }
    sign := d.Signum();
    if sign < 0 {
      r := new BigInteger();
      d.AddTo(m, r);
    } else {
      return d;
    }
  }

  /** The inverse of a positive n modulo m, or zero. */
  method ModInverse(n: BigInteger, m: BigInteger) returns (r: BigInteger)
    requires Usable(n) && Usable(m) && n.Value() > 0 && m.Value() >= 0
    ensures Usable(r) && r.Value() == InverseOf(n.Value(), m.Value())
  {
    hide Adjust, Run, HalveU, HalveV, Round, NumVal, IsNum, IsClamped;
    var ac := m.IsEven();
    var nEven := n.IsEven();
    var mSign := m.Signum();
    if (nEven && ac) || mSign == 0 {
      r := new BigInteger();
      return;
    }
    var u := m.Clone();
    var v := n.Clone();
    var a := Small(1);
    var b := Small(0);
    var c := Small(0);
    var d := Small(1);
    ghost var s := Pair(m.Value(), n.Value(), 1, 0, 0, 1);
    ghost var s0 := s;
    assert Holds(s, u, v, a, b, c, d) && Distinct(u, v, a, b, c, d);
    var sign := u.Signum();
    hide *;
    while sign != 0
      modifies u, v, a, b, c, d
      invariant Holds(s, u, v, a, b, c, d)
      invariant s.u >= 0 && s.v > 0 && (sign != 0 <==> s.u != 0)
      invariant Run(s0, n.Value(), m.Value()) == Run(s, n.Value(), m.Value())
      decreases s.u + s.v
    {
      RunRound(s, n.Value(), m.Value());
      RoundShrinks(s, n.Value(), m.Value());
      OneRound(u, v, a, b, c, d, n, m, ac, s);
      s := Round(s, n.Value(), m.Value());
      HoldsParts(s, u, v, a, b, c, d);
      sign := u.Signum();
    }
    RunEnd(s, n.Value(), m.Value());
    HoldsParts(s, u, v, a, b, c, d);
    r := Finish(v, d, m);
  }
}
