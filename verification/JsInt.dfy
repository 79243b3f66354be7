/**
  JavaScript's 32-bit integer operators, on mathematical integers.

  `&`, `|` and `^` work bit by bit on the operands taken modulo 2^32; `&`, `<<`
  and `>>` yield a signed 32-bit integer.  The lemmas say when an operator is
  plain arithmetic; the callers' proofs discharge those conditions, so that no
  wrap-around is assumed away.
*/
module JsInt {

  function Pow2(n: nat): (p: int)
    ensures p >= 1
  {
    if n == 0 then 1 else 2 * Pow2(n - 1)
  }

  const TWO31 := 0x8000_0000
  const TWO32 := 0x1_0000_0000

  predicate IsInt32(x: int) {
    -TWO31 <= x < TWO31
  }

  function ToUint32(x: int): (r: nat)
    ensures r < TWO32
    ensures 0 <= x < TWO32 ==> r == x
  {
    x % TWO32
  }

  function ToInt32(x: int): (r: int)
    ensures IsInt32(r)
    ensures IsInt32(x) ==> r == x
    ensures (r - x) % TWO32 == 0
  {
    (x + TWO31) % TWO32 - TWO31
  }

  function AndNat(a: nat, b: nat): nat {
    if a == 0 || b == 0 then 0 else (a % 2) * (b % 2) + 2 * AndNat(a / 2, b / 2)
  }

  function OrNat(a: nat, b: nat): nat {
    if a == 0 then b else if b == 0 then a
    else (if a % 2 == 1 || b % 2 == 1 then 1 else 0) + 2 * OrNat(a / 2, b / 2)
  }

  function XorNat(a: nat, b: nat): nat {
    if a == 0 then b else if b == 0 then a
    else (a + b) % 2 + 2 * XorNat(a / 2, b / 2)
  }

  function And(x: int, y: int): int {
    ToInt32(AndNat(ToUint32(x), ToUint32(y)))
  }

  function Or(x: int, y: int): int {
    ToInt32(OrNat(ToUint32(x), ToUint32(y)))
  }

  function Xor(x: int, y: int): int {
    ToInt32(XorNat(ToUint32(x), ToUint32(y)))
  }

  function Shl(x: int, k: nat): int
    requires k < 32
  {
    ToInt32(x * Pow2(k))
  }

  function Shr(x: int, k: nat): int
    requires k < 32
  {
    ToInt32(x) / Pow2(k)
  }

  /** The low k bits of a number, kept and dropped. */
  lemma HalfMod(a: nat, k: nat)
    requires k > 0
    ensures a % Pow2(k) == a % 2 + 2 * ((a / 2) % Pow2(k - 1))
    ensures a / Pow2(k) == (a / 2) / Pow2(k - 1)
  {
    var p := Pow2(k - 1);
    var q, r := (a / 2) / p, (a / 2) % p;
    assert a / 2 == q * p + r;
    assert a == q * (2 * p) + (2 * r + a % 2);
    DivModUnique(a, 2 * p, q, 2 * r + a % 2);
  }

  lemma MulAtLeast(a: int, b: int)
    requires a >= 1 && b >= 0
    ensures a * b >= b
  {
  }

  lemma DivModUnique(a: int, d: int, q: int, r: int)
    requires d > 0 && 0 <= r < d && a == q * d + r
    ensures a / d == q && a % d == r
  {
    var q' := a / d;
    var e := q - q';
    assert e * d == q * d - q' * d;
    if e >= 1 {
      MulAtLeast(e, d);
    } else if e <= -1 {
      MulAtLeast(-e, d);
    }
  }

  lemma {:induction false} AndNatMask(a: nat, k: nat)
    ensures AndNat(a, Pow2(k) - 1) == a % Pow2(k)
  {
    if k > 0 {
      HalfMod(a, k);
      if a > 0 {
        assert (Pow2(k) - 1) % 2 == 1 && (Pow2(k) - 1) / 2 == Pow2(k - 1) - 1;
        AndNatMask(a / 2, k - 1);
      }
    }
  }

  lemma {:induction false} Pow2Add(m: nat, n: nat)
    ensures Pow2(m + n) == Pow2(m) * Pow2(n)
  {
    if m > 0 {
      Pow2Add(m - 1, n);
      assert Pow2(m) * Pow2(n) == 2 * (Pow2(m - 1) * Pow2(n));
    }
  }

  lemma Pow2Values()
    ensures Pow2(14) == 0x4000 && Pow2(15) == 0x8000 && Pow2(28) == 0x1000_0000
    ensures Pow2(31) == TWO31 && Pow2(32) == TWO32
  {
    assert Pow2(8) == 0x100;
    assert Pow2(14) == 0x4000;
    assert Pow2(20) == 0x10_0000;
    assert Pow2(28) == 0x1000_0000;
  }

  lemma {:induction false} Pow2AtMost(k: nat, n: nat)
    requires k <= n
    ensures Pow2(k) <= Pow2(n)
  {
    if k < n {
      Pow2AtMost(k, n - 1);
    }
  }

  lemma Pow2Splits32(k: nat)
    requires k <= 31
    ensures Pow2(k) * Pow2(32 - k) == TWO32
    ensures Pow2(k) <= TWO31
  {
    Pow2Add(k, 32 - k);
    Pow2Values();
    Pow2AtMost(k, 31);
  }

  /** Masking with 2^k - 1 keeps the residue modulo 2^k, whatever the sign of x. */
  lemma AndMask(x: int, k: nat)
    requires k <= 31
    ensures And(x, Pow2(k) - 1) == x % Pow2(k)
  {
    hide Pow2, AndNat;
    Pow2Splits32(k);
    AndNatMask(ToUint32(x), k);
    ModOfMod(x, Pow2(k), Pow2(32 - k));
    ModRange(x, Pow2(k));
  }

  lemma ModRange(x: int, p: int)
    requires p > 0
    ensures 0 <= x % p < p
  {
  }

  lemma ModOfMod(x: int, p: int, q: int)
    requires p > 0 && q > 0
    ensures x % (p * q) % p == x % p
  {
    assert p * q > 0;
    var a, b := x / (p * q), x % (p * q);
    var c, d := b / p, b % p;
    calc {
      x;
      a * (p * q) + b;
      { assert a * (p * q) == (a * q) * p; }
      (a * q) * p + (c * p + d);
      (a * q + c) * p + d;
    }
    DivModUnique(x, p, a * q + c, d);
  }

  /** Joining disjoint bit ranges is addition. */
  lemma {:induction false} OrNatDisjoint(lo: nat, hi: nat, k: nat)
    requires lo < Pow2(k)
    ensures OrNat(lo, hi * Pow2(k)) == lo + hi * Pow2(k)
  {
    if lo > 0 && hi > 0 {
      var p := Pow2(k - 1);
      assert hi * Pow2(k) == 2 * (hi * p);
      assert hi * Pow2(k) > 0;
      assert (hi * Pow2(k)) % 2 == 0 && (hi * Pow2(k)) / 2 == hi * p;
      OrNatDisjoint(lo / 2, hi, k - 1);
    }
  }

  lemma OrDisjoint(lo: int, hi: int, k: nat)
    requires 0 <= lo < Pow2(k) && 0 <= hi && lo + hi * Pow2(k) < TWO31
    ensures Or(lo, hi * Pow2(k)) == lo + hi * Pow2(k)
    ensures Or(hi * Pow2(k), lo) == lo + hi * Pow2(k)
  {
    assert 0 <= hi * Pow2(k);
    OrNatDisjoint(lo, hi, k);
    OrNatComm(lo, hi * Pow2(k));
  }

  lemma {:induction false} OrNatComm(a: nat, b: nat)
    ensures OrNat(a, b) == OrNat(b, a)
  {
    if a > 0 && b > 0 {
      OrNatComm(a / 2, b / 2);
    }
  }

  lemma Pow2One()
    ensures Pow2(1) == 2
  {
  }

  lemma {:induction false} AndNatBit(a: nat, k: nat)
    ensures AndNat(a, Pow2(k)) == if (a / Pow2(k)) % 2 == 1 then Pow2(k) else 0
  {
    if a == 0 {
      ZeroQuotient(k);
    } else if k == 0 {
      AndNatMask(a, 1);
      Pow2One();
      assert AndNat(a / 2, 0) == 0;
    } else {
      HalfMod(a, k);
      AndNatBit(a / 2, k - 1);
      assert Pow2(k) % 2 == 0 && Pow2(k) / 2 == Pow2(k - 1);
    }
  }

  lemma ZeroQuotient(k: nat)
    ensures 0 / Pow2(k) == 0
  {
    DivModUnique(0, Pow2(k), 0, 0);
  }

  /** `(x & (1 << k)) != 0` */
  predicate TestBit(x: int, k: nat)
    requires k < 31
  {
    And(x, Shl(1, k)) != 0
  }

  lemma TestBitIs(x: int, k: nat)
    requires k < 31 && 0 <= x < TWO31
    ensures TestBit(x, k) <==> (x / Pow2(k)) % 2 == 1
  {
    hide Pow2, AndNat;
    Pow2AtMost(k, 30);
    assert Pow2(31) == 2 * Pow2(30) by { Pow2Next(30); }
    Pow2Values();
    AndNatBit(x, k);
  }

  lemma Pow2Next(k: nat)
    ensures Pow2(k + 1) == 2 * Pow2(k)
  {
  }

  // ----- bit by bit -----

  function Bit(a: nat, k: nat): (r: nat)
    ensures r < 2
  {
    (a / Pow2(k)) % 2
  }

  lemma BitZero(a: nat)
    ensures Bit(a, 0) == a % 2
  {
  }

  /** Bit k of a number is bit k - 1 of its half. */
  lemma BitHalf(a: nat, k: nat)
    requires k > 0
    ensures Bit(a, k) == Bit(a / 2, k - 1)
  {
    HalfMod(a, k);
  }

  lemma XorStep(a: nat, b: nat)
    ensures XorNat(a, b) == (a + b) % 2 + 2 * XorNat(a / 2, b / 2)
  {
    assert XorNat(0, b / 2) == b / 2 && XorNat(a / 2, 0) == a / 2;
  }

  lemma XorParts(a: nat, b: nat)
    ensures XorNat(a, b) % 2 == (a % 2 + b % 2) % 2 && XorNat(a, b) / 2 == XorNat(a / 2, b / 2)
  {
    XorStep(a, b);
    Join((a + b) % 2, XorNat(a / 2, b / 2));
    Parity(a, b);
    hide XorNat;
  }

  /** Exclusive or: a bit of the result is the sum of the two bits, without carry. */
  lemma {:induction false} XorBit(a: nat, b: nat, k: nat)
    ensures Bit(XorNat(a, b), k) == (Bit(a, k) + Bit(b, k)) % 2
  {
    hide *;
    XorParts(a, b);
    if k == 0 {
      BitZero(XorNat(a, b));
      BitZero(a);
      BitZero(b);
    } else {
      BitHalf(XorNat(a, b), k);
      BitHalf(a, k);
      BitHalf(b, k);
      XorBit(a / 2, b / 2, k - 1);
    }
  }

  /** The same in plain arithmetic. */
  lemma XorNatBit(a: nat, b: nat, k: nat)
    ensures (XorNat(a, b) / Pow2(k)) % 2 == (a / Pow2(k) + b / Pow2(k)) % 2
  {
    XorBit(a, b, k);
    Parity(a / Pow2(k), b / Pow2(k));
    hide XorNat, Pow2;
  }

  lemma Parity(x: int, y: int)
    ensures (x % 2 + y % 2) % 2 == (x + y) % 2
  {
  }

  /** Doing it twice undoes it. */
  lemma {:induction false} XorNatTwice(a: nat, b: nat)
    ensures XorNat(XorNat(a, b), b) == a
    decreases a + b
  {
    if a > 0 || b > 0 {
      XorNatTwice(a / 2, b / 2);
      XorParts(a, b);
      XorParts(XorNat(a, b), b);
    } else {
      assert XorNat(0, 0) == 0;
    }
    hide XorNat;
  }

  lemma {:induction false} XorNatComm(a: nat, b: nat)
    ensures XorNat(a, b) == XorNat(b, a)
  {
    if a > 0 && b > 0 {
      XorNatComm(a / 2, b / 2);
    }
  }

  lemma {:induction false} XorNatBelow(a: nat, b: nat, k: nat)
    requires a < Pow2(k) && b < Pow2(k)
    ensures XorNat(a, b) < Pow2(k)
  {
    if a > 0 && b > 0 {
      XorNatBelow(a / 2, b / 2, k - 1);
    }
  }

  /** The operator on numbers of any sign works on their 32 low bits. */
  lemma XorUnsigned(x: int, y: int)
    ensures ToUint32(Xor(x, y)) == XorNat(ToUint32(x), ToUint32(y)) < TWO32
    ensures 0 <= x < TWO31 && 0 <= y < TWO31 ==> Xor(x, y) == XorNat(x, y) < TWO31
  {
    Pow2Values();
    XorNatBelow(ToUint32(x), ToUint32(y), 32);
    if 0 <= x < TWO31 && 0 <= y < TWO31 {
      XorNatBelow(x, y, 31);
    }
    UnsignedBack(XorNat(ToUint32(x), ToUint32(y)));
    hide XorNat, ToInt32, Pow2;
  }

  lemma UnsignedBack(x: int)
    ensures ToUint32(ToInt32(x)) == ToUint32(x)
  {
  }

  /** The k low bits, and the number without them. */
  function LowPart(a: nat, k: nat): (r: nat) {
    ModRange(a, Pow2(k));
    a % Pow2(k)
  }

  function HighPart(a: nat, k: nat): (r: nat) {
    QuotientRange(a, Pow2(k));
    a / Pow2(k)
  }

  lemma QuotientRange(a: nat, p: int)
    requires p > 0
    ensures a / p >= 0
  {
  }

  lemma PartsHalf(a: nat, k: nat)
    requires k > 0
    ensures LowPart(a, k) == a % 2 + 2 * LowPart(a / 2, k - 1) && HighPart(a, k) == HighPart(a / 2, k - 1)
  {
    HalfMod(a, k);
    hide Pow2;
  }

  /** Low and high bits are combined separately. */
  lemma {:induction false} XorSplit(a: nat, b: nat, k: nat)
    ensures LowPart(XorNat(a, b), k) == XorNat(LowPart(a, k), LowPart(b, k))
    ensures HighPart(XorNat(a, b), k) == XorNat(HighPart(a, k), HighPart(b, k))
  {
    hide *;
    if k == 0 {
      NoLowPart(XorNat(a, b));
      NoLowPart(a);
      NoLowPart(b);
    } else {
      PartsHalf(XorNat(a, b), k);
      PartsHalf(a, k);
      PartsHalf(b, k);
      XorParts(a, b);
      XorSplit(a / 2, b / 2, k - 1);
      XorJoin(a % 2, LowPart(a / 2, k - 1), b % 2, LowPart(b / 2, k - 1));
      Parity(a, b);
    }
  }

  lemma NoLowPart(a: nat)
    ensures LowPart(a, 0) == 0 && HighPart(a, 0) == a && XorNat(0, 0) == 0
  {
  }

  lemma XorJoin(p: nat, a: nat, q: nat, b: nat)
    requires p < 2 && q < 2
    ensures XorNat(p + 2 * a, q + 2 * b) == (p + q) % 2 + 2 * XorNat(a, b)
  {
    Join(p, a);
    Join(q, b);
    XorParts(p + 2 * a, q + 2 * b);
    hide XorNat;
  }

  lemma Join(p: nat, a: nat)
    requires p < 2
    ensures (p + 2 * a) % 2 == p && (p + 2 * a) / 2 == a
  {
  }
}
