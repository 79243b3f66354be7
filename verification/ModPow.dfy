/**
  `modPow`: sliding-window exponentiation over one of three modular reducers.
  The residues are big integers updated in place; r and r2 trade places.
*/
module ModPow {
  import opened JsInt
  import opened BigDigits
  import opened BigShifts
  import opened BigNumbers
  import opened BigIntegers
  import opened Congruence
  import opened Montgomeries
  import opened BitWindows

  datatype Scheme = Classic | Barrett | Mont

  /**
    A modular reducer.  A residue r stands for a number a; products and squares
    of residues stand for products and squares.  The reductions of the classic
    and the Barrett scheme are remainders here.
  */
  class Reducer {
    const scheme: Scheme
    const m: BigInteger
    const mont: Montgomery?

    ghost predicate Valid()
      reads m
    {
      && Usable(m) && m.Value() > 0
      && (scheme.Mont? <==> mont != null)
      && (mont != null ==> mont.m == m && mont.Valid())
    }

    constructor (scheme: Scheme, m: BigInteger)
      requires Usable(m) && m.Value() > 0 && (scheme.Mont? ==> m.Value() % 2 == 1)
      ensures Valid() && this.m == m
    {
      var z: Montgomery? := null;
      if scheme.Mont? {
        z := new Montgomery(m);
      }
      this.scheme := scheme;
      this.m := m;
      this.mont := z;
    }

    ghost predicate Stands(r: int, a: int)
      requires Valid()
      reads m
    {
      if mont != null then mont.Stands(r, a) else r == a % m.Value()
    }

    method Convert(x: BigInteger) returns (r: BigInteger)
      requires Valid() && Usable(x)
      ensures r == x || fresh(r)
      ensures Usable(r) && Stands(r.Value(), x.Value())
    {
      if mont != null {
        r := mont.Convert(x);
        return;
      }
      SignWord(m.digits, m.t, m.s);
      SignWord(x.digits, x.t, x.s);
      var large := true;
      if scheme == Classic {
        if x.s >= 0 {
          var c := x.CompareTo(m);
          large := c >= 0;
        }
      } else if x.s >= 0 && x.t <= 2 * m.t {
        var c := x.CompareTo(m);
        if c >= 0 {
          r := x.Clone();
          r.Remainder(m);
          return;
        }
        large := false;
      }
      if large {
        r := x.Mod(m);
      } else {
        ModBelow(x.Value(), m.Value());
        r := x;
      }
    }

    method Revert(x: BigInteger, ghost a: int) returns (r: BigInteger)
      requires Valid() && Usable(x) && Stands(x.Value(), a)
      ensures r == x || fresh(r)
      ensures Usable(r) && r.Value() == a % m.Value()
    {
      if mont != null {
        r := mont.Revert(x, a);
      } else {
        r := x;
      }
    }

    method MulTo(x: BigInteger, y: BigInteger, r: BigInteger, ghost a: int, ghost b: int)
      requires Valid() && Usable(x) && Usable(y) && r !in {x, y, m}
      requires Stands(x.Value(), a) && Stands(y.Value(), b)
      modifies r
      ensures Usable(r) && Stands(r.Value(), a * b)
    {
      if mont != null {
        mont.MulTo(x, y, r, a, b);
      } else {
        x.MultiplyTo(y, r);
        ModOfProduct(a, b, m.Value());
        r.Remainder(m);
      }
    }

    method SqrTo(x: BigInteger, r: BigInteger, ghost a: int)
      requires Valid() && Usable(x) && r !in {x, m}
      requires Stands(x.Value(), a)
      modifies r
      ensures Usable(r) && Stands(r.Value(), a * a)
    {
      if mont != null {
        mont.SqrTo(x, r, a);
      } else {
        x.SquareTo(r);
        ModOfProduct(a, a, m.Value());
        r.Remainder(m);
      }
    }
  }

  lemma ModOfProduct(a: int, b: int, m: int)
    requires m > 0
    ensures 0 <= (a % m) * (b % m)
    ensures ((a % m) * (b % m)) % m == (a * b) % m
  {
    DivModDef(a, m);
    DivModDef(b, m);
    MulNonNegative(a % m, b % m);
    CongrMod(a, m);
    CongrMod(b, m);
    CongrMul(a % m, a, b % m, b, m);
    CongrMod(a * b, m);
    CongrTrans((a % m) * (b % m), a * b, (a * b) % m, m);
    DivModDef(a * b, m);
    CongrUnique((a % m) * (b % m), (a * b) % m, m);
  }

  // ----- the exponent -----

  /** `bitLength` of a non-negative number. */
  method BitLength(e: BigInteger) returns (n: nat)
    requires Usable(e) && e.s == 0
    ensures e.t == 0 ==> n == 0
    ensures e.t > 0 ==> n >= 1 && Pow2(n - 1) <= e.Value() < Pow2(n)
  {
    if e.t <= 0 {
      return 0;
    }
    XorZero(e.digits[e.t - 1]);
    var top := NBits(Xor(e.digits[e.t - 1], 0));
    n := DB * (e.t - 1) + top;
    LengthBounds(e.digits, e.t, top);
  }

  lemma XorZero(x: int)
    requires 0 <= x < DV
    ensures Xor(x, 0) == x
  {
  }

  lemma NumValTop(d: Digits, t: nat)
    requires t > 0 && IsDigits(d, 0, t)
    ensures IsDigits(d, 0, t - 1) && t - 1 in d && NumVal(d, t, 0) == Val(d, 0, t - 1) + d[t - 1] * PowB(t - 1)
  {
    NumValIs(d, t, 0);
  }

  lemma TopBounds(rest: int, x: int, p: int, lo: int, hi: int)
    requires 0 <= rest < p && lo <= x < hi
    ensures p * lo <= rest + x * p < p * hi
  {
    MulMono(lo, x, p);
    MulMono(x + 1, hi, p);
    DistribSum(p, x, 1);
  }

  lemma LengthBounds(d: Digits, t: nat, top: nat)
    requires t > 0 && IsDigits(d, 0, t) && top >= 1 && Pow2(top - 1) <= d[t - 1] < Pow2(top)
    ensures Pow2(28 * (t - 1) + top - 1) <= NumVal(d, t, 0) < Pow2(28 * (t - 1) + top)
  {
    NumValTop(d, t);
    hide *;
    PowBIsPow2(t - 1);
    ValBound(d, 0, t - 1);
    Pow2Add(28 * (t - 1), top);
    Pow2Add(28 * (t - 1), top - 1);
    TopBounds(Val(d, 0, t - 1), d[t - 1], PowB(t - 1), Pow2(top - 1), Pow2(top));
    assert 28 * (t - 1) + (top - 1) == 28 * (t - 1) + top - 1;
  }

  /** The window width for an exponent of i bits. */
  function WindowSize(i: nat): (k: nat)
    ensures 1 <= k <= 6
  {
    if i < 18 then 1 else if i < 48 then 3 else if i < 144 then 4 else if i < 768 then 5 else 6
  }

  lemma NumberDigits(e: BigInteger)
    requires Usable(e) && e.s == 0
    ensures IsDigits(e.digits, 0, e.t) && e.Value() == Val(e.digits, 0, e.t)
    ensures forall k :: 0 <= k < e.t ==> k in e.digits && 0 <= e.digits[k] < DV
  {
    NumValIs(e.digits, e.t, 0);
    hide Val, PowB;
  }

  lemma DigitShifted(x: int, k: nat)
    requires 0 <= x < DV && k < 32
    ensures ShrBits(x, k) == x / Pow2(k)
  {
    hide Pow2, ShrBits;
  }

  /** The window lies within digit j. */
  lemma BitsInDigit(d: Digits, t: nat, j: nat, i: nat, k: nat)
    requires j < t && i < 28 && IsDigits(d, 0, t) && 1 <= k <= 6 && i >= k - 1 && j in d && 0 <= d[j] < DV
    ensures Val(d, 0, t) >= 0 && LowBits(ShrBits(d[j], i - (k - 1)), k) == Window(Val(d, 0, t), 28 * j + i, k)
  {
    hide *;
    WindowInDigit(d, t, j, i, k);
    DigitShifted(d[j], i - (k - 1));
  }

  /** The window reaches into digit j - 1. */
  lemma BitsAcross(d: Digits, t: nat, j: nat, i: nat, k: nat)
    requires 0 < j < t && IsDigits(d, 0, t) && 1 <= k <= 6 && i < k - 1 && j in d && j - 1 in d && 0 <= d[j - 1] < DV
    ensures Val(d, 0, t) >= 0
    ensures Or(ShlBits(LowBits(d[j], i + 1), k - 1 - i), ShrBits(d[j - 1], 28 + i - (k - 1))) == Window(Val(d, 0, t), 28 * j + i, k)
  {
    hide *;
    var hi := d[j] % Pow2(i + 1);
    WindowAcross(d, t, j, i, k);
    SmallWindow(hi, i + 1, k - 1 - i, k);
    DigitShifted(d[j - 1], 28 + i - (k - 1));
    OrWindow(hi, d[j - 1] / Pow2(28 + i - (k - 1)), i + 1, k - 1 - i, k);
  }

  /** The window reaches below bit 0. */
  lemma BitsBelow(d: Digits, t: nat, i: nat, k: nat)
    requires 0 < t && IsDigits(d, 0, t) && 1 <= k <= 6 && i < k - 1 && 0 in d
    ensures Val(d, 0, t) >= 0 && ShlBits(LowBits(d[0], i + 1), k - 1 - i) == Window(Val(d, 0, t), i, k)
  {
    hide *;
    WindowBelow(d, t, i, k);
    SmallWindow(d[0] % Pow2(i + 1), i + 1, k - 1 - i, k);
  }

  /** k bits of e from position (j, i) down, padded with zeros below bit 0. */
  method ReadWindow(e: BigInteger, j: nat, i: nat, k: nat) returns (w: int)
    requires Usable(e) && e.s == 0 && j < e.t && i < 28 && 1 <= k <= 6
    ensures e.Value() >= 0 && w == Window(e.Value(), 28 * j + i, k)
  {
    assert DB == 28 && (j == 0 ==> 28 * j + i == i);
    hide *;
    NumberDigits(e);
    var k1 := k - 1;
    if i >= k1 {
      BitsInDigit(e.digits, e.t, j, i, k);
      w := LowBits(ShrBits(e.digits[j], i - k1), k);
    } else {
      w := ShlBits(LowBits(e.digits[j], i + 1), k1 - i);
      if j > 0 {
        BitsAcross(e.digits, e.t, j, i, k);
        w := Or(w, ShrBits(e.digits[j - 1], DB + i - k1));
      } else {
        BitsBelow(e.digits, e.t, i, k);
      }
    }
  }

  lemma SmallWindow(hi: int, b: nat, c: nat, k: nat)
    requires b + c == k && k <= 6 && 0 <= hi < Pow2(b)
    ensures IsInt32(hi * Pow2(c)) && hi * Pow2(c) <= 64
  {
    Pow2Add(b, c);
    MulMono(hi, Pow2(b), Pow2(c));
    MulNonNegative(hi, Pow2(c));
    Pow2AtMost(k, 6);
    assert Pow2(6) == 64;
  }

  lemma OrWindow(hi: int, lo: int, b: nat, c: nat, k: nat)
    requires b + c == k && k <= 6 && 0 <= hi < Pow2(b) && 0 <= lo < Pow2(c)
    ensures Or(hi * Pow2(c), lo) == hi * Pow2(c) + lo
  {
    Pow2Add(b, c);
    MulMono(hi, Pow2(b) - 1, Pow2(c));
    DistribSum(Pow2(c), Pow2(b), -1);
    Pow2AtMost(k, 6);
    assert Pow2(6) == 64;
    OrDisjoint(lo, hi, c);
  }

  /** The window without its trailing zeros. */
  method StripZeros(w0: int, k: nat) returns (w: int, n: nat)
    requires 1 <= k <= 6 && Pow2(k - 1) <= w0 < Pow2(k)
    ensures 1 <= n <= k && w % 2 == 1 && 0 < w < Pow2(k)
    ensures w * Pow2(k - n) == w0
  {
    hide Pow2, LowBits, ShrBits;
    StripStart(k);
    w, n := w0, k;
    while LowBits(w, 1) == 0
      invariant 0 <= n <= k && 0 < w < Pow2(n) && Pow2(n) <= Pow2(k) <= 64
      invariant w * Pow2(k - n) == w0
      decreases w
    {
      StripStep(w, n, k);
      w, n := ShrBits(w, 1), n - 1;
    }
    StripNonEmpty(w, n);
  }

  lemma StripStart(k: nat)
    requires 1 <= k <= 6
    ensures Pow2(0) == 1 && Pow2(1) == 2 && Pow2(k) <= 64 && Pow2(k - 1) >= 1
  {
    Pow2AtMost(k, 6);
    assert Pow2(6) == 64;
  }

  lemma StripNonEmpty(w: int, n: nat)
    requires 0 < w < Pow2(n)
    ensures n >= 1
  {
  }

  lemma StripStep(w: int, n: nat, k: nat)
    requires n <= k && 0 < w < Pow2(n) && w % Pow2(1) == 0
    ensures n >= 1 && 0 < w / Pow2(1) < Pow2(n - 1) && w / Pow2(1) < w && Pow2(n - 1) <= Pow2(n)
    ensures w / Pow2(1) * Pow2(k - (n - 1)) == w * Pow2(k - n)
  {
    assert Pow2(1) == 2;
    assert Pow2(n) == 2 * Pow2(n - 1);
    MulAssoc(w / 2, 2, Pow2(k - n));
  }

  // ----- the powers -----

  /** The residue object n stands for b^p. */
  ghost predicate Holds(z: Reducer, n: BigInteger, b: int, p: nat)
    requires z.Valid()
    reads n, z.m
  {
    Usable(n) && z.Stands(n.Value(), Exp(b, p))
  }

  /** g holds the odd powers of b below `limit`. */
  ghost predicate OddTable(z: Reducer, g: map<int, BigInteger>, b: int, limit: int)
    requires z.Valid()
    reads z.m, g.Values
  {
    forall w: nat :: w < limit && w % 2 == 1 ==> w in g && Holds(z, g[w], b, w)
  }

  lemma TableEntry(z: Reducer, g: map<int, BigInteger>, b: int, limit: int, w: nat)
    requires z.Valid() && OddTable(z, g, b, limit) && w < limit && w % 2 == 1
    ensures w in g && g[w] in g.Values && Holds(z, g[w], b, w)
  {
  }

  lemma TableExtends(z: Reducer, g: map<int, BigInteger>, b: int, n: nat, gn: BigInteger)
    requires z.Valid() && OddTable(z, g, b, n) && n % 2 == 1 && Holds(z, gn, b, n)
    ensures OddTable(z, g[n := gn], b, n + 2)
    ensures g[n := gn].Values <= g.Values + {gn}
  {
    hide Holds;
  }

  /** The precomputed odd powers base^1, base^3, ... below 2^k. */
  method OddPowers(z: Reducer, base: BigInteger, k: nat) returns (g: map<int, BigInteger>)
    requires z.Valid() && Usable(base) && 1 <= k <= 6
    ensures OddTable(z, g, base.Value(), Pow2(k))
    ensures forall x :: x in g.Values ==> x == base || fresh(x)
  {
    hide NumVal, IsClamped, Exp, OddTable, Pow2;
    ghost var b := base.Value();
    ExpOne(b);
    StripStart(k);
    EvenPower(k);
    var g1 := z.Convert(base);
    g := map[1 := g1];
    FirstEntry(z, g1, b);
    if k > 1 {
      var km := Pow2(k) - 1;
      var g2 := new BigInteger();
      z.SqrTo(g1, g2, b);
      ExpAdd(b, 1, 1);
      var n := 3;
      ghost var made := {g1};
      while n <= km
        modifies {}
        invariant 3 <= n <= km + 2 && n % 2 == 1
        invariant g.Values <= made && (forall x :: x in made ==> x == base || (fresh(x) && x != g2))
        invariant OddTable(z, g, b, n)
        invariant Holds(z, g2, b, 2)
        decreases km - n
      {
        var gn := new BigInteger();
        TableEntry(z, g, b, n, n - 2);
        z.MulTo(g2, g[n - 2], gn, Exp(b, 2), Exp(b, n - 2));
        ExpAdd(b, 2, n - 2);
        TableExtends(z, g, b, n, gn);
        g := g[n := gn];
        made := made + {gn};
        n := n + 2;
      }
      TableWithin(z, g, b, n, Pow2(k));
    }
  }

  lemma FirstEntry(z: Reducer, g1: BigInteger, b: int)
    requires z.Valid() && Holds(z, g1, b, 1)
    ensures OddTable(z, map[1 := g1], b, 3) && OddTable(z, map[1 := g1], b, Pow2(1))
    ensures (map[1 := g1]).Values == {g1}
  {
    assert Pow2(1) == 2;
    var g := map[1 := g1];
    assert 1 in g && g[1] in g.Values;
  }

  lemma TableWithin(z: Reducer, g: map<int, BigInteger>, b: int, n: int, limit: int)
    requires z.Valid() && OddTable(z, g, b, n) && limit <= n
    ensures OddTable(z, g, b, limit)
  {
    hide Holds;
  }

  lemma EvenPower(k: nat)
    requires k >= 1
    ensures Pow2(k) % 2 == 0
  {
    var half := Pow2(k - 1);
    assert Pow2(k) == 2 * half;
    hide *;
  }

  /** r = r^2; the two buffers trade places. */
  method SquareSwap(z: Reducer, r: BigInteger, r2: BigInteger, ghost b: int, ghost p: nat) returns (s: BigInteger, s2: BigInteger)
    requires z.Valid() && r != r2 && z.m !in {r, r2} && Holds(z, r, b, p)
    modifies r2
    ensures s == r2 && s2 == r && Holds(z, s, b, 2 * p)
  {
    z.SqrTo(r, r2, Exp(b, p));
    ExpAdd(b, p, p);
    s, s2 := r2, r;
  }

  lemma TimesPow2(p: nat, done: nat, n: nat)
    requires n <= done
    ensures Pow2(0) == 1 && Pow2(1) == 2
    ensures p * Pow2(0) == p
    ensures n >= 1 ==> 2 * (p * Pow2(done - n)) == p * Pow2(done - (n - 1))
    ensures p * Pow2(done - n) >= 0
  {
    MulNonNegative(p, Pow2(done - n));
    if n >= 1 {
      assert Pow2(done - (n - 1)) == 2 * Pow2(done - n);
      MulAssoc(2, p, Pow2(done - n));
    }
  }

  /** n squarings, two at a time, and the multiplication by the window's power. */
  method ApplyWindow(z: Reducer, r0: BigInteger, r20: BigInteger, gw: BigInteger, n0: nat, ghost b: int, ghost p: nat, ghost w: nat)
    returns (r: BigInteger, r2: BigInteger)
    requires z.Valid() && r0 != r20 && gw !in {r0, r20} && z.m !in {r0, r20}
    requires Holds(z, r0, b, p) && Holds(z, gw, b, w)
    modifies r0, r20
    ensures {r, r2} == {r0, r20} && r != r2
    ensures p * Pow2(n0) >= 0 && Holds(z, r, b, p * Pow2(n0) + w)
  {
    hide NumVal, IsClamped, Exp, Pow2;
    r, r2 := r0, r20;
    var n := n0;
    TimesPow2(p, n0, n);
    while n > 1
      modifies r0, r20
      invariant r == r0 && r2 == r20 && 0 <= n <= n0
      invariant p * Pow2(n0 - n) >= 0 && Holds(z, r, b, p * Pow2(n0 - n))
      invariant Holds(z, gw, b, w)
    {
      TimesPow2(p, n0, n);
      TimesPow2(p, n0, n - 1);
      ghost var q := p * Pow2(n0 - n);
      z.SqrTo(r, r2, Exp(b, q));
      ExpAdd(b, q, q);
      z.SqrTo(r2, r, Exp(b, 2 * q));
      ExpAdd(b, 2 * q, 2 * q);
      n := n - 2;
      TimesPow2(p, n0, n);
    }
    ghost var q := p * Pow2(n0 - n);
    if n > 0 {
      TimesPow2(p, n0, n);
      z.SqrTo(r, r2, Exp(b, q));
      ExpAdd(b, q, q);
    } else {
      r, r2 := r2, r;
    }
    TimesPow2(p, n0, 0);
    z.MulTo(r2, gw, r, Exp(b, p * Pow2(n0)), Exp(b, w));
    ExpAdd(b, p * Pow2(n0), w);
  }

  /** The zeros below a window: one squaring each.  Positions are (j, i), j = -1 past the end. */
  method ZeroRun(z: Reducer, e: BigInteger, r0: BigInteger, r20: BigInteger, j0: int, i0: int, ghost b: int)
    returns (r: BigInteger, r2: BigInteger, j: int, i: int)
    requires z.Valid() && Usable(e) && e.s == 0 && r0 != r20 && z.m !in {r0, r20} && e !in {r0, r20}
    requires -1 <= j0 < e.t && 0 <= i0 < 28 && 28 * j0 + i0 >= -1
    requires e.Value() >= 0 && Holds(z, r0, b, Prefix(e.Value(), 28 * j0 + i0))
    modifies r0, r20
    ensures {r, r2} == {r0, r20} && r != r2
    ensures -1 <= j <= j0 && 0 <= i < 28 && -1 <= 28 * j + i <= 28 * j0 + i0
    ensures Usable(e) && Holds(z, r, b, Prefix(e.Value(), 28 * j + i))
    ensures j >= 0 ==> BitSet(e.Value(), 28 * j + i)
  {
    hide NumVal, IsClamped, Exp, Pow2, Prefix, BitSet, Val, TestBit;
    r, r2, j, i := r0, r20, j0, i0;
    ghost var E := e.Value();
    NumValIs(e.digits, e.t, 0);
    BitTest(e, j, i);
    while j >= 0 && !TestBit(e.digits[j], i)
      modifies r0, r20
      invariant {r, r2} == {r0, r20} && r != r2
      invariant -1 <= j <= j0 && 0 <= i < 28 && -1 <= 28 * j + i <= 28 * j0 + i0
      invariant Usable(e) && e.s == 0 && e.Value() == E && E == Val(e.digits, 0, e.t)
      invariant Holds(z, r, b, Prefix(E, 28 * j + i))
      invariant j >= 0 ==> (BitSet(E, 28 * j + i) <==> TestBit(e.digits[j], i))
      decreases 28 * j + i
    {
      PrefixNext(E, 28 * j + i);
      r, r2 := SquareSwap(z, r, r2, b, Prefix(E, 28 * j + i));
      i := i - 1;
      if i < 0 {
        i := DB - 1;
        j := j - 1;
      }
      BitTest(e, j, i);
    }
  }

  /** `e_array[j] & (1 << i)` tests the bit. */
  lemma BitTest(e: BigInteger, j: int, i: int)
    requires Usable(e) && e.s == 0 && -1 <= j < e.t && 0 <= i < 28
    ensures Val(e.digits, 0, e.t) >= 0
    ensures j >= 0 ==> (BitSet(Val(e.digits, 0, e.t), 28 * j + i) <==> TestBit(e.digits[j], i))
  {
    hide Val, Pow2, BitSet, TestBit;
    ValBound(e.digits, 0, e.t);
    if j >= 0 {
      TestBitIs(e.digits[j], i);
      BitOfDigit(e.digits, e.t, j, i);
    }
  }

  /** The top bit of a clamped number is set and nothing is above it. */
  lemma TopPosition(E: nat, n: nat)
    requires n >= 1 && Pow2(n - 1) <= E < Pow2(n)
    ensures BitSet(E, n - 1) && Prefix(E, n - 1) == 0
  {
    assert Pow2(n) == 2 * Pow2(n - 1);
    DivModUnique(E, Pow2(n - 1), 1, E - Pow2(n - 1));
    DivModUnique(E, Pow2(n), 0, E);
  }

  /** All windows of e, from the top. */
  method SlideWindows(z: Reducer, g: map<int, BigInteger>, e: BigInteger, k: nat, length: nat, ghost b: int)
    returns (r: BigInteger)
    requires z.Valid() && Usable(e) && e.s == 0 && e.t > 0 && 1 <= k <= 6
    requires OddTable(z, g, b, Pow2(k))
    requires length >= 1 && Pow2(length - 1) <= e.Value() < Pow2(length)
    requires 28 * (e.t - 1) < length <= 28 * e.t
    ensures fresh(r) && Holds(z, r, b, e.Value())
  {
    hide NumVal, IsClamped, Exp, Pow2, Prefix, BitSet, Val, OddTable, Window, Holds;
    r := new BigInteger();
    var r2 := new BigInteger();
    ghost var ra, rb := r, r2;
    ghost var E := e.Value();
    var j, i := e.t - 1, length - 1 - 28 * (e.t - 1);
    TopPosition(E, length);
    var is1 := true;
    while j >= 0
      modifies ra, rb
      invariant {r, r2} == {ra, rb} && r != r2
      invariant -1 <= j < e.t && 0 <= i < 28 && 28 * j + i >= -1
      invariant Usable(e) && e.s == 0 && e.Value() == E
      invariant OddTable(z, g, b, Pow2(k))
      invariant if is1 then j >= 0 && Prefix(E, 28 * j + i) == 0 else Holds(z, r, b, Prefix(E, 28 * j + i))
      invariant j >= 0 ==> BitSet(E, 28 * j + i)
      decreases 28 * j + i
    {
      ghost var pos := 28 * j + i;
      var w := ReadWindow(e, j, i, k);
      WindowExtends(E, pos, k);
      var n;
      w, n := StripZeros(w, k);
      WindowStripped(E, pos, k, n, w);
      TableEntry(z, g, b, Pow2(k), w);
      i := i - n;
      if i < 0 {
        i := i + DB;
        j := j - 1;
      }
      if is1 {
        TakePower(z, g[w], r, b, w);
        is1 := false;
      } else {
        r, r2 := ApplyWindow(z, r, r2, g[w], n, b, Prefix(E, pos), w);
      }
      r, r2, j, i := ZeroRun(z, e, r, r2, j, i, b);
    }
    WholePrefix(E);
  }

  lemma WholePrefix(E: nat)
    ensures Prefix(E, -1) == E
  {
  }

  /** The first window is copied. */
  method TakePower(z: Reducer, gw: BigInteger, r: BigInteger, ghost b: int, ghost w: nat)
    requires z.Valid() && gw != r && z.m != r && Holds(z, gw, b, w)
    modifies r
    ensures Holds(z, r, b, w)
  {
    gw.CopyTo(r);
  }

  /** base^e modulo m, and 1 for e = 0. */
  method ModPower(base: BigInteger, e: BigInteger, m: BigInteger) returns (result: BigInteger)
    requires Usable(base) && Usable(e) && Usable(m) && e.Value() >= 0 && m.Value() > 0
    ensures Usable(result)
    ensures e.Value() == 0 ==> result.Value() == 1
    ensures e.Value() > 0 ==> result.Value() == Exp(base.Value(), e.Value()) % m.Value()
  {
    hide NumVal, IsClamped, Exp, Pow2, Val, OddTable;
    SignWord(e.digits, e.t, e.s);
    var i := BitLength(e);
    LengthOfDigits(e, i);
    if i <= 0 {
      result := new BigInteger();
      result.FromInt(1);
      return;
    }
    var k := WindowSize(i);
    var even := m.IsEven();
    var z := new Reducer(if i < 8 then Classic else if even then Barrett else Mont, m);
    var g := OddPowers(z, base, k);
    var r := SlideWindows(z, g, e, k, i, base.Value());
    result := z.Revert(r, Exp(base.Value(), e.Value()));
  }

  /** The bit length determines the number of digits. */
  lemma LengthOfDigits(e: BigInteger, n: nat)
    requires Usable(e) && e.s == 0
    requires e.t == 0 ==> n == 0
    requires e.t > 0 ==> n >= 1 && Pow2(n - 1) <= e.Value() < Pow2(n)
    ensures n == 0 <==> e.Value() == 0
    ensures n > 0 ==> e.t > 0 && 28 * (e.t - 1) < n <= 28 * e.t
  {
    ClampedRange(e.digits, e.t, e.s);
    if e.t > 0 {
      PowBIsPow2(e.t);
      PowBIsPow2(e.t - 1);
      if n > 28 * e.t {
        Pow2AtMost(28 * e.t, n - 1);
      }
      if n <= 28 * (e.t - 1) {
        Pow2AtMost(n, 28 * (e.t - 1));
      }
    }
  }
}
