/**
  Reading an exponent in windows of k bits from the top.  Positions are counted
  on 64 E, so that a window reaching below bit 0 reads the zeros it is padded with.
*/
module BitWindows {
  import opened JsInt
  import opened BigDigits
  import opened BigShifts
  import opened BigMultiply
  import opened BigNumbers

  function Exp(b: int, n: nat): int {
    if n == 0 then 1 else b * Exp(b, n - 1)
  }

  lemma {:induction false} ExpAdd(b: int, m: nat, n: nat)
    ensures Exp(b, m + n) == Exp(b, m) * Exp(b, n)
  {
    if m > 0 {
      ExpAdd(b, m - 1, n);
      MulAssoc(b, Exp(b, m - 1), Exp(b, n));
    }
  }

  lemma ExpOne(b: int)
    ensures Exp(b, 1) == b
  {
    assert Exp(b, 0) == 1;
  }

  /** The bits of E above position pos. */
  function Prefix(E: nat, pos: int): (r: nat)
    requires pos >= -1
  {
    DivNonNegative(E, Pow2(pos + 1));
    E / Pow2(pos + 1)
  }

  lemma DivNonNegative(a: int, b: int)
    requires a >= 0 && b > 0
    ensures a / b >= 0
  {
  }

  predicate BitSet(E: nat, pos: int)
    requires pos >= 0
  {
    (E / Pow2(pos)) % 2 == 1
  }

  lemma PrefixNext(E: nat, pos: nat)
    ensures Prefix(E, pos - 1) == 2 * Prefix(E, pos) + (if BitSet(E, pos) then 1 else 0)
  {
    var p := Pow2(pos);
    assert Pow2(pos + 1) == p * 2;
    DivDiv(E, p, 2);
  }

  /** The k bits from position pos down, zeros below bit 0. */
  function Window(E: nat, pos: nat, k: nat): int
    requires 1 <= k <= 6
  {
    (64 * E) / Pow2(pos + 7 - k) % Pow2(k)
  }

  lemma ShiftedPrefix(E: nat, p: nat)
    requires p >= 6
    ensures (64 * E) / Pow2(p) == E / Pow2(p - 6)
  {
    assert Pow2(6) == 64;
    Pow2Add(6, p - 6);
    DivModUnique(64 * E, 64, E, 0);
    DivDiv(64 * E, 64, Pow2(p - 6));
  }

  /** Prefix and window together are the prefix k bits further down. */
  lemma WindowExtends(E: nat, pos: nat, k: nat)
    requires 1 <= k <= 6
    ensures (64 * E) / Pow2(pos + 7 - k) == Prefix(E, pos) * Pow2(k) + Window(E, pos, k)
    ensures BitSet(E, pos) ==> Pow2(k - 1) <= Window(E, pos, k) < Pow2(k)
  {
    hide Pow2;
    var v := (64 * E) / Pow2(pos + 7 - k);
    Pow2Add(pos + 7 - k, k);
    DivDiv(64 * E, Pow2(pos + 7 - k), Pow2(k));
    ShiftedPrefix(E, pos + 7);
    DivModDef(v, Pow2(k));
    if BitSet(E, pos) {
      Pow2Add(pos + 7 - k, k - 1);
      DivDiv(64 * E, Pow2(pos + 7 - k), Pow2(k - 1));
      ShiftedPrefix(E, pos + 6);
      TopBit(v, Pow2(k - 1), Pow2(k), k);
    }
  }

  lemma TopBit(v: int, half: int, p: int, k: nat)
    requires v >= 0 && k >= 1 && half == Pow2(k - 1) && p == Pow2(k)
    requires (v / half) % 2 == 1
    ensures half <= v % p
  {
    var h := v / half / 2;
    DivModDef(v, half);
    assert v / half == 2 * h + 1;
    MulAssoc(2, h, half);
    DistribSum(half, 2 * h, 1);
    DivModUnique(v, p, h, half + v % half);
  }

  /** Stripping the trailing zeros of a window leaves n bits, none of them below bit 0. */
  lemma WindowStripped(E: nat, pos: nat, k: nat, n: nat, w: int)
    requires 1 <= k <= 6 && 1 <= n <= k && w % 2 == 1
    requires w * Pow2(k - n) == Window(E, pos, k)
    ensures n <= pos + 1
    ensures Prefix(E, pos - n) == Prefix(E, pos) * Pow2(n) + w
  {
    hide Pow2;
    var a, z := Prefix(E, pos), pos + 7 - k;
    var v := (64 * E) / Pow2(z);
    WindowExtends(E, pos, k);
    Pow2Add(n, k - n);
    MulAssoc(a, Pow2(n), Pow2(k - n));
    DistribSum(Pow2(k - n), a * Pow2(n), w);
    var q := a * Pow2(n) + w;
    DivModUnique(v, Pow2(k - n), q, 0);
    Pow2Add(z, k - n);
    DivDiv(64 * E, Pow2(z), Pow2(k - n));
    assert (64 * E) / Pow2(pos + 7 - n) == q;
    OddSum(a, n, w);
    if n > pos + 1 {
      LowZeros(E, pos + 7 - n);
    } else {
      ShiftedPrefix(E, pos + 7 - n);
    }
  }

  lemma OddSum(a: int, n: nat, w: int)
    requires n >= 1 && w % 2 == 1
    ensures (a * Pow2(n) + w) % 2 == 1
  {
    MulAssoc(a, 2, Pow2(n - 1));
    OddPlusEven(w, a * Pow2(n - 1));
  }

  lemma LowZeros(E: nat, p: nat)
    requires p <= 5
    ensures ((64 * E) / Pow2(p)) % 2 == 0
  {
    Pow2Add(p, 6 - p);
    var f := Pow2(5 - p);
    assert Pow2(6) == 64 && Pow2(6 - p) == 2 * f;
    hide Pow2;
    MulAssoc(Pow2(p), 2 * f, E);
    MulAssoc(2, f, E);
    DivModUnique(64 * E, Pow2(p), 2 * (f * E), 0);
  }

  // ----- windows from digits -----

  /** Everything from digit j up. */
  lemma FromDigit(e: Digits, t: nat, j: nat, a: nat)
    requires j <= t && IsDigits(e, 0, t)
    ensures Val(e, 0, t) >= 0 && Val(e, j, t - j) >= 0
    ensures Val(e, 0, t) / Pow2(28 * j + a) == Val(e, j, t - j) / Pow2(a)
  {
    hide Val, Pow2;
    ValBound(e, 0, t);
    ValBound(e, j, t - j);
    ValBound(e, 0, j);
    ValSplit(e, 0, j, t - j);
    PowBIsPow2(j);
    Pow2Add(28 * j, a);
    assert Pow2(28 * j) * Val(e, j, t - j) == Val(e, j, t - j) * Pow2(28 * j);
    DivModUnique(Val(e, 0, t), Pow2(28 * j), Val(e, j, t - j), Val(e, 0, j));
    DivDiv(Val(e, 0, t), Pow2(28 * j), Pow2(a));
  }

  /** A digit's bits a and up, seen in the number from that digit on. */
  lemma DigitBits(d: int, high: int, a: nat)
    requires a <= 28 && 0 <= d < DV && high >= 0
    ensures (d + DV * high) / Pow2(a) == d / Pow2(a) + Pow2(28 - a) * high
  {
    hide Pow2;
    PowPair(a);
    DivModDef(d, Pow2(a));
    MulAssoc(Pow2(a), Pow2(28 - a), high);
    DistribSum(Pow2(a), d / Pow2(a), Pow2(28 - a) * high);
    DivModUnique(d + DV * high, Pow2(a), d / Pow2(a) + Pow2(28 - a) * high, d % Pow2(a));
  }

  /** Adding a multiple of 2^k does not change the low k bits. */
  lemma LowBitsPlus(x: int, c: nat, k: nat, y: int)
    requires k <= c
    ensures (x + Pow2(c) * y) % Pow2(k) == x % Pow2(k)
  {
    hide Pow2;
    Pow2Add(k, c - k);
    MulAssoc(Pow2(k), Pow2(c - k), y);
    DivModDef(x, Pow2(k));
    DistribSum(Pow2(k), x / Pow2(k), Pow2(c - k) * y);
    DivModUnique(x + Pow2(c) * y, Pow2(k), x / Pow2(k) + Pow2(c - k) * y, x % Pow2(k));
  }

  /** The number shifted by 28 j + a bits: what is left of digit j, and everything above it. */
  lemma ShiftedToDigit(e: Digits, t: nat, j: nat, a: nat)
    requires j < t && a <= 28 && IsDigits(e, 0, t)
    ensures Val(e, 0, t) >= 0
    ensures Val(e, 0, t) / Pow2(28 * j + a) == e[j] / Pow2(a) + Pow2(28 - a) * Val(e, j + 1, t - j - 1)
  {
    hide Val, Pow2;
    FromDigit(e, t, j, a);
    FromDigit(e, t, j + 1, 0);
    ValLow(e, j, t - j);
    DigitBits(e[j], Val(e, j + 1, t - j - 1), a);
  }

  /** Its low bits are those of digit j. */
  lemma ShiftedLow(e: Digits, t: nat, j: nat, a: nat, k: nat)
    requires j < t && a + k <= 28 && IsDigits(e, 0, t)
    ensures Val(e, 0, t) >= 0
    ensures Val(e, 0, t) / Pow2(28 * j + a) % Pow2(k) == e[j] / Pow2(a) % Pow2(k)
  {
    hide Val, Pow2;
    ShiftedToDigit(e, t, j, a);
    LowBitsPlus(e[j] / Pow2(a), 28 - a, k, Val(e, j + 1, t - j - 1));
  }

  lemma BitOfDigit(e: Digits, t: nat, j: nat, i: nat)
    requires j < t && i < 28 && IsDigits(e, 0, t)
    ensures Val(e, 0, t) >= 0
    ensures BitSet(Val(e, 0, t), 28 * j + i) <==> (e[j] / Pow2(i)) % 2 == 1
  {
    hide Val, Pow2;
    ShiftedLow(e, t, j, i, 1);
    Pow2One();
  }

  /** A window that stays above bit 0. */
  lemma WindowAbove(E: nat, pos: nat, k: nat)
    requires 1 <= k <= 6 && k <= pos + 1
    ensures Window(E, pos, k) == E / Pow2(pos + 1 - k) % Pow2(k)
  {
    hide Pow2;
    ShiftedPrefix(E, pos + 7 - k);
  }

  /** A window inside one digit. */
  lemma WindowInDigit(e: Digits, t: nat, j: nat, i: nat, k: nat)
    requires j < t && i < 28 && IsDigits(e, 0, t) && 1 <= k <= 6 && i >= k - 1
    ensures Val(e, 0, t) >= 0
    ensures Window(Val(e, 0, t), 28 * j + i, k) == (e[j] / Pow2(i - (k - 1))) % Pow2(k)
  {
    hide Val, Pow2, Window;
    var a := i - (k - 1);
    var v, p := Val(e, 0, t), 28 * j + i;
    assert p + 1 - k == 28 * j + a;
    ShiftedLow(e, t, j, a, k);
    WindowAbove(v, p, k);
  }

  /** The lowest bits of everything from digit j up are those of digit j. */
  lemma LowBitsFrom(e: Digits, t: nat, j: nat, n: nat)
    requires j < t && n <= 28 && IsDigits(e, 0, t)
    ensures Val(e, j, t - j) >= 0 && Val(e, j, t - j) % Pow2(n) == e[j] % Pow2(n)
  {
    hide Val, Pow2;
    FromDigit(e, t, j, 0);
    ValLow(e, j, t - j);
    Pow2_28(n);
    LowBitsPlus(e[j], 28, n, Val(e, j + 1, t - j - 1));
  }

  /** A window across a digit boundary. */
  lemma WindowAcross(e: Digits, t: nat, j: nat, i: nat, k: nat)
    requires 0 < j < t && IsDigits(e, 0, t) && 1 <= k <= 6 && i < k - 1
    ensures Val(e, 0, t) >= 0
    ensures var lo, hi := e[j - 1] / Pow2(28 + i - (k - 1)), e[j] % Pow2(i + 1);
      && 0 <= lo < Pow2(k - 1 - i) && 0 <= hi < Pow2(i + 1)
      && Window(Val(e, 0, t), 28 * j + i, k) == hi * Pow2(k - 1 - i) + lo
  {
    hide Val, Pow2;
    hide Window;
    var a, c := 28 + i - (k - 1), k - 1 - i;
    var lo, rest := e[j - 1] / Pow2(a), Val(e, j, t - j);
    ShiftedToDigit(e, t, j - 1, a);
    assert 28 - a == c && t - (j - 1) - 1 == t - j && j - 1 + 1 == j;
    LowBitsFrom(e, t, j, i + 1);
    WindowAbove(Val(e, 0, t), 28 * j + i, k);
    assert 28 * j + i + 1 - k == 28 * (j - 1) + a;
    PowPair(a);
    DivBound(e[j - 1], Pow2(a), Pow2(c));
    DivModDef(rest, Pow2(i + 1));
    Pow2Add(i + 1, c);
    JoinWindow(lo, rest / Pow2(i + 1), e[j] % Pow2(i + 1), Pow2(c), Pow2(i + 1), rest);
  }

  lemma Pow2_28(n: nat)
    ensures Pow2(28) == DV
  {
    Pow2Values();
  }

  lemma JoinWindow(lo: int, q: int, hi: int, c: int, b: int, rest: int)
    requires 0 <= lo < c && 0 <= hi < b && rest == b * q + hi
    ensures b * c > 0 && (lo + c * rest) % (b * c) == hi * c + lo
  {
    MulAtLeast(b, c);
    DistribSum(c, b * q, hi);
    MulAssoc(c, b, q);
    MulAssoc(b, c, q);
    MulMono(hi, b - 1, c);
    MulMono(0, hi, c);
    DistribSum(c, b, -1);
    DivModUnique(lo + c * rest, b * c, q, hi * c + lo);
  }

  lemma ScaledDown(E: int, c: nat)
    requires c <= 6
    ensures (64 * E) / Pow2(6 - c) == Pow2(c) * E
  {
    hide Pow2;
    Pow2Six();
    Pow2Add(c, 6 - c);
    MulAssoc(Pow2(6 - c), Pow2(c), E);
    DivModUnique(64 * E, Pow2(6 - c), Pow2(c) * E, 0);
  }

  /** A window reaching below bit 0. */
  lemma WindowBelow(e: Digits, t: nat, i: nat, k: nat)
    requires 0 < t && IsDigits(e, 0, t) && 1 <= k <= 6 && i < k - 1
    ensures Val(e, 0, t) >= 0
    ensures 0 <= e[0] % Pow2(i + 1) < Pow2(i + 1)
    ensures Window(Val(e, 0, t), i, k) == (e[0] % Pow2(i + 1)) * Pow2(k - 1 - i)
  {
    hide Val, Pow2;
    var E, c, b := Val(e, 0, t), k - 1 - i, Pow2(i + 1);
    LowBitsFrom(e, t, 0, i + 1);
    ScaledDown(E, c);
    Pow2Add(i + 1, c);
    DivModDef(E, b);
    JoinWindow(0, E / b, E % b, Pow2(c), b, E);
  }

  lemma Pow2Six()
    ensures Pow2(6) == 64
  {
  }

  // ----- the number of bits -----

  /** `nbits` on a digit that is not zero. */
  method NBits(x: int) returns (r: nat)
    requires 0 <= x < DV
    ensures r >= 1 && (x > 0 ==> Pow2(r - 1) <= x < Pow2(r) && r <= 28)
    ensures x > 0 ==> x / Pow2(r - 1) == 1
  {
    NarrowStart(x);
    hide *;
    var y := x;
    r := 1;
    Narrow(x, y, r, 16);
    var h := ShrBits(y, 16);
    if h != 0 {
      y, r := h, r + 16;
    }
    Narrow(x, y, r, 8);
    h := ShrBits(y, 8);
    if h != 0 {
      y, r := h, r + 8;
    }
    Narrow(x, y, r, 4);
    h := ShrBits(y, 4);
    if h != 0 {
      y, r := h, r + 4;
    }
    Narrow(x, y, r, 2);
    h := ShrBits(y, 2);
    if h != 0 {
      y, r := h, r + 2;
    }
    Narrow(x, y, r, 1);
    h := ShrBits(y, 1);
    if h != 0 {
      y, r := h, r + 1;
    }
    NarrowEnd(x, y, r);
  }

  /** y is x without its r - 1 low bits, and has at most 2n bits left. */
  ghost predicate Narrowed(x: int, y: int, r: int, bits: nat) {
    r >= 1 && 0 <= y < Pow2(bits) && y == x / Pow2(r - 1) && (x > 0 ==> y > 0)
  }

  lemma NarrowStart(x: int)
    requires 0 <= x < DV
    ensures Narrowed(x, x, 1, 32)
  {
    DivOne(x);
    Pow2AtMost(28, 32);
    Pow2Values();
  }

  /** One halving of the range. */
  lemma Narrow(x: int, y: int, r: nat, n: nat)
    requires 0 <= x < DV && n <= 16 && Narrowed(x, y, r, 2 * n)
    ensures ShrBits(y, n) == 0 ==> Narrowed(x, y, r, n)
    ensures ShrBits(y, n) != 0 ==> Narrowed(x, ShrBits(y, n), r + n, n)
  {
    hide Pow2, ShrBits;
    QuotientAtMost(x, Pow2(r - 1));
    assert ShrBits(y, n) == y / Pow2(n);
    DivDivPow(x, r - 1, n);
    Pow2Add(n, n);
    QuotientBelow(y, Pow2(n));
    assert (r - 1) + n == r + n - 1;
  }

  lemma QuotientAtMost(x: int, q: int)
    requires x >= 0 && q > 0
    ensures 0 <= x / q <= x
  {
    DivModDef(x, q);
    if x / q > 0 {
      MulMono(1, q, x / q);
    }
  }

  lemma QuotientBelow(y: int, q: int)
    requires q > 0 && 0 <= y < q * q
    ensures 0 <= y / q < q
    ensures y / q == 0 ==> y < q
  {
    DivModDef(y, q);
    if y / q >= q {
      MulMono(q, y / q, q);
    }
  }

  lemma NarrowEnd(x: int, y: int, r: nat)
    requires 0 <= x < DV && Narrowed(x, y, r, 1)
    ensures r >= 1 && (x > 0 ==> Pow2(r - 1) <= x < Pow2(r) && r <= 28 && x / Pow2(r - 1) == 1)
  {
    assert Pow2(1) == 2;
    hide Pow2;
    QuotientOne(x, r);
  }

  lemma DivOne(x: int)
    ensures x / Pow2(0) == x
  {
  }

  lemma DivDivPow(x: int, a: nat, b: nat)
    ensures x / Pow2(a + b) == x / Pow2(a) / Pow2(b)
  {
    hide Pow2;
    Pow2Add(a, b);
    DivDiv(x, Pow2(a), Pow2(b));
  }

  lemma QuotientOne(x: int, r: nat)
    requires r >= 1 && 0 <= x < DV && (x > 0 ==> x / Pow2(r - 1) == 1)
    ensures x > 0 ==> Pow2(r - 1) <= x < Pow2(r) && r <= 28
  {
    if x > 0 {
      DivModDef(x, Pow2(r - 1));
      Pow2Values();
      if r > 28 {
        Pow2AtMost(28, r - 1);
      }
    }
  }
}
