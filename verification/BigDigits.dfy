/**
  Digit arrays in base 2^28 and the numbers they stand for.

  A JavaScript array is a map from index to value: writing past the end is
  legal, and reading an index that was never written would be a fault, which the
  preconditions rule out.
*/
module BigDigits {
  import opened JsInt

  type Digits = map<int, int>

  const DB := 28
  const DV := 0x1000_0000
  const DM := 0xfff_ffff

  function PowB(n: nat): (p: int)
    ensures p >= 1
  {
    if n == 0 then 1 else DV * PowB(n - 1)
  }

  /** `x & DM` */
  function Low28(x: int): (r: int)
    ensures r == x % DV
  {
    Pow2Values();
    AndMask(x, 28);
    And(x, DM)
  }

  /** `x >> 28` */
  function High28(x: int): (r: int)
    ensures IsInt32(x) ==> r == x / DV
  {
    Pow2Values();
    Shr(x, 28)
  }

  predicate IsDigits(d: Digits, j: int, n: nat) {
    forall k :: j <= k < j + n ==> k in d && 0 <= d[k] < DV
  }

  /** The n digits from index j on as a number. */
  function Val(d: Digits, j: int, n: nat): int
    requires forall k :: j <= k < j + n ==> k in d
  {
    if n == 0 then 0 else Val(d, j, n - 1) + d[j + n - 1] * PowB(n - 1)
  }

  lemma {:induction false} ValSame(d: Digits, e: Digits, j: int, n: nat)
    requires forall k :: j <= k < j + n ==> k in d && k in e && d[k] == e[k]
    ensures Val(d, j, n) == Val(e, j, n)
  {
    if n > 0 {
      ValSame(d, e, j, n - 1);
    }
  }

  lemma MulMono(a: int, b: int, p: int)
    requires a <= b && p >= 0
    ensures a * p <= b * p
  {
  }

  lemma {:induction false} ValBound(d: Digits, j: int, n: nat)
    requires IsDigits(d, j, n)
    ensures 0 <= Val(d, j, n) < PowB(n)
  {
    if n > 0 {
      ValBound(d, j, n - 1);
      MulMono(0, d[j + n - 1], PowB(n - 1));
      MulMono(d[j + n - 1], DV - 1, PowB(n - 1));
    }
  }

  lemma {:induction false} PowBAdd(m: nat, n: nat)
    ensures PowB(m + n) == PowB(m) * PowB(n)
  {
    if n > 0 {
      PowBAdd(m, n - 1);
      assert PowB(m) * (DV * PowB(n - 1)) == DV * (PowB(m) * PowB(n - 1));
    }
  }

  lemma {:induction false} PowBMono(m: nat, n: nat)
    requires m <= n
    ensures PowB(m) <= PowB(n)
  {
    if m < n {
      PowBMono(m, n - 1);
    }
  }

  lemma MulIntoSum(p: int, a: int, x: int, q: int)
    ensures p * (a + x * q) == p * a + x * (p * q)
  {
    assert p * (x * q) == x * (p * q);
  }

  lemma {:induction false} ValSplit(d: Digits, j: int, m: nat, n: nat)
    requires forall k :: j <= k < j + m + n ==> k in d
    ensures Val(d, j, m + n) == Val(d, j, m) + PowB(m) * Val(d, j + m, n)
  {
    if n > 0 {
      ValSplit(d, j, m, n - 1);
      PowBAdd(m, n - 1);
      MulIntoSum(PowB(m), Val(d, j + m, n - 1), d[j + m + n - 1], PowB(n - 1));
    }
  }

  lemma {:induction false} ValZero(d: Digits, j: int, n: nat)
    requires forall k :: j <= k < j + n ==> k in d && d[k] == 0
    ensures Val(d, j, n) == 0
  {
    if n > 0 {
      ValZero(d, j, n - 1);
    }
  }

  /** Writing the digit above a number. */
  lemma ValPut(d: Digits, j: int, n: nat, v: int)
    requires forall k :: j <= k < j + n ==> k in d
    ensures Val(d[j + n := v], j, n + 1) == Val(d, j, n) + v * PowB(n)
  {
    ValSame(d, d[j + n := v], j, n);
  }

  /** A nonzero top digit makes the number at least that power. */
  lemma ValTop(d: Digits, j: int, n: nat)
    requires n > 0 && IsDigits(d, j, n) && d[j + n - 1] != 0
    ensures PowB(n - 1) <= Val(d, j, n)
  {
    ValBound(d, j, n - 1);
    MulMono(1, d[j + n - 1], PowB(n - 1));
  }

  /** Storing `c & DM` and carrying `c >> 28` keeps the total. */
  lemma Carry(c: int, p: int)
    ensures (c % DV) * p + (c / DV) * (DV * p) == c * p
  {
    assert c == (c / DV) * DV + c % DV;
    assert (c / DV) * (DV * p) == ((c / DV) * DV) * p;
    assert ((c / DV) * DV + c % DV) * p == ((c / DV) * DV) * p + (c % DV) * p;
  }

  /** Peeling the lowest digit off. */
  lemma ValLow(d: Digits, j: int, n: nat)
    requires n > 0 && forall k :: j <= k < j + n ==> k in d
    ensures Val(d, j, n) == d[j] + DV * Val(d, j + 1, n - 1)
  {
    ValSplit(d, j, 1, n - 1);
    assert PowB(1) == DV;
    assert Val(d, j, 1) == Val(d, j, 0) + d[j] * PowB(0);
  }

  lemma {:induction false} PowBIsPow2(n: nat)
    ensures PowB(n) == Pow2(28 * n)
  {
    Pow2Values();
    if n > 0 {
      PowBIsPow2(n - 1);
      Pow2Add(28, 28 * (n - 1));
    }
  }

  /** A digit shifted right by k < 32 bits. */
  function ShrBits(x: int, k: nat): (r: int)
    requires k < 32
    ensures IsInt32(x) ==> r == x / Pow2(k)
  {
    Shr(x, k)
  }

  /** `x & ((1 << k) - 1)` */
  function LowBits(x: int, k: nat): (r: int)
    requires k <= 28
    ensures r == x % Pow2(k)
  {
    AndMask(x, k);
    And(x, Pow2(k) - 1)
  }

  /** `x << k` where nothing is shifted out. */
  function ShlBits(x: int, k: nat): (r: int)
    requires k <= 28
    ensures IsInt32(x * Pow2(k)) ==> r == x * Pow2(k)
  {
    Shl(x, k)
  }

  /** 2^k and 2^(28-k) make one digit. */
  lemma PowPair(k: nat)
    requires k <= 28
    ensures Pow2(k) * Pow2(28 - k) == DV
  {
    Pow2Values();
    Pow2Add(k, 28 - k);
  }

  lemma DivBound(x: int, p: int, q: int)
    requires p > 0 && q > 0 && 0 <= x < p * q
    ensures 0 <= x / p < q
  {
    assert (x / p) * p <= x;
    if x / p >= q {
      MulMono(q, x / p, p);
    }
  }

  lemma MulRange(a: int, b: int, m: int, n: int)
    requires 0 <= a <= m && 0 <= b <= n
    ensures 0 <= a * b <= m * n
  {
    MulMono(a, m, b);
    MulMono(b, n, m);
    MulMono(0, a, b);
  }
}
