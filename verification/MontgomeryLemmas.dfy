/** The arithmetic of Montgomery reduction. */
module MontgomeryLemmas {
  import opened JsInt
  import opened BigDigits
  import opened BigShifts
  import opened BigMultiply
  import opened Congruence

  /** The 15-bit pieces of `mp` and of a digit. */
  function Low15(x: int): (r: int)
    ensures r == x % 0x8000
  {
    Pow2Values();
    AndMask(x, 15);
    And(x, 0x7fff)
  }

  function High15(x: int): (r: int)
    ensures IsInt32(x) ==> r == x / 0x8000
  {
    Pow2Values();
    Shr(x, 15)
  }

  function Low13(x: int): (r: int)
    ensures r == x % 0x2000
  {
    assert Pow2(13) == 0x2000;
    AndMask(x, 13);
    And(x, 0x1fff)
  }

  function Up15(x: int): (r: int)
    ensures IsInt32(x * 0x8000) ==> r == x * 0x8000
  {
    Pow2Values();
    Shl(x, 15)
  }

  /** The split-word product is x * mp modulo 2^28, and nothing overflows on the way. */
  lemma SplitWord(x: int, mp: int)
    requires 0 <= x < DV && 0 <= mp < DV
    ensures var j, h, l, u := x % 0x8000, x / 0x8000, mp % 0x8000, mp / 0x8000;
      var cross := j * u + h * l;
      && IsInt32(cross) && IsInt32((cross % 0x2000) * 0x8000)
      && IsInt32(j * l + (cross % 0x2000) * 0x8000)
      && (j * l + (cross % 0x2000) * 0x8000) % DV == (x * mp) % DV
  {
    var j, h, l, u := x % 0x8000, x / 0x8000, mp % 0x8000, mp / 0x8000;
    MulRange(j, u, 0x7fff, 0x1fff);
    MulRange(h, l, 0x1fff, 0x7fff);
    MulRange(j, l, 0x7fff, 0x7fff);
    var cross := j * u + h * l;
    SplitProduct(j, h, l, u);
    var top := cross / 0x2000;
    assert cross == top * 0x2000 + cross % 0x2000;
    var w := j * l + (cross % 0x2000) * 0x8000;
    assert x * mp == w + (4 * (h * u) + top) * DV;
    var k := 4 * (h * u) + top;
    DivModDef(w, DV);
    DivModUnique(x * mp, DV, k + w / DV, w % DV);
  }

  lemma SplitProduct(j: int, h: int, l: int, u: int)
    ensures (j + 0x8000 * h) * (l + 0x8000 * u) == j * l + 0x8000 * (j * u + h * l) + 0x4000_0000 * (h * u)
  {
    DistribSum(l + 0x8000 * u, j, 0x8000 * h);
    DistribSum(j, l, 0x8000 * u);
    DistribSum(0x8000 * h, l, 0x8000 * u);
    MulAssoc(j, 0x8000, u);
    MulAssoc(0x8000, h, l);
    MulAssoc(0x8000 * h, 0x8000, u);
    MulAssoc(0x8000, h, u);
  }

  /** Multiplying the digit by mp and the modulus cancels it: x + (x mp mod 2^28) m0 is 0 modulo 2^28. */
  lemma DigitCancels(x: int, mp: int, m0: int, u0: int)
    requires Congr(m0 * mp, -1, DV) && u0 == (x * mp) % DV
    ensures Congr(x + u0 * m0, 0, DV)
  {
    hide Congr;
    CongrMod(x * mp, DV);
    CongrScale(u0, x * mp, m0, DV);
    MulAssoc(x, mp, m0);
    MulAssoc(m0, x, mp);
    assert m0 * (x * mp) == (x * mp) * m0;
    CongrScale(m0 * mp, -1, x, DV);
    MulAssoc(x, m0, mp);
    CongrTrans(u0 * m0, x * (m0 * mp), -x, DV);
    CongrRefl(x, DV);
    CongrAdd(x, x, u0 * m0, -x, DV);
  }

  // ----- the reduction loop -----

  /** After i rounds: the i lowest digits are zero and u multiples of the modulus were added. */
  ghost predicate Reducing(d: Digits, len: nat, i: nat, x0: int, m: int, u: int) {
    && IsDigits(d, 0, len) && (forall k :: 0 <= k < i && k < len ==> d[k] == 0)
    && 0 <= u < PowB(i)
    && Val(d, 0, len) == x0 + m * u
  }

  /** While the carry of a round travels: all digits but the one at j are in range. */
  ghost predicate Propagating(d: Digits, len: nat, i: nat, j: nat, total: int) {
    && i < j < len && (forall k :: 0 <= k < len ==> k in d && 0 <= d[k])
    && (forall k :: 0 <= k < len && k != j ==> d[k] < DV) && d[j] < 2 * DV
    && (forall k :: 0 <= k <= i ==> d[k] == 0)
    && Val(d, 0, len) == total
  }

  /** The multiply-add of round i, carry included. */
  lemma RoundAdds(w: Digits, w0: Digits, md: Digits, mt: nat, i: nat, u0: int, c: int, x0: int, u: int)
    requires mt > 0 && i < mt && IsDigits(md, 0, mt) && 0 <= u0 < DV && 0 <= c < DV
    requires Reducing(w0, 2 * mt + 1, i, x0, Val(md, 0, mt), u)
    requires AmDone(w, w0, i, u0, md, 0, mt, c, 0)
    requires forall k :: !(i <= k < i + mt) ==> (k in w <==> k in w0) && (k in w ==> w[k] == w0[k])
    requires Congr(w0[i] + u0 * md[0], 0, DV)
    ensures i + mt in w
    ensures Propagating(w[i + mt := w[i + mt] + c], 2 * mt + 1, i, i + mt, x0 + Val(md, 0, mt) * (u + u0 * PowB(i)))
    ensures 0 <= u + u0 * PowB(i) < PowB(i + 1)
  {
    hide Val, PowB, Congr;
    var m := Val(md, 0, mt);
    var w3 := w[i + mt := w[i + mt] + c];
    RoundDigit(w, w0, md, mt, i, u0, c);
    AmClose(w, w0, i, u0, md, 0, mt, c, 0, w[i + mt]);
    ValSame(w0[i + mt := w[i + mt]], w0, i, mt + 1);
    StretchGain(w0, w3, i, mt + 1, mt - i, u0 * m);
    MulAssoc(PowB(i), u0, m);
    MulAssoc(m, u0, PowB(i));
    DistribSum(m, u, u0 * PowB(i));
    assert PowB(i + 1) == DV * PowB(i) by { NextPower(i); }
    MulMono(u0, DV - 1, PowB(i));
    MulMono(0, u0, PowB(i));
    DistribSum(PowB(i), DV, -1);
  }

  lemma NextPower(n: nat)
    ensures PowB(n + 1) == DV * PowB(n)
  {
  }

  /** The digit of the round becomes zero. */
  lemma RoundDigit(w: Digits, w0: Digits, md: Digits, mt: nat, i: nat, u0: int, c: int)
    requires mt > 0 && AmDone(w, w0, i, u0, md, 0, mt, c, 0)
    requires Congr(w0[i] + u0 * md[0], 0, DV)
    ensures w[i] == 0
  {
    var high, high0, mhigh, p := Val(w, i + 1, mt - 1), Val(w0, i + 1, mt - 1), Val(md, 1, mt - 1), PowB(mt - 1);
    ValLow(w, i, mt);
    ValLow(w0, i, mt);
    ValLow(md, 0, mt);
    DistribSum(u0, md[0], DV * mhigh);
    MulAssoc(u0, DV, mhigh);
    MulAssoc(c, DV, p);
    var k := CongrQuotient(w0[i] + u0 * md[0], 0, DV);
    assert w[i] == (k + high0 + u0 * mhigh - high - c * p) * DV;
    MultipleBelow(w[i], k + high0 + u0 * mhigh - high - c * p);
  }

  lemma MultipleBelow(x: int, k: int)
    requires x == k * DV && 0 <= x < DV
    ensures x == 0
  {
  }

  /** A digit that overflows is not the top one, and its carry moves up. */
  lemma RoundCarry(d: Digits, mt: nat, i: nat, j: nat, total: int)
    requires Propagating(d, 2 * mt + 1, i, j, total) && d[j] >= DV
    requires total < PowB(2 * mt + 1)
    ensures j < 2 * mt
    ensures Propagating(d[j := d[j] - DV][j + 1 := d[j + 1] + 1], 2 * mt + 1, i, j + 1, total)
  {
    hide Val, PowB;
    if j == 2 * mt {
      ValPut(d, 0, 2 * mt, d[2 * mt]);
      assert d[2 * mt := d[2 * mt]] == d;
      ValBound(d, 0, 2 * mt);
      MulMono(DV, d[j], PowB(2 * mt));
      NextPower(2 * mt);
    } else {
      CarryUp(d, j, 2 * mt + 1);
    }
  }

  lemma CarryUp(d: Digits, j: nat, len: nat)
    requires j + 1 < len && forall k :: 0 <= k < len ==> k in d
    ensures Val(d[j := d[j] - DV][j + 1 := d[j + 1] + 1], 0, len) == Val(d, 0, len)
  {
    var e := d[j := d[j] - DV][j + 1 := d[j + 1] + 1];
    TwoDigits(d, j);
    TwoDigits(e, j);
    StretchGain(d, e, j, 2, len - j - 2, 0);
  }

  lemma TwoDigits(d: Digits, j: nat)
    requires j in d && j + 1 in d
    ensures Val(d, j, 2) == d[j] + DV * d[j + 1]
  {
    assert PowB(0) == 1 && PowB(1) == DV;
    assert Val(d, j, 0) == 0 && Val(d, j, 1) == d[j];
  }

  /** The number stays below 2 m R, hence inside the padding. */
  lemma RoundBound(md: Digits, mt: nat, i: nat, x0: int, u: int)
    requires mt > 0 && IsDigits(md, 0, mt) && i <= mt
    requires 0 <= x0 < Val(md, 0, mt) * PowB(mt) && 0 <= u < PowB(i)
    ensures 0 <= x0 + Val(md, 0, mt) * u < 2 * (Val(md, 0, mt) * PowB(mt))
    ensures 2 * (Val(md, 0, mt) * PowB(mt)) <= PowB(2 * mt + 1)
  {
    hide Val, PowB;
    var m, r := Val(md, 0, mt), PowB(mt);
    ValBound(md, 0, mt);
    PowBMono(i, mt);
    MulMono(0, m, u);
    MulMono(u, r, m);
    MulMono(m, r, r);
    PowBAdd(mt, mt);
    NextPower(2 * mt);
  }

  lemma CarryDone(d: Digits, len: nat, i: nat, j: nat, x0: int, m: int, u: int)
    requires Propagating(d, len, i, j, x0 + m * u) && d[j] < DV && 0 <= u < PowB(i + 1)
    ensures Reducing(d, len, i + 1, x0, m, u)
  {
  }

  /** After all rounds the number is a multiple of R, and its quotient is below 2 m. */
  lemma AllRounds(d: Digits, md: Digits, mt: nat, x0: int, u: int)
    requires mt > 0 && IsDigits(md, 0, mt)
    requires 0 <= x0 < Val(md, 0, mt) * PowB(mt)
    requires Reducing(d, 2 * mt + 1, mt, x0, Val(md, 0, mt), u)
    ensures var q := Val(d, 0, 2 * mt + 1) / PowB(mt);
      && q * PowB(mt) == x0 + Val(md, 0, mt) * u
      && 0 <= q < 2 * Val(md, 0, mt)
  {
    hide Val, PowB;
    var m, r := Val(md, 0, mt), PowB(mt);
    var high := Val(d, mt, mt + 1);
    ValSplit(d, 0, mt, mt + 1);
    ValZero(d, 0, mt);
    RoundBound(md, mt, mt, x0, u);
    DivModUnique(Val(d, 0, 2 * mt + 1), r, high, 0);
    ValBound(d, mt, mt + 1);
    if high >= 2 * m {
      MulMono(2 * m, high, r);
      MulAssoc(2, m, r);
    }
  }

  /** The representative x' with x' R congruent to x: what both branches of the last comparison give. */
  lemma QuotientRepresents(q: int, r: int, x0: int, m: int, u: int, x': int)
    requires q * r == x0 + m * u && (x' == q || x' == q - m)
    ensures Congr(x' * r, x0, m)
  {
    if x' == q {
      CongrBy(x' * r, x0, m, u);
    } else {
      DistribSum(r, q, -m);
      MulAssoc(m, r, 1);
      DistribSum(m, u, -r);
      CongrBy(x' * r, x0, m, u - r);
    }
  }
}
