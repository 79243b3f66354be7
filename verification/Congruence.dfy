/** Congruence modulo m, with the quotient made explicit so that proofs can compute with it. */
module Congruence {
  import opened JsInt
  import opened BigShifts

  ghost predicate Congr(a: int, b: int, m: int) {
    exists k: int :: a == b + k * m
  }

  lemma CongrBy(a: int, b: int, m: int, k: int)
    requires a == b + k * m
    ensures Congr(a, b, m)
  {
  }

  lemma CongrQuotient(a: int, b: int, m: int) returns (k: int)
    requires Congr(a, b, m)
    ensures a == b + k * m
  {
    k :| a == b + k * m;
  }

  lemma CongrRefl(a: int, m: int)
    ensures Congr(a, a, m)
  {
    CongrBy(a, a, m, 0);
  }

  lemma CongrSym(a: int, b: int, m: int)
    requires Congr(a, b, m)
    ensures Congr(b, a, m)
  {
    var k := CongrQuotient(a, b, m);
    DistribSum(m, k, -k);
    CongrBy(b, a, m, -k);
  }

  lemma CongrTrans(a: int, b: int, c: int, m: int)
    requires Congr(a, b, m) && Congr(b, c, m)
    ensures Congr(a, c, m)
  {
    var k := CongrQuotient(a, b, m);
    var l := CongrQuotient(b, c, m);
    DistribSum(m, k, l);
    CongrBy(a, c, m, k + l);
  }

  lemma CongrAdd(a: int, b: int, c: int, d: int, m: int)
    requires Congr(a, b, m) && Congr(c, d, m)
    ensures Congr(a + c, b + d, m)
    ensures Congr(a - c, b - d, m)
  {
    var k := CongrQuotient(a, b, m);
    var l := CongrQuotient(c, d, m);
    DistribSum(m, k, l);
    DistribSum(m, k, -l);
    DistribSum(m, l, -l);
    CongrBy(a + c, b + d, m, k + l);
    CongrBy(a - c, b - d, m, k - l);
  }

  lemma CongrScale(a: int, b: int, c: int, m: int)
    requires Congr(a, b, m)
    ensures Congr(a * c, b * c, m)
    ensures Congr(c * a, c * b, m)
  {
    var k := CongrQuotient(a, b, m);
    DistribSum(c, b, k * m);
    MulAssoc(c, k, m);
    CongrBy(a * c, b * c, m, c * k);
  }

  lemma CongrMul(a: int, b: int, c: int, d: int, m: int)
    requires Congr(a, b, m) && Congr(c, d, m)
    ensures Congr(a * c, b * d, m)
  {
    CongrScale(a, b, c, m);
    CongrScale(c, d, b, m);
    CongrTrans(a * c, b * c, b * d, m);
  }

  lemma CongrMod(a: int, m: int)
    requires m > 0
    ensures Congr(a, a % m, m) && Congr(a % m, a, m)
  {
    DivModDef(a, m);
    CongrBy(a, a % m, m, a / m);
    CongrSym(a, a % m, m);
  }

  /** Residues in [0, m) are equal when congruent. */
  lemma CongrUnique(a: int, b: int, m: int)
    requires m > 0 && Congr(a, b, m) && 0 <= b < m
    ensures a % m == b
  {
    var k := CongrQuotient(a, b, m);
    DivModUnique(a, m, k, b);
  }

  lemma CongrDivides(a: int, b: int, m: int, f: int)
    requires Congr(a, b, m * f)
    ensures Congr(a, b, m)
  {
    var k := CongrQuotient(a, b, m * f);
    MulAssoc(k, f, m);
    MulAssoc(k, m, f);
    CongrBy(a, b, m, k * f);
  }

  /** A factor invertible modulo m can be cancelled. */
  lemma CongrCancel(a: int, b: int, c: int, inv: int, m: int)
    requires Congr(a * c, b * c, m) && Congr(c * inv, 1, m)
    ensures Congr(a, b, m)
  {
    CongrScale(a * c, b * c, inv, m);
    MulAssoc(inv, a, c);
    MulAssoc(inv, b, c);
    MulAssoc(a, c, inv);
    MulAssoc(b, c, inv);
    CongrScale(c * inv, 1, a, m);
    CongrScale(c * inv, 1, b, m);
    CongrSym(a * (c * inv), a, m);
    CongrTrans(a, a * (c * inv), b * (c * inv), m);
    CongrTrans(a, b * (c * inv), b, m);
  }
}
