/** An even split of n in p shares: the first n % p shares get one more than the others. */
module EvenSplit {

  function ShareOf(n: nat, p: nat, i: nat): nat
    requires p > 0
  {
    n / p + if i < n % p then 1 else 0
  }

  /** The sum of the shares before share i. */
  function StartOf(n: nat, p: nat, i: nat): nat
    requires p > 0
  {
    i * (n / p) + if i < n % p then i else n % p
  }

  lemma Multiples(n: nat, p: nat, i: nat)
    requires p > 0
    ensures (i + 1) * (n / p) == i * (n / p) + n / p && p * (n / p) + n % p == n
  {
  }

  /** The shares add up, one after the other, to n. */
  lemma StartNext(n: nat, p: nat, i: nat)
    requires 0 < p && i < p
    ensures StartOf(n, p, i + 1) == StartOf(n, p, i) + ShareOf(n, p, i)
    ensures StartOf(n, p, 0) == 0 && StartOf(n, p, p) == n
  {
    Multiples(n, p, i);
  }

  function Smaller(a: nat, b: nat): nat {
    if a < b then a else b
  }

  /** The shares do not grow, differ by one at most, and as many are positive as can be. */
  lemma SharesFall(n: nat, p: nat, i: nat)
    requires i < p
    ensures ShareOf(n, p, i) > 0 <==> i < Smaller(n, p)
    ensures forall j: nat :: i < j ==> ShareOf(n, p, j) <= ShareOf(n, p, i) <= ShareOf(n, p, j) + 1
    ensures n / p <= ShareOf(n, p, i) <= n / p + 1
  {
    if n < p {
      assert n / p == 0 && n % p == n;
    } else {
      QuotientPositive(n, p);
    }
  }

  lemma QuotientPositive(n: nat, p: nat)
    requires 0 < p <= n
    ensures n / p >= 1
  {
  }
}
