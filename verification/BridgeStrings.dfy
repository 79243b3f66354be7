/**
  Strings on the two sides of the bridge: JavaScript strings are sequences of 16-bit
  units; Rust strings are sequences of Unicode scalar values, which is what char is.
*/
module BridgeStrings {

  type Unit = x: int | 0 <= x < 0x1_0000

  predicate IsHigh(u: Unit) {
    0xD800 <= u < 0xDC00
  }

  predicate IsLow(u: Unit) {
    0xDC00 <= u < 0xE000
  }

  predicate IsSurrogate(u: Unit) {
    0xD800 <= u < 0xE000
  }

  /** The first units form a pair of surrogates. */
  predicate StartsPair(u: seq<Unit>) {
    |u| > 1 && IsHigh(u[0]) && IsLow(u[1])
  }

  function PairChar(high: Unit, low: Unit): char
    requires IsHigh(high) && IsLow(low)
  {
    (0x1_0000 + (high - 0xD800) * 0x400 + (low - 0xDC00)) as char
  }

  /** To a Rust string; a surrogate without its partner becomes U+FFFD. */
  function Lossy(u: seq<Unit>): string {
    if u == [] then []
    else if StartsPair(u) then [PairChar(u[0], u[1])] + Lossy(u[2..])
    else if IsSurrogate(u[0]) then [0xFFFD as char] + Lossy(u[1..])
    else [u[0] as char] + Lossy(u[1..])
  }

  function UnitsOf(c: char): seq<Unit> {
    var n := c as int;
    if n < 0x1_0000 then [n] else [0xD800 + (n - 0x1_0000) / 0x400, 0xDC00 + (n - 0x1_0000) % 0x400]
  }

  /** To a JavaScript string. */
  function ToUnits(s: string): seq<Unit> {
    if s == [] then [] else UnitsOf(s[0]) + ToUnits(s[1..])
  }

  /** No surrogate is without its partner. */
  predicate WellFormed(u: seq<Unit>) {
    if u == [] then true
    else if StartsPair(u) then WellFormed(u[2..])
    else !IsSurrogate(u[0]) && WellFormed(u[1..])
  }

  lemma PairUnits(high: Unit, low: Unit)
    requires IsHigh(high) && IsLow(low)
    ensures UnitsOf(PairChar(high, low)) == [high, low]
  {
    var a, b := high - 0xD800, low - 0xDC00;
    assert (a * 0x400 + b) / 0x400 == a && (a * 0x400 + b) % 0x400 == b;
  }

  /** A JavaScript string survives the way there and back exactly when it is well formed. */
  lemma {:induction false} ThereAndBack(u: seq<Unit>)
    ensures ToUnits(Lossy(u)) == u <==> WellFormed(u)
  {
    if u == [] {
    } else if StartsPair(u) {
      PairUnits(u[0], u[1]);
      ThereAndBack(u[2..]);
      assert u == [u[0], u[1]] + u[2..];
      assert Lossy(u)[1..] == Lossy(u[2..]);
      Cancel([u[0], u[1]], ToUnits(Lossy(u[2..])), u[2..]);
    } else if IsSurrogate(u[0]) {
      assert Lossy(u)[0] == 0xFFFD as char;
      assert ToUnits(Lossy(u))[0] == 0xFFFD;
    } else {
      ThereAndBack(u[1..]);
      assert u == [u[0]] + u[1..];
      assert Lossy(u)[1..] == Lossy(u[1..]);
      Cancel([u[0]], ToUnits(Lossy(u[1..])), u[1..]);
    }
  }

  lemma Cancel(a: seq<Unit>, b: seq<Unit>, c: seq<Unit>)
    ensures a + b == a + c <==> b == c
  {
    if a + b == a + c {
      assert b == (a + b)[|a|..] && c == (a + c)[|a|..];
    }
  }

  /** A Rust string always survives. */
  lemma {:induction false} BackAndThere(s: string)
    ensures Lossy(ToUnits(s)) == s && WellFormed(ToUnits(s))
  {
    if s != [] {
      var u, n := ToUnits(s), s[0] as int;
      BackAndThere(s[1..]);
      if n < 0x1_0000 {
        assert u[0] == n && u[1..] == ToUnits(s[1..]);
      } else {
        var a, b := (n - 0x1_0000) / 0x400, (n - 0x1_0000) % 0x400;
        assert u[0] == 0xD800 + a && u[1] == 0xDC00 + b && u[2..] == ToUnits(s[1..]);
        assert PairChar(u[0], u[1]) == s[0];
      }
    }
  }

  /** Different well-formed strings stay different; ill-formed ones may collide. */
  lemma LossyInjective(u: seq<Unit>, v: seq<Unit>)
    requires WellFormed(u) && WellFormed(v) && Lossy(u) == Lossy(v)
    ensures u == v
  {
    ThereAndBack(u);
    ThereAndBack(v);
  }

  lemma LossyCollides()
    ensures Lossy([0xD800]) == Lossy([0xD801]) == Lossy([0xFFFD])
  {
    assert Lossy([0xD800]) == [0xFFFD as char] + Lossy([]);
    assert Lossy([0xD801]) == [0xFFFD as char] + Lossy([]);
    assert Lossy([0xFFFD]) == [0xFFFD as char] + Lossy([]);
  }

  /** A surrogate that is not half of a pair. */
  predicate Lone(u: seq<Unit>, i: nat)
    requires i < |u|
  {
    && IsSurrogate(u[i])
    && !(IsHigh(u[i]) && i + 1 < |u| && IsLow(u[i + 1])) && !(IsLow(u[i]) && i > 0 && IsHigh(u[i - 1]))
  }

  /** What becomes of any string: the same units, but U+FFFD for each surrogate that is not half of a pair. */
  lemma {:induction false} LossyExactly(u: seq<Unit>)
    ensures |ToUnits(Lossy(u))| == |u|
    ensures forall i: nat :: i < |u| ==> ToUnits(Lossy(u))[i] == if Lone(u, i) then 0xFFFD else u[i]
  {
    if u == [] {
    } else if StartsPair(u) {
      PairUnits(u[0], u[1]);
      LossyExactly(u[2..]);
      assert Lossy(u)[1..] == Lossy(u[2..]);
      assert ToUnits(Lossy(u)) == [u[0], u[1]] + ToUnits(Lossy(u[2..]));
      forall i: nat | i < |u| ensures ToUnits(Lossy(u))[i] == if Lone(u, i) then 0xFFFD else u[i] {
        if i >= 2 {
          assert Lone(u[2..], i - 2) <==> Lone(u, i);
        }
      }
    } else {
      LossyExactly(u[1..]);
      assert Lossy(u)[1..] == Lossy(u[1..]);
      var c := if IsSurrogate(u[0]) then 0xFFFD else u[0];
      assert ToUnits(Lossy(u)) == [c] + ToUnits(Lossy(u[1..]));
      forall i: nat | i < |u| ensures ToUnits(Lossy(u))[i] == if Lone(u, i) then 0xFFFD else u[i] {
        if i >= 1 {
          assert Lone(u[1..], i - 1) <==> Lone(u, i);
        }
      }
    }
  }
}
