/**
  UTF-8 as in section 3 of RFC 3629, and the decoder of the Encoding Standard, which
  replaces every malformed stretch by U+FFFD and drops a leading byte order mark.
*/
module Utf8 {

  type Byte = x: int | 0 <= x < 0x100

  function Bytes(c: char): (r: seq<Byte>)
    ensures 1 <= |r| <= 4
  {
    var n := c as int;
    if n < 0x80 then [n]
    else if n < 0x800 then [0xC0 + n / 0x40, 0x80 + n % 0x40]
    else if n < 0x1_0000 then [0xE0 + n / 0x1000, 0x80 + n / 0x40 % 0x40, 0x80 + n % 0x40]
    else [0xF0 + n / 0x4_0000, 0x80 + n / 0x1000 % 0x40, 0x80 + n / 0x40 % 0x40, 0x80 + n % 0x40]
  }

  function Encode(s: string): seq<Byte> {
    if s == [] then [] else Bytes(s[0]) + Encode(s[1..])
  }

  /** How many continuation bytes a first byte asks for. */
  function Needed(b: Byte): nat {
    if 0xC2 <= b <= 0xDF then 1
    else if 0xE0 <= b <= 0xEF then 2
    else if 0xF0 <= b <= 0xF4 then 3
    else 0
  }

  /** The range of the first continuation byte rules out overlong forms, surrogates and values above U+10FFFF. */
  predicate Continues(first: Byte, k: nat, b: Byte) {
    var lower := if k == 1 && first == 0xE0 then 0xA0 else if k == 1 && first == 0xF0 then 0x90 else 0x80;
    var upper := if k == 1 && first == 0xED then 0x9F else if k == 1 && first == 0xF4 then 0x8F else 0xBF;
    lower <= b <= upper
  }

  /** The length of the longest proper start of a character at the front of b, at most 1 + n. */
  function Stretch(b: seq<Byte>, n: nat): (r: nat)
    requires |b| > 0
    ensures 1 <= r <= |b| && r <= n + 1
    ensures forall k :: 1 <= k < r ==> Continues(b[0], k, b[k])
    ensures r < n + 1 ==> r == |b| || !Continues(b[0], r, b[r])
  {
    if n == 0 then 1
    else
      var r := Stretch(b, n - 1);
      if r == n && n < |b| && Continues(b[0], n, b[n]) then n + 1 else r
  }

  function Tail(b: Byte): int {
    b % 0x40
  }

  /** The character of a complete sequence. */
  function CharOf(b: seq<Byte>): char
    requires |b| > 0 && |b| == 1 + Needed(b[0]) && (Needed(b[0]) > 0 || b[0] < 0x80)
    requires forall k :: 1 <= k < |b| ==> Continues(b[0], k, b[k])
  {
    if |b| == 1 then b[0] as char
    else if |b| == 2 then
      assert Continues(b[0], 1, b[1]);
      ((b[0] - 0xC0) * 0x40 + Tail(b[1])) as char
    else if |b| == 3 then
      assert Continues(b[0], 1, b[1]) && Continues(b[0], 2, b[2]);
      ((b[0] - 0xE0) * 0x1000 + Tail(b[1]) * 0x40 + Tail(b[2])) as char
    else
      assert Continues(b[0], 1, b[1]) && Continues(b[0], 2, b[2]) && Continues(b[0], 3, b[3]);
      ((b[0] - 0xF0) * 0x4_0000 + Tail(b[1]) * 0x1000 + Tail(b[2]) * 0x40 + Tail(b[3])) as char
  }

  const REPLACEMENT := 0xFFFD as char

  /** Decoding of any bytes: each malformed stretch is one replacement character. */
  function Decode(b: seq<Byte>): string
    decreases |b|
  {
    if b == [] then []
    else
      var n := Needed(b[0]);
      var r := Stretch(b, n);
      if r == n + 1 && (n > 0 || b[0] < 0x80) then [CharOf(b[..r])] + Decode(b[r..])
      else [REPLACEMENT] + Decode(b[r..])
  }

  const BYTE_ORDER_MARK := 0xFEFF as char

  /** `TextDecoder.decode` */
  function TextDecode(b: seq<Byte>): string {
    if |b| >= 3 && b[..3] == [0xEF, 0xBB, 0xBF] then Decode(b[3..]) else Decode(b)
  }

  lemma BytesNeeded(c: char)
    ensures var b := Bytes(c); |b| == 1 + Needed(b[0]) && (Needed(b[0]) > 0 || b[0] < 0x80)
    ensures var b := Bytes(c); forall k :: 1 <= k < |b| ==> Continues(b[0], k, b[k])
  {
  }

  lemma BytesBack(c: char)
    ensures var b := Bytes(c);
      && |b| == 1 + Needed(b[0]) && (Needed(b[0]) > 0 || b[0] < 0x80) && (forall k :: 1 <= k < |b| ==> Continues(b[0], k, b[k]))
      && CharOf(b) == c
  {
    BytesNeeded(c);
    Sextets(c as int);
    if (c as int) < 0x800 {
      TwoBack(c);
    } else if (c as int) < 0x1_0000 {
      ThreeBack(c);
    } else {
      FourBack(c);
    }
  }

  lemma TwoBack(c: char)
    requires (c as int) < 0x800
    ensures CharOf(Bytes(c)) == c
  {
    BytesNeeded(c);
    Sextets(c as int);
  }

  lemma ThreeBack(c: char)
    requires 0x800 <= (c as int) < 0x1_0000
    ensures CharOf(Bytes(c)) == c
  {
    BytesNeeded(c);
    var n, b := c as int, Bytes(c);
    Sextets(n);
    Tail40(n / 0x40 % 0x40);
    Tail40(n % 0x40);
    assert b[0] - 0xE0 == n / 0x1000 && Tail(b[1]) == n / 0x40 % 0x40 && Tail(b[2]) == n % 0x40;
    assert CharOf(b) == ((b[0] - 0xE0) * 0x1000 + Tail(b[1]) * 0x40 + Tail(b[2])) as char;
    hide Bytes;
  }

  lemma FourBack(c: char)
    requires 0x1_0000 <= (c as int)
    ensures CharOf(Bytes(c)) == c
  {
    BytesNeeded(c);
    var n, b := c as int, Bytes(c);
    Sextets(n);
    Tail40(n / 0x1000 % 0x40);
    Tail40(n / 0x40 % 0x40);
    Tail40(n % 0x40);
    assert b[0] - 0xF0 == n / 0x4_0000 && Tail(b[1]) == n / 0x1000 % 0x40 && Tail(b[2]) == n / 0x40 % 0x40 && Tail(b[3]) == n % 0x40;
    assert CharOf(b) == ((b[0] - 0xF0) * 0x4_0000 + Tail(b[1]) * 0x1000 + Tail(b[2]) * 0x40 + Tail(b[3])) as char;
    hide Bytes;
  }

  /** A number from its base-64 digits. */
  lemma Sextets(n: nat)
    ensures n == n / 0x40 * 0x40 + n % 0x40
    ensures n == n / 0x1000 * 0x1000 + n / 0x40 % 0x40 * 0x40 + n % 0x40
    ensures n == n / 0x4_0000 * 0x4_0000 + n / 0x1000 % 0x40 * 0x1000 + n / 0x40 % 0x40 * 0x40 + n % 0x40
  {
    assert n / 0x1000 == n / 0x40 / 0x40;
    assert n / 0x4_0000 == n / 0x1000 / 0x40;
  }

  /** Every string survives encoding and decoding. */
  lemma {:induction false} DecodeEncode(s: string)
    ensures Decode(Encode(s)) == s
  {
    if s != [] {
      var b, e := Bytes(s[0]), Encode(s);
      DecodeEncode(s[1..]);
      BytesBack(s[0]);
      assert e[..|b|] == b && e[|b|..] == Encode(s[1..]);
      assert Stretch(e, Needed(e[0])) == |b|;
    }
  }

  predicate StartsWithMark(s: string) {
    s != [] && s[0] == BYTE_ORDER_MARK
  }

  lemma MarkBytes(c: char)
    ensures Bytes(c) == [0xEF, 0xBB, 0xBF] <==> c == BYTE_ORDER_MARK
    ensures |Bytes(c)| >= 3 && Bytes(c)[..3] == [0xEF, 0xBB, 0xBF] ==> c == BYTE_ORDER_MARK
  {
    var b := Bytes(c);
    if |b| >= 3 {
      assert b[..3][0] == b[0];
    }
  }

  /** `TextDecoder` gives back what `TextEncoder` got, except for a leading byte order mark. */
  lemma TextDecodeEncode(s: string)
    ensures TextDecode(Encode(s)) == if StartsWithMark(s) then s[1..] else s
  {
    var e := Encode(s);
    DecodeEncode(s);
    if s != [] {
      var b := Bytes(s[0]);
      MarkBytes(s[0]);
      if StartsWithMark(s) {
        assert e[..3] == b && e[3..] == Encode(s[1..]);
        DecodeEncode(s[1..]);
      } else {
        FirstBytes(s);
      }
    }
  }

  /** Only the mark itself starts with the bytes of the mark. */
  lemma FirstBytes(s: string)
    requires s != [] && s[0] != BYTE_ORDER_MARK
    ensures var e := Encode(s); |e| >= 3 ==> e[..3] != [0xEF, 0xBB, 0xBF]
  {
    var b, e := Bytes(s[0]), Encode(s);
    BytesBack(s[0]);
    MarkBytes(s[0]);
    assert |e| >= 3 ==> e[..3][0] == b[0] && (|b| >= 3 ==> e[..3] == b[..3]);
  }

  // ----- which bytes are UTF-8 -----

  predicate IsTail(b: Byte) {
    0x80 <= b <= 0xBF
  }

  /** The number with these groups of six bits. */
  function FromSextets(a: int, b: int, c: int, d: int): int {
    a * 0x4_0000 + b * 0x1000 + c * 0x40 + d
  }

  /** The table of section 3: lengths, ranges of the first byte, and six bits of the number in each other byte. */
  lemma BytesExact(c: char)
    ensures var n, b := c as int, Bytes(c);
            && (n < 0x80 ==> b == [n])
            && (0x80 <= n < 0x800 ==>
                  |b| == 2 && 0xC2 <= b[0] <= 0xDF && IsTail(b[1]) && n == FromSextets(0, 0, b[0] % 0x20, b[1] % 0x40))
            && (0x800 <= n < 0x1_0000 ==>
                  |b| == 3 && 0xE0 <= b[0] <= 0xEF && IsTail(b[1]) && IsTail(b[2]) &&
                  n == FromSextets(0, b[0] % 0x10, b[1] % 0x40, b[2] % 0x40))
            && (0x1_0000 <= n ==>
                  |b| == 4 && 0xF0 <= b[0] <= 0xF4 && IsTail(b[1]) && IsTail(b[2]) && IsTail(b[3]) &&
                  n == FromSextets(b[0] % 0x10, b[1] % 0x40, b[2] % 0x40, b[3] % 0x40))
  {
    var n := c as int;
    Sextets(n);
    if 0x80 <= n < 0x800 {
      Tail20(n / 0x40);
    } else if 0x800 <= n < 0x1_0000 {
      Tail10(n / 0x1000);
    } else if 0x1_0000 <= n {
      Tail10(n / 0x4_0000);
    }
    Tail40(n % 0x40);
    Tail40(n / 0x40 % 0x40);
    Tail40(n / 0x1000 % 0x40);
  }

  lemma Tail40(low: int)
    requires 0 <= low < 0x40
    ensures (0x80 + low) % 0x40 == low
  {
  }

  lemma Tail20(low: int)
    requires 0 <= low < 0x20
    ensures (0xC0 + low) % 0x20 == low
  {
  }

  lemma Tail10(low: int)
    requires 0 <= low < 0x10
    ensures (0xE0 + low) % 0x10 == low && (0xF0 + low) % 0x10 == low
  {
  }

  /** A complete sequence is that of its character. */
  lemma CharBytes(b: seq<Byte>)
    requires |b| > 0 && |b| == 1 + Needed(b[0]) && (Needed(b[0]) > 0 || b[0] < 0x80)
    requires forall k :: 1 <= k < |b| ==> Continues(b[0], k, b[k])
    ensures Bytes(CharOf(b)) == b
  {
    if |b| == 2 {
      TwoBytes(b);
    } else if |b| == 3 {
      ThreeBytes(b);
    } else if |b| == 4 {
      FourBytes(b);
    }
  }

  lemma TwoBytes(b: seq<Byte>)
    requires |b| == 2 && Needed(b[0]) == 1 && forall k :: 1 <= k < |b| ==> Continues(b[0], k, b[k])
    ensures Bytes(CharOf(b)) == b
  {
    assert Continues(b[0], 1, b[1]);
    var n := CharOf(b) as int;
    SextetsOf(n, 0, 0, b[0] % 0x20, Tail(b[1]));
    assert b[0] == 0xC0 + b[0] % 0x20 && b[1] == 0x80 + Tail(b[1]);
  }

  lemma ThreeBytes(b: seq<Byte>)
    requires |b| == 3 && Needed(b[0]) == 2 && forall k :: 1 <= k < |b| ==> Continues(b[0], k, b[k])
    ensures Bytes(CharOf(b)) == b
  {
    assert Continues(b[0], 1, b[1]) && Continues(b[0], 2, b[2]);
    var n := CharOf(b) as int;
    SextetsOf(n, 0, b[0] % 0x10, Tail(b[1]), Tail(b[2]));
    assert b[0] == 0xE0 + b[0] % 0x10 && b[1] == 0x80 + Tail(b[1]) && b[2] == 0x80 + Tail(b[2]);
    assert Bytes(CharOf(b)) == [0xE0 + b[0] % 0x10, 0x80 + Tail(b[1]), 0x80 + Tail(b[2])];
  }

  lemma FourBytes(b: seq<Byte>)
    requires |b| == 4 && Needed(b[0]) == 3 && forall k :: 1 <= k < |b| ==> Continues(b[0], k, b[k])
    ensures Bytes(CharOf(b)) == b
  {
    assert Continues(b[0], 1, b[1]) && Continues(b[0], 2, b[2]) && Continues(b[0], 3, b[3]);
    var n := CharOf(b) as int;
    SextetsOf(n, b[0] % 0x10, Tail(b[1]), Tail(b[2]), Tail(b[3]));
    assert b[0] == 0xF0 + b[0] % 0x10 && b[1] == 0x80 + Tail(b[1]) && b[2] == 0x80 + Tail(b[2]) && b[3] == 0x80 + Tail(b[3]);
    assert Bytes(CharOf(b)) == [0xF0 + b[0] % 0x10, 0x80 + Tail(b[1]), 0x80 + Tail(b[2]), 0x80 + Tail(b[3])];
  }

  lemma SextetsOf(n: int, a: int, b: int, c: int, d: int)
    requires 0 <= a && 0 <= b < 0x40 && 0 <= c < 0x40 && 0 <= d < 0x40
    requires n == a * 0x4_0000 + b * 0x1000 + c * 0x40 + d
    ensures n % 0x40 == d && n / 0x40 % 0x40 == c && n / 0x1000 % 0x40 == b && n / 0x4_0000 == a
    ensures n / 0x40 == a * 0x1000 + b * 0x40 + c && n / 0x1000 == a * 0x40 + b
  {
    var m, l := a * 0x1000 + b * 0x40 + c, a * 0x40 + b;
    assert n == 0x40 * m + d && m == 0x40 * l + c;
    assert n / 0x40 == m && n % 0x40 == d;
    assert m / 0x40 == l && m % 0x40 == c;
    assert n == 0x1000 * l + (0x40 * c + d) && l == 0x40 * a + b;
    assert n / 0x1000 == l && l % 0x40 == b;
    assert n == 0x4_0000 * a + (0x1000 * b + 0x40 * c + d);
  }

  /** The first character of what any bytes decode to; unless it is a replacement, its bytes are the first ones. */
  lemma FirstDecoded(b: seq<Byte>) returns (r: nat)
    requires b != []
    ensures 1 <= r <= |b| && |Decode(b)| > 0 && Decode(b)[1..] == Decode(b[r..])
    ensures Decode(b)[0] != REPLACEMENT ==> Bytes(Decode(b)[0]) == b[..r]
  {
    var n := Needed(b[0]);
    r := Stretch(b, n);
    if r == n + 1 && (n > 0 || b[0] < 0x80) {
      CharBytes(b[..r]);
    }
    hide Bytes, CharOf, Needed, Continues;
  }

  /** Bytes that decode without a replacement are the UTF-8 of the result; nothing malformed slips through. */
  lemma {:induction false} DecodeExact(b: seq<Byte>)
    requires REPLACEMENT !in Decode(b)
    ensures Encode(Decode(b)) == b
    decreases |b|
  {
    if b == [] {
      assert Decode(b) == [];
    } else {
      var r := FirstDecoded(b);
      hide Decode, Bytes;
      assert Decode(b)[0] in Decode(b) && forall c :: c in Decode(b)[1..] ==> c in Decode(b);
      DecodeExact(b[r..]);
      assert b == b[..r] + b[r..];
    }
  }

  /** A proper start of a character that does not go on, or a byte that starts none, is one replacement. */
  lemma Malformed(b: seq<Byte>, r: nat)
    requires 1 <= r <= |b| && (r <= Needed(b[0]) || (r == 1 && Needed(b[0]) == 0 && b[0] >= 0x80))
    requires forall k :: 1 <= k < r ==> Continues(b[0], k, b[k])
    requires Needed(b[0]) > 0 && r < |b| ==> !Continues(b[0], r, b[r])
    ensures Decode(b) == [REPLACEMENT] + Decode(b[r..])
  {
    hide Continues, Needed;
    assert Stretch(b, Needed(b[0])) == r by {
      hide Decode;
    }
  }
}
