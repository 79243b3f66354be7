/**
  The binary envelope of stream frames: eight magic bytes, a type code, two big-endian
  lengths, the id, one auxiliary text and the chunk.
*/
module StreamEnvelope {
  import opened Wrappers
  import opened BridgeStrings
  import opened Utf8
  import opened Buffers

  const MAGIC: seq<Byte> := [0x44, 0x44, 0x53, 0x54, 0x52, 0x4d, 0x31, 0x00]

  /** A frame as the caller gives it: any type name, and fields that may be absent. */
  datatype FrameInput = FrameInput(t: string, id: seq<Unit>, key: Option<seq<Unit>>, error: Option<seq<Unit>>,
                                   reason: Option<seq<Unit>>, credit: real, chunk: Option<seq<Byte>>)

  /** What a credit text means: a whole number, or some other JavaScript number. */
  datatype Amount = Whole(n: nat) | Other(text: string)

  /** A frame as the decoder gives it; an empty text is an absent one. */
  datatype Frame =
    | Open(id: seq<Unit>, key: Option<seq<Unit>>)
    | Chunk(id: seq<Unit>, chunk: seq<Byte>)
    | Close(id: seq<Unit>)
    | Error(id: seq<Unit>, error: Option<seq<Unit>>)
    | Cancel(id: seq<Unit>, reason: Option<seq<Unit>>)
    | Discard(id: seq<Unit>)
    | Credit(id: seq<Unit>, credit: Amount)

  // ----- tables and texts -----

  const FRAME_TYPES := ["open", "chunk", "close", "error", "cancel", "discard", "credit"]

  /** Names every JavaScript object has: the lookup finds something for them, and its low byte is 0. */
  const INHERITED := {"constructor", "toString", "toLocaleString", "valueOf", "hasOwnProperty", "isPrototypeOf", "propertyIsEnumerable",
                      "__proto__", "__defineGetter__", "__defineSetter__", "__lookupGetter__", "__lookupSetter__"}

  /** The code that a type name is written as. */
  function TypeCode(t: string): Option<Byte> {
    if t == "open" then Some(1) else if t == "chunk" then Some(2) else if t == "close" then Some(3)
    else if t == "error" then Some(4) else if t == "cancel" then Some(5) else if t == "discard" then Some(6)
    else if t == "credit" then Some(7) else if t in INHERITED then Some(0) else None
  }

  lemma InheritedCode(t: string)
    requires t in INHERITED
    ensures TypeCode(t) == Some(0) && t !in FRAME_TYPES
  {
    assert |t| >= 7 && (|t| == 7 ==> t[0] == 'v');
    assert |"open"| == 4 && |"chunk"| == 5 && |"close"| == 5 && |"error"| == 5 && |"cancel"| == 6 && |"discard"| == 7 && |"credit"| == 6;
    assert "discard"[0] == 'd';
  }

  function Digit(d: nat): (c: char)
    requires d < 10
  {
    ('0' as int + d) as char
  }

  /** A whole number in decimal. */
  function Decimal(n: nat): string {
    if n < 10 then [Digit(n)] else Decimal(n / 10) + [Digit(n % 10)]
  }

  predicate IsDigits(s: string) {
    forall i :: 0 <= i < |s| ==> '0' <= s[i] <= '9'
  }

  function DecimalValue(s: string): nat
    requires IsDigits(s)
  {
    if s == [] then 0 else DecimalValue(s[..|s| - 1]) * 10 + (s[|s| - 1] as int - '0' as int)
  }

  /** `Number(aux || "0")` */
  function AmountOf(s: string): Amount {
    if IsDigits(s) then Whole(DecimalValue(s)) else Other(s)
  }

  lemma {:induction false} DecimalBack(n: nat)
    ensures Decimal(n) != [] && IsDigits(Decimal(n)) && DecimalValue(Decimal(n)) == n
  {
    if n >= 10 {
      DecimalBack(n / 10);
      var s := Decimal(n);
      assert s[..|s| - 1] == Decimal(n / 10);
    }
  }

  /** `Math.max(0, Math.trunc(credit))` */
  function WholeCredit(c: real): nat {
    if c <= 0.0 then 0 else c.Floor
  }

  /** A credit loses its fraction, and is never negative. */
  lemma CreditTruncated(c: real)
    ensures if c < 0.0 then WholeCredit(c) == 0 else WholeCredit(c) as real <= c < WholeCredit(c) as real + 1.0
  {
  }

  function PowerOfTen(k: nat): nat {
    if k == 0 then 1 else 10 * PowerOfTen(k - 1)
  }

  /** A number is written digit by digit, the last one for its units, and without leading zeros. */
  lemma {:induction false} DecimalDigits(n: nat, k: nat)
    requires k < |Decimal(n)|
    ensures PowerOfTen(k) > 0 && Decimal(n)[|Decimal(n)| - 1 - k] as int == '0' as int + n / PowerOfTen(k) % 10
    ensures n > 0 ==> Decimal(n)[0] != '0'
  {
    if n < 10 {
      assert n / 1 == n;
    } else {
      DecimalDigits(n / 10, if k == 0 then 0 else k - 1);
      if k > 0 {
        TenTimes(n, PowerOfTen(k - 1));
      }
    }
  }

  lemma TenTimes(n: nat, p: nat)
    requires p > 0
    ensures n / (10 * p) == n / 10 / p
  {
    var q, r := n / 10 / p, n / 10 % p;
    assert n == (q * p + r) * 10 + n % 10 && q * p * 10 == q * (10 * p);
    Quotient(n, 10 * p, q, r * 10 + n % 10);
  }

  lemma Quotient(n: int, d: int, q: int, r: int)
    requires d > 0 && 0 <= r < d && n == q * d + r
    ensures n / d == q
  {
    var e := n / d - q;
    assert e * d == (n / d) * d - q * d;
    if e >= 1 {
      AtLeast(e, d);
    } else if e <= -1 {
      AtLeast(-e, d);
    }
  }

  lemma AtLeast(e: int, d: int)
    requires e >= 1 && d >= 0
    ensures e * d >= d
  {
  }

  function OrEmpty(s: Option<seq<Unit>>): string {
    match s
    case None => ""
    case Some(u) => Lossy(u)
  }

  /** The auxiliary text of a frame. */
  function Aux(f: FrameInput): string {
    if f.t == "open" then OrEmpty(f.key)
    else if f.t == "error" then OrEmpty(f.error)
    else if f.t == "cancel" then OrEmpty(f.reason)
    else if f.t == "credit" then Decimal(WholeCredit(f.credit))
    else ""
  }

  function ChunkOf(f: FrameInput): seq<Byte> {
    if f.t == "chunk" && f.chunk.Some? then f.chunk.value else []
  }

  function BigEndian(n: nat): (r: seq<Byte>)
    requires n <= 0xFFFF
  {
    [n / 0x100, n % 0x100]
  }

  function Wide(high: Byte, low: Byte): (r: nat)
    ensures r <= 0xFFFF
  {
    (high as int) * 0x100 + (low as int)
  }

  function Layout(code: Byte, id: seq<Byte>, aux: seq<Byte>, chunk: seq<Byte>): seq<Byte>
    requires |id| <= 0xFFFF && |aux| <= 0xFFFF
  {
    MAGIC + [code] + BigEndian(|id|) + BigEndian(|aux|) + id + aux + chunk
  }

  /** Frames that can be written at all. */
  predicate Encodable(f: FrameInput) {
    TypeCode(f.t).Some? && 0 < |Encode(Lossy(f.id))| <= 0xFFFF && |Encode(Aux(f))| <= 0xFFFF
  }

  function Envelope(f: FrameInput): seq<Byte>
    requires Encodable(f)
  {
    Layout(TypeCode(f.t).value, Encode(Lossy(f.id)), Encode(Aux(f)), ChunkOf(f))
  }

  // ----- writing -----

  /** The envelope, written into a buffer at a moving offset. */
  method EncodeStreamFrameEnvelope(f: FrameInput) returns (r: Result<seq<Byte>, string>)
    ensures r.Ok? <==> Encodable(f)
    ensures r.Ok? ==> r.value == Envelope(f)
  {
    hide *;
    var code := TypeCode(f.t);
    EncodableIs(f);
    if code.None? {
      return Err("Unknown stream frame type: " + f.t);
    }
    var id := Encode(Lossy(f.id));
    if |id| == 0 || |id| > 0xFFFF {
      return Err("Invalid stream id length");
    }
    var aux := Encode(Aux(f));
    if |aux| > 0xFFFF {
      return Err("Invalid stream aux length");
    }
    var chunk := ChunkOf(f);
    var bytes := WriteParts(code.value, id, aux, chunk);
    r := Ok(bytes);
  }

  lemma EncodableIs(f: FrameInput)
    ensures Encodable(f) <==> TypeCode(f.t).Some? && 0 < |Encode(Lossy(f.id))| <= 0xFFFF && |Encode(Aux(f))| <= 0xFFFF
    ensures Encodable(f) ==> Envelope(f) == Layout(TypeCode(f.t).value, Encode(Lossy(f.id)), Encode(Aux(f)), ChunkOf(f))
  {
  }

  method WriteParts(code: Byte, id: seq<Byte>, aux: seq<Byte>, chunk: seq<Byte>) returns (bytes: seq<Byte>)
    requires |id| <= 0xFFFF && |aux| <= 0xFFFF
    ensures bytes == Layout(code, id, aux, chunk)
  {
    var out := new Byte[|MAGIC| + 1 + 2 + 2 + |id| + |aux| + |chunk|](_ => 0);
    Put(out, MAGIC, 0);
    var off := |MAGIC|;
    ghost var done := MAGIC;
    assert out[..off] == done;
    Put(out, [code], off);
    off := off + 1;
    done := done + [code];
    assert out[..off] == done;
    Put(out, BigEndian(|id|), off);
    off := off + 2;
    done := done + BigEndian(|id|);
    assert out[..off] == done;
    Put(out, BigEndian(|aux|), off);
    off := off + 2;
    done := done + BigEndian(|aux|);
    assert out[..off] == done;
    Put(out, id, off);
    off := off + |id|;
    done := done + id;
    assert out[..off] == done;
    Put(out, aux, off);
    off := off + |aux|;
    done := done + aux;
    assert out[..off] == done;
    Put(out, chunk, off);
    assert out[..] == done + chunk;
    bytes := out[..];
  }

  // ----- reading -----

  function NonEmpty(u: seq<Unit>): Option<seq<Unit>> {
    if u == [] then None else Some(u)
  }

  function FrameOf(code: Byte, id: seq<Unit>, aux: string, chunk: seq<Byte>): Option<Frame> {
    if code == 1 then Some(Open(id, NonEmpty(ToUnits(aux))))
    else if code == 2 then Some(Chunk(id, chunk))
    else if code == 3 then Some(Close(id))
    else if code == 4 then Some(Error(id, NonEmpty(ToUnits(aux))))
    else if code == 5 then Some(Cancel(id, NonEmpty(ToUnits(aux))))
    else if code == 6 then Some(Discard(id))
    else if code == 7 then Some(Credit(id, AmountOf(aux)))
    else None
  }

  /** The frame in an envelope; None for any other bytes. */
  function Parsed(b: seq<Byte>): Option<Frame> {
    if |b| < 14 || b[..8] != MAGIC || !(1 <= b[8] <= 7) then None
    else
      var idLen, auxLen := Wide(b[9], b[10]), Wide(b[11], b[12]);
      if idLen == 0 || 13 + idLen + auxLen > |b| then None
      else
        var id := TextDecode(b[13..13 + idLen]);
        if id == "" then None
        else
          var aux := if auxLen > 0 then TextDecode(b[13 + idLen..13 + idLen + auxLen]) else "";
          FrameOf(b[8], ToUnits(id), aux, b[13 + idLen + auxLen..])
  }

  /** The reader: it accepts any bytes and reads inside them only. */
  method DecodeStreamFrameEnvelope(u8: seq<Byte>) returns (r: Option<Frame>)
    ensures r == Parsed(u8)
  {
    hide TextDecode, FrameOf, Wide, ToUnits;
    var minLen := |MAGIC| + 1 + 2 + 2 + 1;
    if |u8| < minLen {
      return None;
    }
    var i := 0;
    while i < |MAGIC|
      invariant i <= |MAGIC| && u8[..i] == MAGIC[..i]
    {
      if u8[i] != MAGIC[i] {
        assert u8[..8][i] != MAGIC[i];
        return None;
      }
      assert u8[..i + 1] == u8[..i] + [u8[i]] && MAGIC[..i + 1] == MAGIC[..i] + [MAGIC[i]];
      i := i + 1;
    }
    assert u8[..8] == MAGIC;
    var off := |MAGIC|;
    var typeCode := u8[off];
    off := off + 1;
    if !(1 <= typeCode <= 7) {
      return None;
    }
    var idLen := Wide(u8[off], u8[off + 1]);
    off := off + 2;
    var auxLen := Wide(u8[off], u8[off + 1]);
    off := off + 2;
    if idLen == 0 || off + idLen + auxLen > |u8| {
      return None;
    }
    var id := TextDecode(u8[off..off + idLen]);
    if id == "" {
      return None;
    }
    off := off + idLen;
    var aux := if auxLen > 0 then TextDecode(u8[off..off + auxLen]) else "";
    off := off + auxLen;
    r := FrameOf(typeCode, ToUnits(id), aux, u8[off..]);
  }

  // ----- which bytes are envelopes -----

  /** The bytes of an envelope, one by one. */
  ghost predicate IsEnvelope(b: seq<Byte>, code: Byte, id: seq<Byte>, aux: seq<Byte>, rest: seq<Byte>) {
    && |id| < 0x1_0000 && |aux| < 0x1_0000
    && b == [0x44, 0x44, 0x53, 0x54, 0x52, 0x4D, 0x31, 0x00, code, |id| / 0x100, |id| % 0x100, |aux| / 0x100, |aux| % 0x100]
            + id + aux + rest
  }

  lemma LengthBytes(high: Byte, low: Byte)
    ensures Wide(high, low) / 0x100 == high && Wide(high, low) % 0x100 == low
  {
  }

  lemma FieldsOf(b: seq<Byte>, code: Byte, id: seq<Byte>, aux: seq<Byte>, rest: seq<Byte>)
    requires IsEnvelope(b, code, id, aux, rest)
    ensures |b| == 13 + |id| + |aux| + |rest| && b[..8] == MAGIC && b[8] == code
    ensures Wide(b[9], b[10]) == |id| && Wide(b[11], b[12]) == |aux|
    ensures b[13..13 + |id|] == id && b[13 + |id|..13 + |id| + |aux|] == aux && b[13 + |id| + |aux|..] == rest
  {
    WideBack(|id|);
    WideBack(|aux|);
    var header := [0x44, 0x44, 0x53, 0x54, 0x52, 0x4D, 0x31, 0x00, code, |id| / 0x100, |id| % 0x100, |aux| / 0x100, |aux| % 0x100];
    HeaderFields(b, header, id, aux, rest);
    hide Wide;
  }

  lemma WideBack(n: nat)
    requires n < 0x1_0000
    ensures n / 0x100 < 0x100 && Wide(n / 0x100, n % 0x100) == n
  {
  }

  lemma HeaderFields(b: seq<Byte>, header: seq<Byte>, id: seq<Byte>, aux: seq<Byte>, rest: seq<Byte>)
    requires |header| == 13 && b == header + id + aux + rest
    ensures |b| == 13 + |id| + |aux| + |rest| && b[..8] == header[..8] && forall i :: 8 <= i < 13 ==> b[i] == header[i]
    ensures b[13..13 + |id|] == id && b[13 + |id|..13 + |id| + |aux|] == aux && b[13 + |id| + |aux|..] == rest
  {
  }

  /** An envelope is refused exactly for a wrong code or an id without text; otherwise its code says what its parts become. */
  lemma EnvelopeRead(b: seq<Byte>, code: Byte, id: seq<Byte>, aux: seq<Byte>, rest: seq<Byte>)
    requires IsEnvelope(b, code, id, aux, rest)
    ensures var name, text := ToUnits(TextDecode(id)), ToUnits(TextDecode(aux));
            var given := if text == [] then None else Some(text);
            Parsed(b) == if !(1 <= code <= 7) || TextDecode(id) == "" then None
                         else match code
                              case 1 => Some(Open(name, given))
                              case 2 => Some(Chunk(name, rest))
                              case 3 => Some(Close(name))
                              case 4 => Some(Error(name, given))
                              case 5 => Some(Cancel(name, given))
                              case 6 => Some(Discard(name))
                              case _ => Some(Credit(name, AmountOf(TextDecode(aux))))
  {
    hide *;
    FieldsOf(b, code, id, aux, rest);
    NothingDecoded();
    assert id == [] ==> TextDecode(id) == "";
    assert aux == [] ==> TextDecode(aux) == "";
    ParsedFields(b, id, aux, rest);
    if 1 <= code <= 7 {
      FrameOfCode(code, ToUnits(TextDecode(id)), TextDecode(aux), rest);
    }
  }

  lemma ParsedFields(b: seq<Byte>, id: seq<Byte>, aux: seq<Byte>, rest: seq<Byte>)
    requires |b| == 13 + |id| + |aux| + |rest| && b[..8] == MAGIC && Wide(b[9], b[10]) == |id| && Wide(b[11], b[12]) == |aux|
    requires b[13..13 + |id|] == id && b[13 + |id|..13 + |id| + |aux|] == aux && b[13 + |id| + |aux|..] == rest
    requires (id == [] ==> TextDecode(id) == "") && (aux == [] ==> TextDecode(aux) == "")
    ensures Parsed(b) == if !(1 <= b[8] <= 7) || TextDecode(id) == "" then None
                         else FrameOf(b[8], ToUnits(TextDecode(id)), TextDecode(aux), rest)
  {
    hide TextDecode, ToUnits, Wide, FrameOf;
  }

  lemma FrameOfCode(code: Byte, name: seq<Unit>, aux: string, rest: seq<Byte>)
    requires 1 <= code <= 7
    ensures var text := ToUnits(aux);
            var given := if text == [] then None else Some(text);
            FrameOf(code, name, aux, rest) == match code
              case 1 => Some(Open(name, given))
              case 2 => Some(Chunk(name, rest))
              case 3 => Some(Close(name))
              case 4 => Some(Error(name, given))
              case 5 => Some(Cancel(name, given))
              case 6 => Some(Discard(name))
              case _ => Some(Credit(name, AmountOf(aux)))
  {
    hide ToUnits, AmountOf;
  }

  lemma NothingDecoded()
    ensures TextDecode([]) == ""
  {
  }

  /** The reader accepts exactly the envelopes with a known code and an id that decodes to some text. */
  lemma AcceptedExactly(b: seq<Byte>)
    ensures Parsed(b).Some? <==>
            exists code: Byte, id: seq<Byte>, aux: seq<Byte>, rest: seq<Byte> ::
              IsEnvelope(b, code, id, aux, rest) && 1 <= code <= 7 && TextDecode(id) != ""
  {
    hide TextDecode, ToUnits;
    if Parsed(b).Some? {
      var n, m := Wide(b[9], b[10]), Wide(b[11], b[12]);
      var id, aux, rest := b[13..13 + n], b[13 + n..13 + n + m], b[13 + n + m..];
      LengthBytes(b[9], b[10]);
      LengthBytes(b[11], b[12]);
      assert MAGIC == [0x44, 0x44, 0x53, 0x54, 0x52, 0x4D, 0x31, 0x00];
      assert b == b[..8] + [b[8], b[9], b[10], b[11], b[12]] + id + aux + rest;
      assert IsEnvelope(b, b[8], id, aux, rest) by { hide Wide; }
    }
    forall code: Byte, id: seq<Byte>, aux: seq<Byte>, rest: seq<Byte> | IsEnvelope(b, code, id, aux, rest) && 1 <= code <= 7 && TextDecode(id) != ""
      ensures Parsed(b).Some?
    {
      EnvelopeRead(b, code, id, aux, rest);
      hide Parsed, IsEnvelope;
    }
  }

  /** What is written for each type: its code, the id, the one text or number it has, and a chunk only in a chunk frame. */
  lemma WrittenBytes(f: FrameInput)
    requires Encodable(f) && f.t in FRAME_TYPES
    ensures var id := Encode(Lossy(f.id));
            match f.t
            case "open" => IsEnvelope(Envelope(f), 1, id, if f.key.Some? then Encode(Lossy(f.key.value)) else [], [])
            case "chunk" => IsEnvelope(Envelope(f), 2, id, [], if f.chunk.Some? then f.chunk.value else [])
            case "close" => IsEnvelope(Envelope(f), 3, id, [], [])
            case "error" => IsEnvelope(Envelope(f), 4, id, if f.error.Some? then Encode(Lossy(f.error.value)) else [], [])
            case "cancel" => IsEnvelope(Envelope(f), 5, id, if f.reason.Some? then Encode(Lossy(f.reason.value)) else [], [])
            case "discard" => IsEnvelope(Envelope(f), 6, id, [], [])
            case _ => f.t == "credit" && IsEnvelope(Envelope(f), 7, id, Encode(Decimal(WholeCredit(f.credit))), [])
  {
    TypeNames();
    EncodeEmpty("");
    LayoutIs(TypeCode(f.t).value, Encode(Lossy(f.id)), Encode(Aux(f)), ChunkOf(f));
    hide Encode, Lossy, Decimal, WholeCredit, Layout, IsEnvelope;
  }

  lemma LayoutIs(code: Byte, id: seq<Byte>, aux: seq<Byte>, chunk: seq<Byte>)
    requires |id| <= 0xFFFF && |aux| <= 0xFFFF
    ensures IsEnvelope(Layout(code, id, aux, chunk), code, id, aux, chunk)
  {
  }

  // ----- the round trip -----

  function Strip(s: string): string {
    if StartsWithMark(s) then s[1..] else s
  }

  /** What is left of a text after both directions. */
  function Back(u: seq<Unit>): seq<Unit> {
    ToUnits(Strip(Lossy(u)))
  }

  /** Texts that come back: well formed, and not starting with a byte order mark. */
  predicate Survives(u: seq<Unit>) {
    WellFormed(u) && !StartsWithMark(Lossy(u))
  }

  lemma SurvivesExactly(u: seq<Unit>)
    ensures Back(u) == u <==> Survives(u)
  {
    ThereAndBack(u);
    var s := Lossy(u);
    if StartsWithMark(s) {
      BackAndThere(s[1..]);
      assert |s[1..]| == |s| - 1;
    }
  }

  predicate AuxSurvives(f: FrameInput) {
    && (f.t == "open" && f.key.Some? ==> Survives(f.key.value))
    && (f.t == "error" && f.error.Some? ==> Survives(f.error.value))
    && (f.t == "cancel" && f.reason.Some? ==> Survives(f.reason.value))
  }

  function Present(s: Option<seq<Unit>>): Option<seq<Unit>> {
    match s
    case None => None
    case Some(u) => NonEmpty(u)
  }

  /** The frame as it should come back: empty texts absent, the credit a whole number that is not negative. */
  function Normal(f: FrameInput): Frame
    requires f.t in FRAME_TYPES
  {
    if f.t == "open" then Open(f.id, Present(f.key))
    else if f.t == "chunk" then Chunk(f.id, ChunkOf(f))
    else if f.t == "close" then Close(f.id)
    else if f.t == "error" then Error(f.id, Present(f.error))
    else if f.t == "cancel" then Cancel(f.id, Present(f.reason))
    else if f.t == "discard" then Discard(f.id)
    else Credit(f.id, Whole(WholeCredit(f.credit)))
  }

  /** The fields of a layout are where the reader looks for them. */
  lemma LayoutParts(code: Byte, id: seq<Byte>, aux: seq<Byte>, chunk: seq<Byte>)
    requires 0 < |id| <= 0xFFFF && |aux| <= 0xFFFF
    ensures var b := Layout(code, id, aux, chunk);
      && |b| == 13 + |id| + |aux| + |chunk| && b[..8] == MAGIC && b[8] == code
      && Wide(b[9], b[10]) == |id| && Wide(b[11], b[12]) == |aux|
      && b[13..13 + |id|] == id && b[13 + |id|..13 + |id| + |aux|] == aux && b[13 + |id| + |aux|..] == chunk
  {
  }

  lemma EncodeEmpty(s: string)
    ensures Encode(s) == [] <==> s == []
  {
  }

  /** What the reader makes of a written frame. */
  lemma ParsedEnvelope(f: FrameInput)
    requires Encodable(f)
    ensures Parsed(Envelope(f)) ==
            if TypeCode(f.t) == Some(0) || Back(f.id) == [] then None
            else FrameOf(TypeCode(f.t).value, Back(f.id), Strip(Aux(f)), ChunkOf(f))
  {
    CodeBound(f.t);
    EncodableIs(f);
    hide Layout, Encode, Lossy, TextDecode, FrameOf, Aux, ToUnits, StartsWithMark, TypeCode, Encodable, Envelope, Wide, ChunkOf, Strip, Back;
    var id, aux := Encode(Lossy(f.id)), Encode(Aux(f));
    LayoutParts(TypeCode(f.t).value, id, aux, ChunkOf(f));
    TextBack(f.id, Aux(f));
  }

  lemma CodeBound(t: string)
    ensures TypeCode(t).Some? ==> TypeCode(t).value <= 7
  {
  }

  /** The two texts of an envelope, read back. */
  lemma TextBack(id: seq<Unit>, aux: string)
    ensures TextDecode(Encode(Lossy(id))) == Strip(Lossy(id)) && ToUnits(Strip(Lossy(id))) == Back(id)
    ensures Strip(Lossy(id)) == "" <==> Back(id) == []
    ensures (if |Encode(aux)| > 0 then TextDecode(Encode(aux)) else "") == Strip(aux)
  {
    TextDecodeEncode(Lossy(id));
    TextDecodeEncode(aux);
    EncodeEmpty(aux);
    UnitsEmpty(Strip(Lossy(id)));
  }

  lemma UnitsEmpty(s: string)
    ensures ToUnits(s) == [] <==> s == []
  {
  }

  lemma DecimalUnmarked(n: nat)
    ensures Strip(Decimal(n)) == Decimal(n)
  {
    DecimalBack(n);
  }

  /** A text field comes back exactly when its text survives. */
  lemma FieldBack(s: Option<seq<Unit>>)
    ensures NonEmpty(ToUnits(Strip(OrEmpty(s)))) == Present(s) <==> (s.Some? ==> Survives(s.value))
  {
    if s.Some? {
      SurvivesExactly(s.value);
    }
  }

  /** The parts of a frame, read back, compared with the normal form. */
  lemma PartsBack(f: FrameInput)
    requires f.t in FRAME_TYPES
    ensures TypeCode(f.t) != Some(0) && TypeCode(f.t).Some?
    ensures FrameOf(TypeCode(f.t).value, Back(f.id), Strip(Aux(f)), ChunkOf(f)) == Some(Normal(f)) <==> Back(f.id) == f.id && AuxSurvives(f)
  {
    FieldBack(f.key);
    FieldBack(f.error);
    FieldBack(f.reason);
    DecimalBack(WholeCredit(f.credit));
    DecimalUnmarked(WholeCredit(f.credit));
    hide Survives, Strip, NonEmpty, Present, Decimal, ToUnits, OrEmpty, WholeCredit, ChunkOf, Back, AmountOf;
    TypeNames();
    assert AmountOf(Decimal(WholeCredit(f.credit))) == Whole(WholeCredit(f.credit)) by {
      AmountBack(WholeCredit(f.credit));
    }
  }

  lemma AmountBack(n: nat)
    ensures AmountOf(Decimal(n)) == Whole(n)
  {
    DecimalBack(n);
  }

  lemma TypeNames()
    ensures |"open"| == 4 && |"chunk"| == 5 && |"close"| == 5 && |"error"| == 5 && |"cancel"| == 6 && |"discard"| == 7 && |"credit"| == 6
    ensures "chunk" != "close" && "chunk" != "error" && "close" != "error" && "cancel" != "credit"
  {
    assert "chunk"[1] == 'h' && "close"[1] == 'l' && "error"[1] == 'r' && "cancel"[1] == 'a' && "credit"[1] == 'r';
  }

  /** A frame comes back normalised exactly when its texts survive. */
  lemma EnvelopeRoundTrip(f: FrameInput)
    requires Encodable(f) && f.t in FRAME_TYPES
    ensures Parsed(Envelope(f)) == Some(Normal(f)) <==> Survives(f.id) && AuxSurvives(f)
  {
    NamedFrame(f);
    hide *;
    ParsedEnvelope(f);
    SurvivesExactly(f.id);
    PartsBack(f);
  }

  lemma NamedFrame(f: FrameInput)
    requires Encodable(f)
    ensures f.id != []
  {
    EncodeEmpty(Lossy(f.id));
  }

  /** Names inherited by every object are written without complaint, but never read. */
  lemma InheritedTypeLost(f: FrameInput)
    requires Encodable(f) && f.t in INHERITED
    ensures Parsed(Envelope(f)) == None
  {
    InheritedCode(f.t);
    hide *;
    ParsedEnvelope(f);
  }

  /** Different normalised frames have different envelopes. */
  lemma EnvelopeInjective(f: FrameInput, g: FrameInput)
    requires Encodable(f) && f.t in FRAME_TYPES && Survives(f.id) && AuxSurvives(f)
    requires Encodable(g) && g.t in FRAME_TYPES && Survives(g.id) && AuxSurvives(g)
    ensures Envelope(f) == Envelope(g) ==> Normal(f) == Normal(g)
  {
    EnvelopeRoundTrip(f);
    EnvelopeRoundTrip(g);
  }
}
