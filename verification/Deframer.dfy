/**
  The stream benchmark's frames: how they are written, and how the worker finds them
  again in chunks that are cut anywhere.
*/
module Deframers {
  import opened JsInt
  import opened BridgeStrings
  import opened Utf8
  import opened Buffers

  const HEADER := 16

  /** The three payload modes; how a JSON payload is summed up is a parameter. */
  datatype Mode = Binary | Json | Text

  datatype Ack = Ack(id: nat, size: nat, checksum: nat)

  type JsonSummary = seq<Byte> -> (nat, nat)

  datatype Message = Batch(acks: seq<Ack>) | Single(ack: Ack)

  // ----- writing -----

  function Little(n: nat): (r: seq<Byte>)
    ensures |r| == 4
  {
    [n % 0x100, n / 0x100 % 0x100, n / 0x1_0000 % 0x100, n / 0x100_0000 % 0x100]
  }

  function ModeByte(mode: Mode): Byte {
    match mode
    case Binary => 0
    case Json => 1
    case Text => 2
  }

  /** One frame: id, count 1, payload length, mode, padding, payload. */
  function Frame(id: nat, payload: seq<Byte>, mode: Mode): seq<Byte> {
    Little(id) + [1, 0, 0, 0] + Little(|payload|) + [ModeByte(mode), 0, 0, 0] + payload
  }

  datatype Job = Job(id: nat, payload: seq<Byte>, mode: Mode)

  function Frames(jobs: seq<Job>): seq<Byte> {
    if jobs == [] then [] else Frame(jobs[0].id, jobs[0].payload, jobs[0].mode) + Frames(jobs[1..])
  }

  // ----- reading -----

  function ReadU32(b: seq<Byte>, off: nat): (r: nat)
    requires off + 4 <= |b|
    ensures r < TWO32
  {
    (b[off] as int) + (b[off + 1] as int) * 0x100 + (b[off + 2] as int) * 0x1_0000 + (b[off + 3] as int) * 0x100_0000
  }

  /** The whole length of the frame at the front; as a 32-bit number it can wrap around. */
  function TotalAt(b: seq<Byte>): nat
    requires |b| >= HEADER
  {
    (HEADER + ReadU32(b, 4) * ReadU32(b, 8) % TWO32) % TWO32
  }

  function ByteAt(b: seq<Byte>, i: int): int {
    if 0 <= i < |b| then b[i] else 0
  }

  function UnitAt(u: seq<Unit>, i: int): int {
    if 0 <= i < |u| then u[i] % 0x100 else 0
  }

  function Checksum(size: nat, first: int, last: int): nat {
    ToUint32(Xor(Xor(size, first), Shl(last, 8)))
  }

  /** Size and checksum of a payload. */
  function Summary(mode: Byte, unitBytes: nat, payload: seq<Byte>, json: JsonSummary): (nat, nat) {
    if unitBytes == 0 then (0, 0)
    else
      var p := if unitBytes <= |payload| then payload[..unitBytes] else payload;
      if mode == 1 then json(p)
      else if mode == 2 then
        var text := ToUnits(TextDecode(p));
        var size := |Encode(Lossy(text))|;
        (ToUint32(size), Checksum(size, UnitAt(text, 0), UnitAt(text, |text| - 1)))
      else (unitBytes, Checksum(unitBytes, ByteAt(payload, 0), ByteAt(payload, unitBytes - 1)))
  }

  function AckAt(b: seq<Byte>, json: JsonSummary): Ack
    requires HEADER <= |b| && HEADER <= TotalAt(b) <= |b|
  {
    var s := Summary(b[12], ReadU32(b, 8), b[HEADER..TotalAt(b)], json);
    Ack(ReadU32(b, 0), s.0, s.1)
  }

  predicate Complete(b: seq<Byte>) {
    HEADER <= |b| && HEADER <= TotalAt(b) <= |b|
  }

  /** All complete frames at the front, and the bytes after them. */
  function Deframed(b: seq<Byte>, json: JsonSummary): (seq<Ack>, seq<Byte>)
    decreases |b|
  {
    if !Complete(b) then ([], b)
    else
      var rest := Deframed(b[TotalAt(b)..], json);
      ([AckAt(b, json)] + rest.0, rest.1)
  }

  function AcksOf(messages: seq<Message>): seq<Ack> {
    if messages == [] then []
    else
      var m := messages[|messages| - 1];
      AcksOf(messages[..|messages| - 1]) + (match m case Batch(acks) => acks case Single(ack) => [ack])
  }

  /** One message for each acknowledgement. */
  function Singles(acks: seq<Ack>): seq<Message> {
    seq(|acks|, i requires 0 <= i < |acks| => Single(acks[i]))
  }

  /** The worker's side of the stream: the bytes not yet used, and the messages posted. */
  class Worker {
    const batchedAck: bool
    const json: JsonSummary
    var buf: seq<Byte>
    var posted: seq<Message>

    constructor (batchedAck: bool, json: JsonSummary)
      ensures this.batchedAck == batchedAck && this.json == json && buf == [] && posted == []
    {
      this.batchedAck := batchedAck;
      this.json := json;
      buf := [];
      posted := [];
    }

    /** Between chunks no complete frame is waiting. */
    predicate Valid()
      reads this
    {
      !Complete(buf)
    }

    /** One chunk: all frames that are complete now are acknowledged, the rest is kept. */
    method Receive(chunk: seq<Byte>)
      modifies this
      ensures Valid() && buf == Deframed(old(buf) + chunk, json).1
      ensures AcksOf(posted) == AcksOf(old(posted)) + Deframed(old(buf) + chunk, json).0
      ensures var acks := Deframed(old(buf) + chunk, json).0;
              posted == old(posted) + if !batchedAck then Singles(acks) else if acks == [] then [] else [Batch(acks)]
    {
      buf := buf + chunk;
      ghost var all := buf;
      var acks: seq<Ack> := [];
      ghost var out: seq<Ack> := [];
      var more := true;
      hide *;
      NoSingles();
      NoneTaken(all, json);
      assert posted + [] == posted;
      while more
        invariant Split(all, out, buf, json)
        invariant acks == if batchedAck then out else []
        invariant posted == old(posted) + if batchedAck then [] else Singles(out)
        invariant !more ==> !Complete(buf)
        decreases |buf|, more
      {
        CompleteIs(buf, json);
        if |buf| < HEADER {
          more := false;
        } else {
          var total := TotalAt(buf);
          if total < HEADER || |buf| < total {
            more := false;
          } else {
            var ack := AckAt(buf, json);
            OneTaken(all, out, buf, json);
            SinglesMore(old(posted), out, ack);
            out := out + [ack];
            if batchedAck {
              acks := acks + [ack];
            } else {
              posted := posted + [Single(ack)];
            }
            buf := buf[total..];
          }
        }
      }
      AllTaken(all, out, buf, json);
      if batchedAck && |acks| > 0 {
        posted := posted + [Batch(acks)];
      }
      Posted(old(posted), out);
      ValidIs();
    }

    lemma ValidIs()
      ensures Valid() <==> !Complete(buf)
    {
    }

    /** The worker after all these bytes, with the acknowledgements before them. */
    ghost predicate After(all: seq<Byte>, acks0: seq<Ack>)
      reads this
    {
      Valid() && buf == Deframed(all, json).1 && AcksOf(posted) == acks0 + Deframed(all, json).0
    }

    /** The next chunk of a stream. */
    method ReceiveNext(chunk: seq<Byte>, ghost all: seq<Byte>, ghost acks0: seq<Ack>)
      requires After(all, acks0)
      modifies this
      ensures After(all + chunk, acks0)
    {
      hide Deframed, AcksOf, Complete, Valid;
      Chunked(all, chunk, json);
      Receive(chunk);
    }

    /** A stream that arrives as these chunks, one after the other. */
    method ReceiveAll(chunks: seq<seq<Byte>>)
      requires Valid()
      modifies this
      ensures After(old(buf) + Joined(chunks), old(AcksOf(posted)))
    {
      CompleteIs(buf, json);
      assert chunks[..|chunks|] == chunks && chunks[..0] == [] && Joined([]) == [];
      ghost var before, all, acks0 := buf, buf + [], AcksOf(posted);
      assert acks0 + [] == acks0 && all == buf;
      assert After(all, acks0);
      hide *;
      var i := 0;
      while i < |chunks|
        invariant i <= |chunks| && all == before + Joined(chunks[..i]) && After(all, acks0)
      {
        JoinedMore(before, chunks, i);
        ReceiveNext(chunks[i], all, acks0);
        all := all + chunks[i];
        i := i + 1;
      }
    }
  }

  lemma CompleteIs(b: seq<Byte>, json: JsonSummary)
    ensures Complete(b) <==> |b| >= HEADER && HEADER <= TotalAt(b) <= |b|
    ensures !Complete(b) ==> Deframed(b, json) == ([], b)
    ensures Complete(b) ==> Deframed(b, json) == ([AckAt(b, json)] + Deframed(b[TotalAt(b)..], json).0, Deframed(b[TotalAt(b)..], json).1)
  {
    hide AckAt, TotalAt;
  }

  lemma NoSingles()
    ensures Singles([]) == []
  {
  }

  lemma SinglesMore(before: seq<Message>, out: seq<Ack>, ack: Ack)
    ensures before + Singles(out + [ack]) == (before + Singles(out)) + [Single(ack)]
  {
    assert Singles(out + [ack]) == Singles(out) + [Single(ack)];
  }

  /** Both ways of posting say the same acknowledgements. */
  lemma Posted(before: seq<Message>, acks: seq<Ack>)
    ensures AcksOf(before + Singles(acks)) == AcksOf(before) + acks
    ensures AcksOf(before + [Batch(acks)]) == AcksOf(before) + acks
    ensures AcksOf(before + []) == AcksOf(before) && AcksOf(before) + [] == AcksOf(before) && before + [] == before
  {
    SinglesPosted(before, acks);
    AcksSnoc(before, Batch(acks));
    assert before + [] == before;
  }

  lemma {:induction false} SinglesPosted(before: seq<Message>, acks: seq<Ack>)
    ensures AcksOf(before + Singles(acks)) == AcksOf(before) + acks
  {
    if acks == [] {
      NoSingles();
      assert before + [] == before;
    } else {
      var n := |acks| - 1;
      SinglesPosted(before, acks[..n]);
      assert acks == acks[..n] + [acks[n]];
      SinglesMore(before, acks[..n], acks[n]);
      AcksSnoc(before + Singles(acks[..n]), Single(acks[n]));
      hide AcksOf, Singles;
    }
  }

  /** These acknowledgements were taken from all the bytes, and the frames of buf are still to come. */
  ghost predicate Split(all: seq<Byte>, out: seq<Ack>, buf: seq<Byte>, json: JsonSummary) {
    Deframed(all, json) == (out + Deframed(buf, json).0, Deframed(buf, json).1)
  }

  lemma NoneTaken(all: seq<Byte>, json: JsonSummary)
    ensures Split(all, [], all, json)
  {
    assert [] + Deframed(all, json).0 == Deframed(all, json).0;
    hide Deframed;
  }

  lemma OneTaken(all: seq<Byte>, out: seq<Ack>, buf: seq<Byte>, json: JsonSummary)
    requires Split(all, out, buf, json) && Complete(buf)
    ensures TotalAt(buf) <= |buf| && Split(all, out + [AckAt(buf, json)], buf[TotalAt(buf)..], json)
  {
    CompleteIs(buf, json);
    hide Deframed, AckAt, TotalAt;
    assert out + ([AckAt(buf, json)] + Deframed(buf[TotalAt(buf)..], json).0) == (out + [AckAt(buf, json)]) + Deframed(buf[TotalAt(buf)..], json).0;
  }

  lemma AllTaken(all: seq<Byte>, out: seq<Ack>, buf: seq<Byte>, json: JsonSummary)
    requires Split(all, out, buf, json) && !Complete(buf)
    ensures Deframed(all, json) == (out, buf)
  {
    CompleteIs(buf, json);
    assert out + [] == out;
    hide Deframed;
  }

  lemma JoinedMore(before: seq<Byte>, chunks: seq<seq<Byte>>, i: nat)
    requires i < |chunks|
    ensures before + Joined(chunks[..i + 1]) == (before + Joined(chunks[..i])) + chunks[i]
  {
    assert chunks[..i + 1][..i] == chunks[..i];
  }

  lemma AcksSnoc(messages: seq<Message>, m: Message)
    ensures AcksOf(messages + [m]) == AcksOf(messages) + (match m case Batch(acks) => acks case Single(ack) => [ack])
  {
    assert (messages + [m])[..|messages|] == messages;
  }

  /** The bytes of a list of chunks. */
  function Joined(chunks: seq<seq<Byte>>): seq<Byte> {
    if chunks == [] then [] else Joined(chunks[..|chunks| - 1]) + chunks[|chunks| - 1]
  }

  // ----- what an acknowledgement says -----

  /** The first byte goes into the low byte of the size, the last one into the byte above it. */
  lemma ChecksumBytes(size: nat, first: nat, last: nat)
    requires size < TWO32 && first < 0x100 && last < 0x100
    ensures var c := Checksum(size, first, last);
            && c % 0x100 == XorNat(size % 0x100, first) && c / 0x100 % 0x100 == XorNat(size / 0x100 % 0x100, last)
            && c / 0x1_0000 == size / 0x1_0000
  {
    hide *;
    var a := XorNat(size, first);
    ChecksumIs(size, first, last);
    EightBits();
    XorSplit(size, first, 8);
    XorSplit(a, last * 0x100, 8);
    XorSplit(size / 0x100, 0, 8);
    XorSplit(size / 0x100, last, 8);
    Small(first);
    Small(last);
    NoXor(size / 0x100);
    NoXor(size / 0x100 / 0x100);
    NoXor(XorNat(size % 0x100, first));
    Quarters(size);
    Quarters(XorNat(a, last * 0x100));
  }

  lemma ChecksumIs(size: nat, first: nat, last: nat)
    requires size < TWO32 && first < 0x100 && last < 0x100
    ensures Checksum(size, first, last) == XorNat(XorNat(size, first), last * 0x100)
  {
    EightBits();
    XorUnsigned(size, first);
    XorUnsigned(Xor(size, first), Shl(last, 8));
    assert Shl(last, 8) == last * 0x100;
    hide Xor, XorNat, Shl;
  }

  lemma EightBits()
    ensures Pow2(8) == 0x100 && forall a: nat :: LowPart(a, 8) == a % 0x100 && HighPart(a, 8) == a / 0x100
  {
  }

  lemma Small(n: nat)
    requires n < 0x100
    ensures n % 0x100 == n && n / 0x100 == 0 && n * 0x100 % 0x100 == 0 && n * 0x100 / 0x100 == n
  {
  }

  lemma NoXor(n: nat)
    ensures XorNat(n, 0) == n
  {
  }

  lemma Quarters(n: nat)
    ensures n / 0x100 / 0x100 == n / 0x1_0000
  {
  }

  /** A binary payload: its length, and a checksum of length, first and last byte; both are 0 if it is empty. */
  lemma BinaryAck(id: nat, payload: seq<Byte>, json: JsonSummary)
    requires |payload| < TWO32
    ensures var a, n := Expected(Job(id, payload, Binary), json), |payload|;
            && a.id == id % TWO32 && a.size == n && (n == 0 ==> a.checksum == 0)
            && (n > 0 ==>
                  && a.checksum % 0x100 == XorNat(n % 0x100, payload[0])
                  && a.checksum / 0x100 % 0x100 == XorNat(n / 0x100 % 0x100, payload[n - 1])
                  && a.checksum / 0x1_0000 == n / 0x1_0000)
  {
    if payload != [] {
      ChecksumBytes(|payload|, payload[0], payload[|payload| - 1]);
    }
    hide Checksum, XorNat;
  }

  /** A text: the length of its UTF-8, and a checksum of that with the low bytes of the first and the last unit. */
  lemma TextAck(id: nat, payload: seq<Byte>, json: JsonSummary)
    ensures var a, text := Expected(Job(id, payload, Text), json), TextDecode(payload);
            var n, units := |Encode(text)|, ToUnits(text);
            && a.id == id % TWO32
            && (payload == [] ==> a.size == a.checksum == 0)
            && (n < TWO32 ==> a.size == n)
            && (payload != [] && n < TWO32 ==>
                  && a.checksum % 0x100 == XorNat(n % 0x100, if units == [] then 0 else units[0] % 0x100)
                  && a.checksum / 0x100 % 0x100 == XorNat(n / 0x100 % 0x100, if units == [] then 0 else units[|units| - 1] % 0x100)
                  && a.checksum / 0x1_0000 == n / 0x1_0000)
  {
    hide *;
    var text := TextDecode(payload);
    var n, units := |Encode(text)|, ToUnits(text);
    TextSummary(id, payload, json);
    UnitAtIs(units);
    if n < TWO32 {
      ChecksumBytes(n, UnitAt(units, 0), UnitAt(units, |units| - 1));
    }
  }

  lemma UnitAtIs(u: seq<Unit>)
    ensures UnitAt(u, 0) == (if u == [] then 0 else u[0] % 0x100) && 0 <= UnitAt(u, 0) < 0x100
    ensures UnitAt(u, |u| - 1) == (if u == [] then 0 else u[|u| - 1] % 0x100) && 0 <= UnitAt(u, |u| - 1) < 0x100
  {
  }

  lemma TextSummary(id: nat, payload: seq<Byte>, json: JsonSummary)
    ensures var a, text := Expected(Job(id, payload, Text), json), TextDecode(payload);
            var n, units := |Encode(text)|, ToUnits(text);
            && a.id == id % TWO32 && (n < TWO32 ==> ToUint32(n) == n)
            && (payload == [] ==> a.size == a.checksum == 0 && n == 0)
            && (payload != [] ==> a.size == ToUint32(n) && a.checksum == Checksum(n, UnitAt(units, 0), UnitAt(units, |units| - 1)))
  {
    BackAndThere(TextDecode(payload));
    NothingEncoded();
    assert payload[..|payload|] == payload;
    hide Checksum, TextDecode, Encode, ToUnits, Lossy, UnitAt;
  }

  lemma NothingEncoded()
    ensures Encode(TextDecode([])) == []
  {
  }

  /** What a JSON payload says is the parameter's word. */
  lemma JsonAck(id: nat, payload: seq<Byte>, json: JsonSummary)
    ensures var a := Expected(Job(id, payload, Json), json);
            a == if payload == [] then Ack(id % TWO32, 0, 0) else Ack(id % TWO32, json(payload).0, json(payload).1)
  {
    assert payload[..|payload|] == payload;
  }

  /** A frame byte by byte. */
  lemma FrameBytes(id: nat, payload: seq<Byte>, mode: Mode)
    ensures var n := |payload|;
            Frame(id, payload, mode) ==
            [id % 0x100, id / 0x100 % 0x100, id / 0x1_0000 % 0x100, id / 0x100_0000 % 0x100, 1, 0, 0, 0,
             n % 0x100, n / 0x100 % 0x100, n / 0x1_0000 % 0x100, n / 0x100_0000 % 0x100,
             match mode case Binary => 0 case Json => 1 case Text => 2, 0, 0, 0] + payload
  {
  }

  /** Any bytes: the first frame has `count` units, is complete if all of them are here and no length wraps, and goes first. */
  lemma FirstFrame(b: seq<Byte>, json: JsonSummary)
    requires |b| >= 16
    ensures var id, count, unit := FromBytes(b[0], b[1], b[2], b[3]), FromBytes(b[4], b[5], b[6], b[7]), FromBytes(b[8], b[9], b[10], b[11]);
            var total := 16 + ToUint32(count * unit);
            if total < TWO32 && total <= |b| then
              var s := Summary(b[12], unit, b[16..total], json);
              var rest := Deframed(b[total..], json);
              Deframed(b, json) == ([Ack(id, s.0, s.1)] + rest.0, rest.1)
            else Deframed(b, json) == ([], b)
  {
    hide *;
    NoWrap(ToUint32(ReadU32(b, 4) * ReadU32(b, 8)));
    HeaderRead(b);
    CompleteIs(b, json);
    if Complete(b) {
      AckParts(b, json);
    }
  }

  lemma AckParts(b: seq<Byte>, json: JsonSummary)
    requires Complete(b)
    ensures 16 <= TotalAt(b) <= |b|
    ensures var s := Summary(b[12], ReadU32(b, 8), b[16..TotalAt(b)], json); AckAt(b, json) == Ack(ReadU32(b, 0), s.0, s.1)
  {
    hide Summary, ReadU32, TotalAt;
  }

  /** The number with these bytes, the lowest one first. */
  function FromBytes(a: Byte, b: Byte, c: Byte, d: Byte): nat {
    (a as int) + 0x100 * (b as int) + 0x1_0000 * (c as int) + 0x100_0000 * (d as int)
  }

  lemma HeaderRead(b: seq<Byte>)
    requires |b| >= 16
    ensures ReadU32(b, 0) == FromBytes(b[0], b[1], b[2], b[3]) && ReadU32(b, 4) == FromBytes(b[4], b[5], b[6], b[7])
    ensures ReadU32(b, 8) == FromBytes(b[8], b[9], b[10], b[11])
    ensures TotalAt(b) == (16 + ToUint32(ReadU32(b, 4) * ReadU32(b, 8))) % TWO32 && HEADER == 16
  {
  }

  lemma NoWrap(n: nat)
    requires n < TWO32
    ensures 16 <= (16 + n) % TWO32 <==> 16 + n < TWO32
    ensures 16 + n < TWO32 ==> (16 + n) % TWO32 == 16 + n
  {
  }

  /** The unit's own bytes and no others are summed up, also when a frame has several units. */
  lemma UnitSummary(unit: nat, payload: seq<Byte>, json: JsonSummary)
    requires 0 < unit < TWO32
    ensures var (size, c) := Summary(0, unit, payload, json);
            && size == unit && c / 0x1_0000 == unit / 0x1_0000
            && c % 0x100 == XorNat(unit % 0x100, if payload == [] then 0 else payload[0])
            && c / 0x100 % 0x100 == XorNat(unit / 0x100 % 0x100, if unit <= |payload| then payload[unit - 1] else 0)
  {
    ChecksumBytes(unit, ByteAt(payload, 0), ByteAt(payload, unit - 1));
    hide Checksum, XorNat;
  }

  // ----- cutting does not matter -----

  /** What is complete stays complete, with the same length and acknowledgement. */
  lemma CompleteStays(a: seq<Byte>, b: seq<Byte>, json: JsonSummary)
    requires Complete(a)
    ensures Complete(a + b) && TotalAt(a + b) == TotalAt(a) && AckAt(a + b, json) == AckAt(a, json)
    ensures (a + b)[TotalAt(a)..] == a[TotalAt(a)..] + b
  {
    SameHeader(a, b);
    assert (a + b)[HEADER..TotalAt(a)] == a[HEADER..TotalAt(a)];
  }

  lemma SameHeader(a: seq<Byte>, b: seq<Byte>)
    requires |a| >= HEADER
    ensures ReadU32(a + b, 0) == ReadU32(a, 0) && ReadU32(a + b, 4) == ReadU32(a, 4) && ReadU32(a + b, 8) == ReadU32(a, 8)
    ensures TotalAt(a + b) == TotalAt(a) && (a + b)[12] == a[12]
  {
  }

  /** On any bytes: taking the frames of a first and then those of what is left with b gives the frames of a + b. */
  lemma {:induction false} Chunked(a: seq<Byte>, b: seq<Byte>, json: JsonSummary)
    ensures var r := Deframed(a, json); var s := Deframed(r.1 + b, json);
            Deframed(a + b, json) == (r.0 + s.0, s.1)
    decreases |a|
  {
    hide *;
    CompleteIs(a, json);
    if Complete(a) {
      CompleteStays(a, b, json);
      CompleteIs(a + b, json);
      Chunked(a[TotalAt(a)..], b, json);
      var r := Deframed(a[TotalAt(a)..], json);
      assert ([AckAt(a, json)] + r.0) + Deframed(r.1 + b, json).0 == [AckAt(a, json)] + (r.0 + Deframed(r.1 + b, json).0);
    } else {
      assert [] + Deframed(a + b, json).0 == Deframed(a + b, json).0;
    }
  }

  // ----- written frames are found again -----

  lemma LittleBack(n: nat)
    ensures ReadU32(Little(n), 0) == n % TWO32
  {
    var a, b, c := n / 0x100, n / 0x1_0000, n / 0x100_0000;
    FourBytes(n, a, b, c);
    var l := Little(n);
    assert l[0] == n % 0x100 && l[1] == a % 0x100 && l[2] == b % 0x100 && l[3] == c % 0x100;
  }

  lemma FourBytes(n: nat, a: nat, b: nat, c: nat)
    requires a == n / 0x100 && b == n / 0x1_0000 && c == n / 0x100_0000
    ensures n % TWO32 == n % 0x100 + (a % 0x100) * 0x100 + (b % 0x100) * 0x1_0000 + (c % 0x100) * 0x100_0000
  {
    assert n == a * 0x100 + n % 0x100;
    assert b == a / 0x100 && a == b * 0x100 + a % 0x100;
    assert c == b / 0x100 && b == c * 0x100 + b % 0x100;
    assert n == c / 0x100 * TWO32 + (c % 0x100) * 0x100_0000 + (b % 0x100) * 0x1_0000 + (a % 0x100) * 0x100 + n % 0x100;
  }

  /** The header of a written frame, read. */
  lemma FrameHeader(id: nat, payload: seq<Byte>, mode: Mode, more: seq<Byte>)
    ensures var b := Frame(id, payload, mode) + more;
      && |b| == HEADER + |payload| + |more| && ReadU32(b, 0) == id % TWO32 && ReadU32(b, 4) == 1 && ReadU32(b, 8) == |payload| % TWO32
      && b[12] == ModeByte(mode) && TotalAt(b) == (HEADER + |payload| % TWO32) % TWO32
      && b[HEADER..HEADER + |payload|] == payload && b[HEADER + |payload|..] == more
  {
    hide *;
    var b := Frame(id, payload, mode) + more;
    FrameFields(id, payload, mode, more);
    LittleBack(id);
    LittleBack(|payload|);
    ReadPart(b, 0);
    ReadPart(b, 4);
    ReadPart(b, 8);
    HeaderRead(b);
    OneUnit(|payload|);
  }

  lemma FrameFields(id: nat, payload: seq<Byte>, mode: Mode, more: seq<Byte>)
    ensures var b := Frame(id, payload, mode) + more;
      && |b| == HEADER + |payload| + |more| && HEADER == 16 && b[0..4] == Little(id) && b[4..8] == [1, 0, 0, 0] && b[8..12] == Little(|payload|)
      && b[12] == ModeByte(mode) && b[HEADER..HEADER + |payload|] == payload && b[HEADER + |payload|..] == more
  {
    hide Little;
  }

  lemma ReadPart(b: seq<Byte>, off: nat)
    requires off + 4 <= |b|
    ensures ReadU32(b, off) == ReadU32(b[off..off + 4], 0)
  {
  }

  lemma OneUnit(n: nat)
    ensures ReadU32([1, 0, 0, 0], 0) == 1 && ToUint32(1 * (n % TWO32)) == n % TWO32
  {
  }

  /** The acknowledgement a frame should get. */
  function Expected(j: Job, json: JsonSummary): Ack {
    var s := Summary(ModeByte(j.mode), |j.payload|, j.payload, json);
    Ack(j.id % TWO32, s.0, s.1)
  }

  function AllExpected(jobs: seq<Job>, json: JsonSummary): seq<Ack> {
    if jobs == [] then [] else [Expected(jobs[0], json)] + AllExpected(jobs[1..], json)
  }

  /** The length field and its sum with the header fit 32 bits. */
  predicate Fits(j: Job) {
    |j.payload| < TWO32 - HEADER
  }

  /** Written frames are all found, one acknowledgement each, in order, and nothing is left. */
  lemma {:induction false} FramesFound(jobs: seq<Job>, json: JsonSummary)
    requires forall j :: j in jobs ==> Fits(j)
    ensures Deframed(Frames(jobs), json) == (AllExpected(jobs, json), [])
  {
    if jobs != [] {
      assert Frames(jobs) == Frame(jobs[0].id, jobs[0].payload, jobs[0].mode) + Frames(jobs[1..]);
      assert AllExpected(jobs, json) == [Expected(jobs[0], json)] + AllExpected(jobs[1..], json);
      hide *;
      FirstFound(jobs[0], Frames(jobs[1..]), json);
      FramesFound(jobs[1..], json);
    } else {
      CompleteIs([], json);
    }
  }

  lemma FirstFound(j: Job, more: seq<Byte>, json: JsonSummary)
    requires Fits(j)
    ensures Deframed(Frame(j.id, j.payload, j.mode) + more, json) == ([Expected(j, json)] + Deframed(more, json).0, Deframed(more, json).1)
  {
    var b := Frame(j.id, j.payload, j.mode) + more;
    FrameHeader(j.id, j.payload, j.mode, more);
    hide Frame, Summary, Deframed, TotalAt, ReadU32, Complete;
    assert TotalAt(b) == HEADER + |j.payload|;
    CompleteIs(b, json);
    assert b[HEADER..TotalAt(b)] == j.payload && AckAt(b, json) == Expected(j, json);
  }

  /** A frame that does not fit stops the stream: nothing after it is ever acknowledged, whatever arrives. */
  lemma TooLongStops(j: Job, more: seq<Byte>, json: JsonSummary)
    requires TWO32 - HEADER <= |j.payload| < TWO32
    ensures Deframed(Frame(j.id, j.payload, j.mode) + more, json) == ([], Frame(j.id, j.payload, j.mode) + more)
  {
    hide *;
    TooLongTotal(j.id, j.payload, j.mode, more);
    CompleteIs(Frame(j.id, j.payload, j.mode) + more, json);
  }

  /** One frame is read back exactly when it fits. */
  lemma FrameFoundExactly(j: Job, json: JsonSummary)
    ensures Deframed(Frame(j.id, j.payload, j.mode), json) == ([Expected(j, json)], []) <==> Fits(j)
  {
    hide *;
    var b := Frame(j.id, j.payload, j.mode);
    FrameLength(j);
    assert b + [] == b;
    CompleteIs(b, json);
    CompleteIs([], json);
    FitsIs(j);
    if Fits(j) {
      FirstFound(j, [], json);
      SameCons(Expected(j, json), [], []);
    } else if Complete(b) {
      TotalBound(b);
      LeftOver(b[TotalAt(b)..], json);
    }
  }

  lemma FrameLength(j: Job)
    ensures |Frame(j.id, j.payload, j.mode)| == HEADER + |j.payload| && HEADER == 16 && TWO32 == 0x1_0000_0000
  {
  }

  lemma FitsIs(j: Job)
    ensures Fits(j) <==> |j.payload| < TWO32 - HEADER
  {
  }

  lemma TotalBound(b: seq<Byte>)
    requires |b| >= HEADER
    ensures TotalAt(b) < TWO32
  {
  }

  /** Bytes are either acknowledged or left. */
  lemma LeftOver(b: seq<Byte>, json: JsonSummary)
    ensures b != [] ==> Deframed(b, json).0 != [] || Deframed(b, json).1 != []
  {
  }

  /** A list of frames with payloads below 4 GiB is read back exactly when all fit. */
  lemma {:induction false} FramesFoundExactly(jobs: seq<Job>, json: JsonSummary)
    requires forall j :: j in jobs ==> |j.payload| < TWO32
    ensures Deframed(Frames(jobs), json) == (AllExpected(jobs, json), []) <==> AllFit(jobs)
  {
    if jobs == [] {
      NoFrames(json);
      return;
    }
    hide *;
    var j, rest := jobs[0], jobs[1..];
    assert forall k :: k in rest ==> k in jobs;
    FramesFoundExactly(rest, json);
    FramesSplit(jobs, json);
    AllFitIs(jobs);
    FrameLength(j);
    FitsIs(j);
    assert jobs[0] in jobs;
    if Fits(j) {
      FirstFound(j, Frames(rest), json);
      SameCons(Expected(j, json), Deframed(Frames(rest), json).0, AllExpected(rest, json));
    } else {
      TooLongStops(j, Frames(rest), json);
    }
  }

  predicate AllFit(jobs: seq<Job>) {
    forall j :: j in jobs ==> Fits(j)
  }

  lemma AllFitIs(jobs: seq<Job>)
    requires jobs != []
    ensures AllFit(jobs) <==> Fits(jobs[0]) && AllFit(jobs[1..])
  {
    assert jobs == [jobs[0]] + jobs[1..];
  }

  lemma SameCons(e: Ack, a: seq<Ack>, b: seq<Ack>)
    ensures [e] + a == [e] + b <==> a == b
    ensures [e] + [] == [e]
  {
    assert ([e] + a)[1..] == a && ([e] + b)[1..] == b;
  }

  lemma NoFrames(json: JsonSummary)
    ensures Deframed(Frames([]), json) == (AllExpected([], json), []) && AllFit([])
  {
  }

  lemma FramesSplit(jobs: seq<Job>, json: JsonSummary)
    requires jobs != []
    ensures Frames(jobs) == Frame(jobs[0].id, jobs[0].payload, jobs[0].mode) + Frames(jobs[1..])
    ensures AllExpected(jobs, json) == [Expected(jobs[0], json)] + AllExpected(jobs[1..], json)
  {
  }

  lemma TooLongTotal(id: nat, payload: seq<Byte>, mode: Mode, more: seq<Byte>)
    requires TWO32 - HEADER <= |payload| < TWO32
    ensures |Frame(id, payload, mode) + more| >= HEADER && TotalAt(Frame(id, payload, mode) + more) < HEADER
  {
    WrapsSmall(|payload|);
    hide *;
    FrameHeader(id, payload, mode, more);
  }

  lemma WrapsSmall(n: nat)
    requires TWO32 - HEADER <= n < TWO32
    ensures (HEADER + n % TWO32) % TWO32 < HEADER
  {
  }

  /** However the written frames are cut: one acknowledgement each, in order, and an empty buffer. */
  method DeframeChunks(jobs: seq<Job>, chunks: seq<seq<Byte>>, batchedAck: bool, json: JsonSummary) returns (acks: seq<Ack>, left: seq<Byte>)
    requires Joined(chunks) == Frames(jobs) && forall j :: j in jobs ==> Fits(j)
    ensures acks == AllExpected(jobs, json) && left == []
  {
    var w := new Worker(batchedAck, json);
    hide Deframed, Complete;
    CompleteIs([], json);
    assert [] + Joined(chunks) == Joined(chunks);
    w.ReceiveAll(chunks);
    FramesFound(jobs, json);
    assert AcksOf([]) == [];
    acks, left := AcksOf(w.posted), w.buf;
  }

  // ----- the writer -----

  function TotalLength(frames: seq<seq<Byte>>): nat {
    if frames == [] then 0 else TotalLength(frames[..|frames| - 1]) + |frames[|frames| - 1]|
  }

  lemma {:induction false} JoinedLength(frames: seq<seq<Byte>>)
    ensures |Joined(frames)| == TotalLength(frames)
  {
    if frames != [] {
      JoinedLength(frames[..|frames| - 1]);
    }
  }

  lemma {:induction false} TotalPrefix(frames: seq<seq<Byte>>, n: nat)
    requires n <= |frames|
    ensures TotalLength(frames[..n]) <= TotalLength(frames)
  {
    if n < |frames| {
      TotalPrefix(frames[..|frames| - 1], n);
      assert frames[..|frames| - 1][..n] == frames[..n];
    } else {
      assert frames[..n] == frames;
    }
  }

  /** The frames of one worker, merged into one buffer at a moving offset. */
  method MergeFrames(frames: seq<seq<Byte>>) returns (merged: seq<Byte>)
    ensures merged == Joined(frames)
  {
    var out := new Byte[TotalLength(frames)](_ => 0);
    var off, i := 0, 0;
    JoinedLength(frames[..0]);
    while i < |frames|
      invariant i <= |frames| && off == TotalLength(frames[..i]) <= out.Length && out[..off] == Joined(frames[..i])
    {
      assert frames[..i + 1][..i] == frames[..i];
      TotalPrefix(frames, i + 1);
      Put(out, frames[i], off);
      off := off + |frames[i]|;
      i := i + 1;
    }
    assert frames[..i] == frames;
    merged := out[..];
  }
}
