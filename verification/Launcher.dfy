/**
  The windowed launcher: up to a fixed number of messages are in flight, each
  acknowledgement launches the next, and the acknowledgements are folded into a checksum.
  Events come in any order, with unknown and repeated ids among them.
*/
module Launchers {
  import opened Wrappers
  import opened JsInt

  datatype Ack = Ack(size: nat, checksum: nat)

  datatype Event = Acked(id: nat, ack: Ack) | TimedOut

  /** `Math.imul` */
  function Imul(a: int, b: int): int {
    ToInt32(ToInt32(a) * ToInt32(b))
  }

  const FOLD_START := 0x811c9dc5

  /** One folding step with a 32-bit value. */
  function Fold(acc: nat, v: nat): nat {
    ToUint32(Imul(Xor(acc, v), 16777619))
  }

  function ValueOf(ack: Ack): nat {
    ToUint32(Xor(ack.checksum, ack.size))
  }

  /** The fold of a list of acknowledgements. */
  function FoldAcks(acks: seq<Ack>): nat {
    if acks == [] then FOLD_START else Fold(FoldAcks(acks[..|acks| - 1]), ValueOf(acks[|acks| - 1]))
  }

  // ----- what the fold tells apart -----

  /** The multiplier is odd, so it has an inverse modulo 2^32. */
  lemma MultiplierInverse()
    ensures (16777619 * 899433627) % TWO32 == 1
  {
  }

  lemma {:induction false} TimesMultiplier(a: nat, b: nat)
    requires a < TWO32 && b < TWO32 && (a * 16777619) % TWO32 == (b * 16777619) % TWO32
    ensures a == b
  {
    MultiplierInverse();
    Undone(a);
    Undone(b);
  }

  lemma Undone(a: nat)
    requires a < TWO32
    ensures ((a * 16777619) % TWO32 * 899433627) % TWO32 == a
  {
    var q, r := a * 16777619 / TWO32, (a * 16777619) % TWO32;
    assert r == a * 16777619 - q * TWO32;
    DivModUnique(r * 899433627, TWO32, a * 3513497 - q * 899433627, a);
  }

  lemma FoldIs(acc: nat, v: nat)
    requires acc < TWO32 && v < TWO32
    ensures Fold(acc, v) == (XorNat(acc, v) * 16777619) % TWO32 < TWO32
    ensures XorNat(acc, v) < TWO32
  {
    XorUnsigned(acc, v);
    SignedProduct(Xor(acc, v));
    hide Xor, XorNat;
  }

  lemma SignedProduct(x: int)
    ensures ToUint32(Imul(x, 16777619)) == (ToUint32(x) * 16777619) % TWO32
  {
    var s, u := ToInt32(x), ToUint32(x);
    UnsignedBack(ToInt32(s) * ToInt32(16777619));
    SignAside(x);
    SameRest(u * 16777619, (s - u) / TWO32 * 16777619);
    hide ToUint32, ToInt32;
  }

  lemma SignAside(x: int)
    ensures ToInt32(x) == ToUint32(x) + (ToInt32(x) - ToUint32(x)) / TWO32 * TWO32
    ensures forall z :: ToUint32(z) == z % TWO32
  {
  }

  lemma SameRest(x: int, k: int)
    ensures (x + k * TWO32) % TWO32 == x % TWO32
  {
    DivModUnique(x + k * TWO32, TWO32, x / TWO32 + k, x % TWO32);
  }

  /** A step of the fold is one-to-one in the sum so far and in the new value. */
  lemma FoldOneToOne(acc: nat, acc': nat, v: nat, v': nat)
    requires acc < TWO32 && acc' < TWO32 && v < TWO32 && v' < TWO32 && Fold(acc, v) == Fold(acc', v')
    ensures acc == acc' <==> v == v'
  {
    FoldIs(acc, v);
    FoldIs(acc', v');
    TimesMultiplier(XorNat(acc, v), XorNat(acc', v'));
    XorNatTwice(acc, v);
    XorNatTwice(acc', v');
    XorNatComm(acc, v);
    XorNatComm(acc', v');
    XorNatTwice(v, acc);
    XorNatTwice(v', acc');
    hide Fold, XorNat;
  }

  /** A value tells size and checksum apart, if the other one is the same. */
  lemma ValueOneToOne(a: Ack, b: Ack)
    requires a.size < TWO32 && a.checksum < TWO32 && b.size < TWO32 && b.checksum < TWO32
    ensures ValueOf(a) == XorNat(a.checksum, a.size) < TWO32
    ensures ValueOf(a) == ValueOf(b) ==> (a.size == b.size <==> a.checksum == b.checksum)
  {
    XorUnsigned(a.checksum, a.size);
    XorUnsigned(b.checksum, b.size);
    XorNatTwice(a.checksum, a.size);
    XorNatTwice(b.checksum, b.size);
    XorNatComm(a.checksum, a.size);
    XorNatComm(b.checksum, b.size);
    XorNatTwice(a.size, a.checksum);
    XorNatTwice(b.size, b.checksum);
    hide Xor, XorNat;
  }

  lemma {:induction false} FoldBounded(acks: seq<Ack>)
    ensures FoldAcks(acks) < TWO32 && FoldAcks([]) == 0x811C9DC5
  {
  }

  predicate Proper(a: Ack) {
    a.size < TWO32 && a.checksum < TWO32
  }

  /** Lists that differ in the value of one acknowledgement fold to different numbers. */
  lemma {:induction false} FoldTellsApart(acks: seq<Ack>, i: nat, b: Ack)
    requires i < |acks| && ValueOf(acks[i]) != ValueOf(b)
    ensures FoldAcks(acks[i := b]) != FoldAcks(acks)
    decreases |acks|
  {
    hide *;
    var n, other := |acks| - 1, acks[i := b];
    FoldLast(acks);
    FoldLast(other);
    var before, before' := FoldAcks(acks[..n]), FoldAcks(other[..n]);
    var v, v' := ValueOf(acks[n]), ValueOf(other[n]);
    FoldBounded(acks[..n]);
    FoldBounded(other[..n]);
    if i < n {
      assert other[..n] == acks[..n][i := b];
      FoldTellsApart(acks[..n], i, b);
    } else {
      assert other[..n] == acks[..n];
    }
    ValueBounded(acks[n]);
    ValueBounded(other[n]);
    if Fold(before, v) == Fold(before', v') {
      FoldOneToOne(before, before', v, v');
    }
  }

  lemma FoldLast(acks: seq<Ack>)
    requires acks != []
    ensures FoldAcks(acks) == Fold(FoldAcks(acks[..|acks| - 1]), ValueOf(acks[|acks| - 1]))
  {
  }

  lemma ValueBounded(a: Ack)
    ensures ValueOf(a) < TWO32
  {
  }

  /** In particular those that differ in the size or the checksum of one of them. */
  lemma FoldTellsFields(acks: seq<Ack>, i: nat, b: Ack)
    requires i < |acks| && Proper(acks[i]) && Proper(b) && (acks[i].size == b.size) != (acks[i].checksum == b.checksum)
    ensures FoldAcks(acks[i := b]) != FoldAcks(acks)
  {
    ValueOneToOne(acks[i], b);
    hide ValueOf, FoldAcks;
    FoldTellsApart(acks, i, b);
  }

  /** What is expected for a number of equal acknowledgements. */
  method ExpectedFoldForCount(expectedAck: nat, payloadBytes: nat, count: nat) returns (acc: nat)
    ensures acc == FoldAcks(Repeat(Ack(payloadBytes, expectedAck), count))
  {
    var v := ToUint32(Xor(expectedAck, payloadBytes));
    acc := FOLD_START;
    var i := 0;
    hide ToUint32, Xor, Imul;
    while i < count
      invariant i <= count && acc == FoldAcks(Repeat(Ack(payloadBytes, expectedAck), i))
    {
      assert Repeat(Ack(payloadBytes, expectedAck), i + 1)[..i] == Repeat(Ack(payloadBytes, expectedAck), i);
      acc := ToUint32(Imul(Xor(acc, v), 16777619));
      i := i + 1;
    }
  }

  function Repeat(ack: Ack, n: nat): (r: seq<Ack>)
    ensures |r| == n && forall i :: 0 <= i < n ==> r[i] == ack
  {
    seq(n, _ => ack)
  }

  lemma AllEqual(acks: seq<Ack>, ack: Ack)
    requires forall a :: a in acks ==> a == ack
    ensures acks == Repeat(ack, |acks|)
  {
    forall i | 0 <= i < |acks| ensures acks[i] == ack {
      assert acks[i] in acks;
    }
  }

  /** How many messages are launched when so many are acknowledged. */
  function Issued(messages: nat, window: int, done: nat): nat {
    if window <= 0 then 0 else if done + window < messages then done + window else messages
  }

  class Launcher {
    const messages: nat
    const window: int
    const sendFails: nat -> bool      // whether posting message number n throws
    var nextId: nat
    var next: nat
    var inFlight: int
    var done: nat
    var acc: nat
    var failed: bool
    var messageIds: set<nat>
    var pending: set<nat>
    var resolved: seq<nat>            // the values the promise was resolved with
    var rejections: nat
    ghost var acks: seq<Ack>          // the acknowledgements taken, in order
    ghost const firstId: nat

    /** While no send has failed: what is in flight, what is outstanding and what is waited for are the same. */
    ghost predicate Running()
      reads this
    {
      && inFlight == |messageIds| == next - done && (next > 0 ==> inFlight <= window)
      && done <= next <= messages && pending <= messageIds
      && (resolved == [] ==> done < messages || messages == 0)
      && (resolved != [] ==> done == messages && messages > 0 && resolved == [FoldAcks(acks)])
    }

    ghost predicate Valid()
      reads this
    {
      && (!failed ==> Running() && rejections == 0)
      && (failed ==> rejections == 1 && resolved == [])
      && |acks| == done && acc == FoldAcks(acks)
      && nextId == firstId + next && (forall id :: id in messageIds || id in pending ==> firstId <= id < nextId)
    }

    constructor (messages: nat, window: int, nextId: nat, sendFails: nat -> bool)
      ensures Valid() && this.messages == messages && this.window == window && this.sendFails == sendFails
      ensures next == done == 0 && !failed && resolved == [] && acks == [] && pending == messageIds == {} && firstId == nextId
    {
      this.messages := messages;
      this.window := window;
      this.sendFails := sendFails;
      this.nextId := nextId;
      next, inFlight, done, acc, failed := 0, 0, 0, FOLD_START, false;
      messageIds, pending, resolved, rejections, acks, firstId := {}, {}, [], 0, [], nextId;
    }

    /** Rejects the promise, once. */
    method Fail()
      modifies this
      ensures failed && rejections == if old(failed) then old(rejections) else old(rejections) + 1
      ensures nextId == old(nextId) && next == old(next) && inFlight == old(inFlight) && done == old(done) && acc == old(acc)
      ensures messageIds == old(messageIds) && pending == old(pending) && resolved == old(resolved)
      ensures acks == old(acks)
    {
      if failed {
        return;
      }
      failed := true;
      rejections := rejections + 1;
    }

    /** One message is posted, or its posting throws. */
    method Post()
      requires Valid() && !failed && resolved == [] && inFlight < window && next < messages
      modifies this
      ensures Valid() && done == old(done) && acks == old(acks) && resolved == []
      ensures next == old(next) + 1 && (failed <==> sendFails(old(next)))
      ensures !failed && old(pending) == old(messageIds) ==> pending == messageIds
      ensures nextId == old(nextId) + 1
      ensures failed ==> pending == old(pending) && messageIds == old(messageIds) && inFlight == old(inFlight)
      ensures !failed ==> pending == old(pending) + {old(nextId)} && messageIds == old(messageIds) + {old(nextId)} && inFlight == old(inFlight) + 1
    {
      hide FoldAcks;
      var idx := next;
      var id := Register();
      if sendFails(idx) {
        hide Running;
        pending := pending - {id};
        messageIds := messageIds - {id};
        inFlight := if inFlight - 1 > 0 then inFlight - 1 else 0;
        Fail();
      }
    }

    /** The bookkeeping before a message is posted. */
    method Register() returns (id: nat)
      requires Valid() && !failed && resolved == [] && inFlight < window && next < messages
      modifies this
      ensures Valid() && !failed && done == old(done) && acks == old(acks) && resolved == []
      ensures next == old(next) + 1 && id == old(nextId) && nextId == id + 1
      ensures messageIds == old(messageIds) + {id} && pending == old(pending) + {id}
    {
      hide FoldAcks;
      next := next + 1;
      id := nextId;
      nextId := nextId + 1;
      inFlight := inFlight + 1;
      messageIds := messageIds + {id};
      pending := pending + {id};
    }

    /** The window is full, or there is nothing left to launch. */
    ghost predicate Filled()
      reads this
    {
      next == messages || inFlight >= window
    }

    /** Until the promise is settled, some message is outstanding: the launcher cannot stall by itself. */
    lemma NeverIdle()
      requires Valid() && !failed && Filled() && resolved == [] && messages > 0 && window >= 1
      ensures messageIds != {} && next - done >= 1
    {
      hide FoldAcks;
    }

    /** Fills the window. */
    method Launch()
      requires Valid() && !failed && resolved == []
      modifies this
      ensures Valid() && done == old(done) && acks == old(acks) && resolved == []
      ensures !failed ==> Filled()
      ensures (forall n: nat :: n < messages ==> !sendFails(n)) ==> !failed
      ensures !failed && old(pending) == old(messageIds) ==> pending == messageIds
      ensures nextId >= old(nextId) && forall id :: id in pending ==> id in old(pending) || id >= old(nextId)
      ensures !failed ==> forall id :: id in pending <==> id in old(pending) || old(nextId) <= id < nextId
    {
      hide FoldAcks;
      while !failed && inFlight < window && next < messages
        invariant Valid() && resolved == [] && done == old(done) && acks == old(acks)
        invariant (forall n: nat :: n < messages ==> !sendFails(n)) ==> !failed
        invariant !failed && old(pending) == old(messageIds) ==> pending == messageIds
        invariant nextId >= old(nextId) && forall id :: id in pending ==> id in old(pending) || id >= old(nextId)
        invariant !failed ==> forall id :: id in pending <==> id in old(pending) || old(nextId) <= id < nextId
        decreases messages - next
      {
        Post();
      }
    }

    /**
      One acknowledgement.  An id that is not waited for changes nothing; one that is
      counts once, is folded, and either completes the batch or launches more.
    */
    method Receive(id: nat, ack: Ack)
      requires Valid()
      modifies this
      ensures Valid()
      ensures id !in old(pending) ==> acks == old(acks) && done == old(done) && resolved == old(resolved) && rejections == old(rejections)
      ensures id in old(pending) && !old(failed) ==> acks == old(acks) + [ack] && id !in pending
      ensures id in old(pending) && old(failed) ==> acks == old(acks)
      ensures (forall n: nat :: n < messages ==> !sendFails(n)) && !old(failed) ==> !failed
      ensures !failed && old(pending) == old(messageIds) ==> pending == messageIds
      ensures old(Filled()) && !failed ==> Filled()
      ensures resolved != old(resolved) ==> old(resolved) == [] && |resolved| == 1 && done == messages
      ensures messages > 0 && done >= messages && !failed ==> |resolved| == 1
      ensures nextId >= old(nextId) && id !in pending && (forall i :: i in pending ==> i in old(pending) || i >= old(nextId))
      ensures acks == (if id in old(pending) && !old(failed) then old(acks) + [ack] else old(acks))
      ensures id !in old(pending) ==> next == old(next) && pending == old(pending) && failed == old(failed)
      ensures id in old(pending) && !old(failed) && !failed ==>
                done == old(done) + 1 && forall i :: i in pending <==> (i in old(pending) && i != id) || old(nextId) <= i < nextId
    {
      Outstanding(id);
      if id !in pending {
        return;
      }
      Forget(id);
      if failed {
        return;
      }
      hide Running, Valid, FoldAcks;
      Accept(id, ack);
    }

    lemma Outstanding(id: nat)
      requires Valid()
      ensures id in pending && !failed ==> id in messageIds && resolved == [] && done < messages
      ensures !failed && messages > 0 && done >= messages ==> |resolved| == 1
    {
      if id in pending && !failed {
        assert id in messageIds;
        assert |messageIds| > 0;
      }
    }

    method Forget(id: nat)
      requires Valid()
      modifies this`pending
      ensures Valid() && pending == old(pending) - {id}
    {
      hide FoldAcks;
      pending := pending - {id};
    }

    /** What the entry of a pending message does when its acknowledgement comes. */
    method Accept(id: nat, ack: Ack)
      requires Valid() && !failed && id in messageIds && id !in pending && resolved == [] && done < messages
      modifies this
      ensures Valid() && acks == old(acks) + [ack] && id !in pending
      ensures (forall n: nat :: n < messages ==> !sendFails(n)) ==> !failed
      ensures !failed && old(pending) == old(messageIds) - {id} ==> pending == messageIds
      ensures !failed ==> Filled()
      ensures resolved != [] ==> |resolved| == 1 && done == messages
      ensures done >= messages && !failed ==> |resolved| == 1
      ensures nextId >= old(nextId) && forall i :: i in pending ==> i in old(pending) || i >= old(nextId)
      ensures !failed ==> done == old(done) + 1 && forall i :: i in pending <==> i in old(pending) || old(nextId) <= i < nextId
    {
      var all := Count(id, ack);
      assert all ==> Filled();
      hide Running, FoldAcks;
      if !all {
        Launch();
        assert id !in pending;
      }
    }

    /** The bookkeeping of an acknowledgement; the answer is whether it was the last one. */
    method Count(id: nat, ack: Ack) returns (all: bool)
      requires Running() && rejections == 0 && !failed && id in messageIds && id !in pending && resolved == []
      requires |acks| == done && acc == FoldAcks(acks)
      requires nextId == firstId + next && forall i :: i in messageIds || i in pending ==> firstId <= i < nextId
      modifies this
      ensures Valid() && !failed && acks == old(acks) + [ack] && all == (done >= messages)
      ensures pending == old(pending) && messageIds == old(messageIds) - {id} && nextId == old(nextId) && id < nextId && next == old(next) && done == old(done) + 1
      ensures resolved == if all then [FoldAcks(acks)] else []
    {
      FoldSnoc(acks, ack);
      hide FoldAcks;
      messageIds := messageIds - {id};
      inFlight := inFlight - 1;
      done := done + 1;
      acc := Fold(acc, ValueOf(ack));
      acks := acks + [ack];
      all := done >= messages;
      if all {
        resolved := resolved + [acc];
      }
    }

    /** What the promise has come to: at most one of a value and a rejection, and the value is the fold. */
    lemma SettledAtMostOnce()
      requires Valid()
      ensures |resolved| + rejections <= 1
      ensures resolved != [] ==> messages > 0 && |acks| == messages && resolved == [FoldAcks(acks)]
      ensures !failed ==> inFlight == |messageIds| == next - done && (next > 0 ==> inFlight <= window)
      ensures !failed && messages > 0 && done >= messages ==> |resolved| == 1
    {
      hide FoldAcks;
    }

    lemma IdsInRange()
      requires Valid()
      ensures firstId <= nextId && forall id :: id in pending ==> firstId <= id < nextId
    {
      hide FoldAcks;
    }

    lemma SettledIs()
      requires Valid()
      ensures rejections > 0 <==> failed
      ensures resolved == [] && !failed && messages > 0 ==> |acks| < messages
      ensures messages == 0 ==> resolved == []
    {
      hide FoldAcks;
    }

    /** As many messages are launched as the window allows. */
    lemma LaunchedSoFar()
      requires Valid() && !failed && Filled() && window >= 1
      ensures next == Issued(messages, window, done) && nextId == firstId + next && done == |acks|
    {
      hide FoldAcks;
    }

    /** Time is up: the outstanding ids are forgotten; late acknowledgements change nothing. */
    method TimeOut()
      requires Valid()
      modifies this`pending
      ensures Valid() && pending == old(pending) - messageIds && (forall id :: id in pending ==> id in old(pending))
    {
      hide FoldAcks;
      pending := pending - messageIds;
    }
  }

  lemma FoldSnoc(acks: seq<Ack>, ack: Ack)
    ensures FoldAcks(acks + [ack]) == Fold(FoldAcks(acks), ValueOf(ack))
  {
    assert (acks + [ack])[..|acks|] == acks;
  }

  /** The acknowledgements are those of these events, in order of arrival, with different ids from firstId on. */
  ghost predicate Taken(acks: seq<Ack>, at: seq<nat>, events: seq<Event>, firstId: nat) {
    && |at| == |acks|
    && (forall k :: 0 <= k < |at| ==> at[k] < |events| && events[at[k]].Acked? && events[at[k]].ack == acks[k] && events[at[k]].id >= firstId)
    && (forall j, k :: 0 <= j < k < |at| ==> at[j] < at[k] && events[at[j]].Acked? && events[at[k]].Acked? && events[at[j]].id != events[at[k]].id)
  }

  /** Those ids are not waited for any more, and will not be given out again. */
  ghost predicate Used(at: seq<nat>, events: seq<Event>, pending: set<nat>, nextId: nat) {
    forall k :: 0 <= k < |at| && at[k] < |events| && events[at[k]].Acked? ==> events[at[k]].id !in pending && events[at[k]].id < nextId
  }

  lemma TakenMore(acks: seq<Ack>, at: seq<nat>, events: seq<Event>, firstId: nat, n: nat)
    requires n < |events| && Taken(acks, at, events[..n], firstId)
    ensures Taken(acks, at, events[..n + 1], firstId)
  {
  }

  lemma OneTaken(acks: seq<Ack>, at: seq<nat>, events: seq<Event>, firstId: nat, n: nat, pending: set<nat>, nextId: nat)
    requires n < |events| && events[n].Acked? && Taken(acks, at, events[..n], firstId) && Used(at, events[..n], pending, nextId)
    requires events[n].id in pending && events[n].id >= firstId
    ensures Taken(acks + [events[n].ack], at + [n], events[..n + 1], firstId)
  {
    var more, now := at + [n], events[..n + 1];
    forall j, k | 0 <= j < k < |more|
      ensures more[j] < more[k] && now[more[j]].Acked? && now[more[k]].Acked? && now[more[j]].id != now[more[k]].id
    {
      assert j < |at| && now[at[j]] == events[..n][at[j]];
    }
  }

  lemma StillUsed(acks: seq<Ack>, at: seq<nat>, events: seq<Event>, firstId: nat, n: nat, pending: set<nat>, nextId: nat, now: set<nat>, later: nat)
    requires n < |events| && Taken(acks, at, events[..n], firstId) && Used(at, events[..n], pending, nextId) && nextId <= later
    requires forall i :: i in now ==> i in pending || i >= nextId
    ensures Used(at, events[..n + 1], now, later)
    ensures events[n].Acked? && events[n].id in pending && events[n].id < nextId && events[n].id !in now ==> Used(at + [n], events[..n + 1], now, later)
  {
    forall k | 0 <= k < |at| ensures events[..n + 1][at[k]].Acked? && events[..n + 1][at[k]].id !in now && events[..n + 1][at[k]].id < later {
      assert events[..n][at[k]] == events[..n + 1][at[k]];
    }
  }

  // ----- which acknowledgements are taken -----

  /** How many of these positions are before n. */
  function Before(at: seq<nat>, n: nat): nat {
    if at == [] then 0 else Before(at[..|at| - 1], n) + if at[|at| - 1] < n then 1 else 0
  }

  /** Event n acknowledges a message that was launched by then and not acknowledged before. */
  ghost predicate Due(events: seq<Event>, at: seq<nat>, n: nat, firstId: nat, messages: nat, window: int)
    requires n < |events|
  {
    && events[n].Acked? && firstId <= events[n].id < firstId + Issued(messages, window, Before(at, n))
    && forall k :: 0 <= k < |at| && at[k] < n && events[at[k]].Acked? ==> events[at[k]].id != events[n].id
  }

  /** Exactly the due acknowledgements are taken. */
  ghost predicate AllDueTaken(events: seq<Event>, at: seq<nat>, firstId: nat, messages: nat, window: int) {
    forall n :: 0 <= n < |events| ==> (n in at <==> Due(events, at, n, firstId, messages, window))
  }

  /** The launcher waits for exactly what is due next. */
  ghost predicate Level(l: Launcher, events: seq<Event>, at: seq<nat>)
    reads l
  {
    !l.failed && l.Filled() && l.window >= 1 && |at| == |l.acks| && WaitsFor(l.pending, l.firstId, l.nextId, events, at)
  }

  /** The ids waited for are those given out and not acknowledged yet. */
  ghost predicate WaitsFor(pending: set<nat>, firstId: nat, nextId: nat, events: seq<Event>, at: seq<nat>) {
    && (forall k :: 0 <= k < |at| ==> at[k] < |events| && events[at[k]].Acked? && events[at[k]].id < nextId)
    && forall id :: id in pending <==> firstId <= id < nextId && forall k :: 0 <= k < |at| ==> events[at[k]].id != id
  }

  lemma {:induction false} BeforeAll(at: seq<nat>, n: nat)
    ensures (forall k :: 0 <= k < |at| ==> at[k] < n) ==> Before(at, n) == |at|
  {
    if at != [] {
      BeforeAll(at[..|at| - 1], n);
    }
  }

  lemma BeforeMore(at: seq<nat>, m: nat, n: nat)
    requires n <= m
    ensures Before(at + [m], n) == Before(at, n)
  {
    assert (at + [m])[..|at|] == at;
  }

  /** An earlier event stays due or not due. */
  lemma DueStays(events: seq<Event>, at: seq<nat>, m: nat, at1: seq<nat>, n: nat, firstId: nat, messages: nat, window: int)
    requires m < n < |events| && (at1 == at || at1 == at + [n]) && forall k :: 0 <= k < |at| ==> at[k] < n
    ensures Due(events[..n + 1], at1, m, firstId, messages, window) <==> Due(events[..n], at, m, firstId, messages, window)
  {
    BeforeMore(at, n, m);
    assert events[..n + 1][m] == events[..n][m];
    assert forall k :: 0 <= k < |at| ==> events[..n + 1][at[k]] == events[..n][at[k]];
    assert forall k :: 0 <= k < |at| ==> at1[k] == at[k];
    hide Before, Issued;
  }

  lemma DueNow(l: Launcher, events: seq<Event>, at: seq<nat>, at1: seq<nat>, n: nat)
    requires l.Valid() && n < |events| && Level(l, events[..n], at) && (at1 == at || at1 == at + [n])
    ensures Due(events[..n + 1], at1, n, l.firstId, l.messages, l.window) <==> events[n].Acked? && events[n].id in l.pending
  {
    l.LaunchedSoFar();
    BeforeAll(at, n);
    BeforeMore(at, n, n);
    assert forall k :: 0 <= k < |at| ==> events[..n + 1][at[k]] == events[..n][at[k]] && at1[k] == at[k];
    hide Before, Issued, Launcher.Valid, Launcher.Filled;
  }

  lemma TakenAllDue(l: Launcher, events: seq<Event>, at: seq<nat>, at1: seq<nat>, n: nat)
    requires l.Valid() && n < |events| && Level(l, events[..n], at)
    requires AllDueTaken(events[..n], at, l.firstId, l.messages, l.window)
    requires at1 == if events[n].Acked? && events[n].id in l.pending then at + [n] else at
    ensures AllDueTaken(events[..n + 1], at1, l.firstId, l.messages, l.window)
  {
    assert forall k :: 0 <= k < |at| ==> at[k] < n;
    DueNow(l, events, at, at1, n);
    forall m | 0 <= m < n + 1 ensures m in at1 <==> Due(events[..n + 1], at1, m, l.firstId, l.messages, l.window) {
      if m < n {
        DueStays(events, at, m, at1, n, l.firstId, l.messages, l.window);
        assert m in at <==> Due(events[..n], at, m, l.firstId, l.messages, l.window);
      }
    }
    hide Due, Level, Launcher.Valid;
  }

  lemma StillWaits(pending: set<nat>, firstId: nat, nextId: nat, events: seq<Event>, at: seq<nat>, n: nat, now: set<nat>, later: nat)
    requires n < |events| && WaitsFor(pending, firstId, nextId, events[..n], at) && events[n].Acked? && firstId <= nextId <= later
    ensures now == pending && later == nextId ==> WaitsFor(now, firstId, later, events[..n + 1], at)
    ensures events[n].id in pending && (forall i :: i in now <==> (i in pending && i != events[n].id) || nextId <= i < later) ==>
              WaitsFor(now, firstId, later, events[..n + 1], at + [n])
  {
    var more, at1 := events[..n + 1], at + [n];
    assert forall k :: 0 <= k < |at| ==> more[at[k]] == events[..n][at[k]] && at1[k] == at[k];
    assert at1[|at|] == n && more[n] == events[n];
    if events[n].id in pending && forall i :: i in now <==> (i in pending && i != events[n].id) || nextId <= i < later {
      forall id ensures id in now <==> firstId <= id < later && forall k :: 0 <= k < |at1| ==> more[at1[k]].id != id {
        if forall k :: 0 <= k < |at1| ==> more[at1[k]].id != id {
          assert forall k :: 0 <= k < |at| ==> more[at1[k]].id != id;
        }
      }
    }
  }

  /** One event, and where the acknowledgement came from if it was taken. */
  method OneEvent(l: Launcher, events: seq<Event>, n: nat, ghost at: seq<nat>) returns (ghost at1: seq<nat>)
    requires n < |events| && Fine(l, events[..n], at)
    modifies l
    ensures Fine(l, events[..n + 1], at1)
    ensures NoneFails(l) && !old(l.failed) ==> !l.failed
    ensures old(OnCourse(l, events[..n], at)) && events[n].Acked? && !l.failed ==> OnCourse(l, events[..n + 1], at1)
  {
    ghost var acks0, pending0, nextId0, taken := l.acks, l.pending, l.nextId, false;
    ghost var level := OnCourse(l, events[..n], at);
    CourseParts(l, events[..n], at);
    FineParts(l, events[..n], at);
    l.IdsInRange();
    ghost var none := NoneFails(l);
    assert none ==> forall k: nat :: k < l.messages ==> !l.sendFails(k);
    hide *;
    at1 := if events[n].Acked? && events[n].id in l.pending && !l.failed then at + [n] else at;
    if level {
      TakenAllDue(l, events, at, at1, n);
    }
    TakenMore(l.acks, at, events, l.firstId, n);
    match events[n] {
      case Acked(id, ack) =>
        taken := id in l.pending && !l.failed;
        l.Receive(id, ack);
        if level && !l.failed {
          StillWaits(pending0, l.firstId, nextId0, events, at, n, l.pending, l.nextId);
        }
      case TimedOut =>
        l.TimeOut();
    }
    StillUsed(acks0, at, events, l.firstId, n, pending0, nextId0, l.pending, l.nextId);
    if taken {
      OneTaken(acks0, at, events, l.firstId, n, pending0, nextId0);
    }
    CourseParts(l, events[..n + 1], at1);
    FineParts(l, events[..n + 1], at1);
  }

  /** All that is due was taken, and the launcher waits for the rest. */
  ghost predicate OnCourse(l: Launcher, events: seq<Event>, at: seq<nat>)
    reads l
  {
    Level(l, events, at) && AllDueTaken(events, at, l.firstId, l.messages, l.window)
  }

  lemma CourseParts(l: Launcher, events: seq<Event>, at: seq<nat>)
    ensures OnCourse(l, events, at) <==>
            && !l.failed && l.Filled() && l.window >= 1 && |at| == |l.acks| && WaitsFor(l.pending, l.firstId, l.nextId, events, at)
            && AllDueTaken(events, at, l.firstId, l.messages, l.window)
    ensures OnCourse(l, events, at) ==> Level(l, events, at)
  {
  }

  /**
    A batch under any sequence of events.  The promise is resolved or rejected, not both;
    a value is the fold of as many acknowledgements as there are messages, with different
    ids and in the order in which they arrived.
  */
  method RunBatch(messages: nat, window: int, nextId: nat, sendFails: nat -> bool, events: seq<Event>)
    returns (value: Option<nat>, rejected: bool, ghost acks: seq<Ack>, ghost at: seq<nat>)
    ensures value.Some? ==> !rejected && messages > 0 && |acks| == messages && value.value == FoldAcks(acks)
    ensures Taken(acks, at, events, nextId)
    ensures (forall n: nat :: n < messages ==> !sendFails(n)) ==> !rejected
    ensures value.None? && !rejected && messages > 0 ==> |acks| < messages
    ensures messages == 0 ==> value.None? && !rejected
    ensures (forall n: nat :: n < messages ==> !sendFails(n)) && window >= 1 && NoTimeOut(events) ==>
              AllDueTaken(events, at, nextId, messages, window)
  {
    var l := new Launcher(messages, window, nextId, sendFails);
    l.Launch();
    ghost var clean := !l.failed && (forall n: nat :: n < messages ==> !sendFails(n)) && window >= 1 && NoTimeOut(events);
    assert (forall n: nat :: n < messages ==> !sendFails(n)) ==> NoneFails(l);
    if clean {
      StartsLevel(l);
    }
    hide *;
    NothingTaken(l.firstId, l.pending, l.nextId);
    FineParts(l, [], []);
    at := AllEvents(l, events, clean);
    FineParts(l, events, at);
    CourseParts(l, events, at);
    l.SettledAtMostOnce();
    l.SettledIs();
    if messages == 0 {
      NoneWithoutMessages(l);
    }
    acks := l.acks;
    value := if |l.resolved| > 0 then Some(l.resolved[0]) else None;
    rejected := l.rejections > 0;
  }

  /** The launcher after these events. */
  ghost predicate Fine(l: Launcher, events: seq<Event>, at: seq<nat>)
    reads l
  {
    l.Valid() && Taken(l.acks, at, events, l.firstId) && Used(at, events, l.pending, l.nextId)
  }

  lemma FineParts(l: Launcher, events: seq<Event>, at: seq<nat>)
    ensures Fine(l, events, at) <==> l.Valid() && Taken(l.acks, at, events, l.firstId) && Used(at, events, l.pending, l.nextId)
  {
  }

  /** The events one after the other, after the first launch. */
  method AllEvents(l: Launcher, events: seq<Event>, ghost clean: bool) returns (ghost at: seq<nat>)
    requires Fine(l, [], []) && (clean ==> OnCourse(l, [], []) && NoneFails(l) && NoTimeOut(events))
    modifies l
    ensures Fine(l, events, at) && (NoneFails(l) && !old(l.failed) ==> !l.failed) && (clean ==> OnCourse(l, events, at))
  {
    hide *;
    at := [];
    assert events[..0] == [];
    ghost var failed := l.failed;
    CourseParts(l, [], []);
    var i := 0;
    while i < |events|
      invariant i <= |events| && Fine(l, events[..i], at)
      invariant (NoneFails(l) && !failed ==> !l.failed) && (clean ==> OnCourse(l, events[..i], at))
    {
      if clean {
        AckedAt(events, i);
      }
      at := OneEvent(l, events, i, at);
      i := i + 1;
    }
    assert events[..i] == events;
  }

  predicate NoTimeOut(events: seq<Event>) {
    forall e :: e in events ==> e.Acked?
  }

  lemma AckedAt(events: seq<Event>, i: nat)
    requires NoTimeOut(events) && i < |events|
    ensures events[i].Acked?
  {
    assert events[i] in events;
  }

  /** Posting never throws. */
  ghost predicate NoneFails(l: Launcher) {
    forall n: nat :: n < l.messages ==> !l.sendFails(n)
  }

  lemma NothingTaken(firstId: nat, pending: set<nat>, nextId: nat)
    ensures Taken([], [], [], firstId) && Used([], [], pending, nextId)
  {
  }

  lemma StartsLevel(l: Launcher)
    requires l.Valid() && !l.failed && l.Filled() && l.window >= 1 && l.acks == []
    requires forall id :: id in l.pending <==> l.firstId <= id < l.nextId
    ensures OnCourse(l, [], [])
  {
    hide Launcher.Valid, Launcher.Filled;
  }

  /** An empty batch launches nothing, and nothing ever settles it. */
  lemma NoneWithoutMessages(l: Launcher)
    requires l.Valid() && l.messages == 0
    ensures l.resolved == [] && (!l.failed ==> l.rejections == 0)
  {
  }

  /** With equal acknowledgements the value is the expected fold. */
  method RunUniform(messages: nat, window: int, nextId: nat, ack: Ack, events: seq<Event>) returns (value: Option<nat>, expected: nat)
    requires forall e :: e in events && e.Acked? ==> e.ack == ack
    ensures value.Some? ==> value.value == expected
    ensures expected == FoldAcks(Repeat(ack, messages))
  {
    var rejected;
    ghost var acks;
    ghost var at;
    value, rejected, acks, at := RunBatch(messages, window, nextId, _ => false, events);
    forall a | a in acks ensures a == ack {
      var k :| 0 <= k < |acks| && acks[k] == a;
      assert events[at[k]] in events;
    }
    AllEqual(acks, ack);
    expected := ExpectedFoldForCount(ack.checksum, ack.size, messages);
  }
}
