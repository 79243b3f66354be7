/**
  Why the benchmark's run ends.  Each turn makes a weighted sum smaller: the idle task's
  countdown, how far each packet still has to go before a device holds it, the blocks
  that are not suspended, and the position in the block list.
*/
module RichardsEnds {
  import opened JsInt
  import opened RichardsPackets
  import opened RichardsTasks
  import opened RichardsBooks

  const ID_IDLE: nat := 0
  const ID_WORKER: nat := 1

  predicate IsHandler(id: nat) {
    id == ID_HANDLER_A || id == ID_HANDLER_B
  }

  predicate IsDevice(id: nat) {
    id == ID_DEVICE_A || id == ID_DEVICE_B
  }

  // ----- the benchmark's kind of set-up -----

  ghost predicate InCrew(blocks: map<nat, Tcb>, t: Tcb?) {
    t == null || (t.id in blocks && blocks[t.id] == t)
  }

  /** The six blocks, each linked to one of a smaller number or to none. */
  ghost predicate Crew(blocks: map<nat, Tcb>) {
    && blocks.Keys == {0, 1, 2, 3, 4, 5}
    && forall id :: id in blocks ==>
         blocks[id].id == id && InCrew(blocks, blocks[id].link) && Position(blocks[id].link) <= id
  }

  predicate RolesOk(roles: map<nat, Role>) {
    && ID_IDLE in roles && roles[ID_IDLE].Idle?
    && ID_WORKER in roles && roles[ID_WORKER].Worker?
    && ID_HANDLER_A in roles && roles[ID_HANDLER_A].Handler?
    && ID_HANDLER_B in roles && roles[ID_HANDLER_B].Handler?
    && ID_DEVICE_A in roles && roles[ID_DEVICE_A].Device?
    && ID_DEVICE_B in roles && roles[ID_DEVICE_B].Device?
  }

  /** No other bits than the three; the idle task counts down until it is held. */
  predicate BitsOk(states: map<nat, bv8>, count: int) {
    && (forall id :: 0 <= id < 6 ==> StateAt(states, id) < 8)
    && (StateAt(states, ID_IDLE) & STATE_HELD != 0 || (StateAt(states, ID_IDLE) == STATE_RUNNING && count > 0))
  }

  /** The packet is of the kind that belongs here, and addressed to where it goes from here. */
  predicate Fits(s: Slot, p: Packet, m: Mail) {
    match s
    case Queue(id) =>
      if id == ID_WORKER then p.kind.WorkKind?
      else if IsHandler(id) then (if p.kind.WorkKind? then m.id == ID_WORKER && m.a1 >= 0 else IsDevice(m.id))
      else IsDevice(id) && p.kind.DeviceKind? && IsHandler(m.id)
    case Work(id) => IsHandler(id) && p.kind.WorkKind? && m.id == ID_WORKER && m.a1 >= 0
    case Data(id) => IsHandler(id) && p.kind.DeviceKind? && IsDevice(m.id)
    case Pending(id) => IsDevice(id) && p.kind.DeviceKind? && IsHandler(m.id)
  }

  ghost predicate Sorted(lists: Lists, mails: map<Packet, Mail>) {
    forall s, i :: Place(lists, s, i) ==> Fits(s, At(lists, s)[i], MailAt(mails, At(lists, s)[i]))
  }

  function Count(roles: map<nat, Role>): int {
    if ID_IDLE in roles && roles[ID_IDLE].Idle? then roles[ID_IDLE].count else 0
  }

  ghost predicate Orderly(b: Books) {
    RolesOk(b.roles) && BitsOk(b.states, Count(b.roles)) && Sorted(b.lists, b.mails)
  }

  /** The bits tell the truth about queues and devices. */
  ghost predicate Truthful(lists: Lists, states: map<nat, bv8>) {
    forall id: nat :: id < 6 ==> TruthAt(lists, states, id)
  }

  ghost predicate TruthAt(lists: Lists, states: map<nat, bv8>, id: nat) {
    && (StateAt(states, id) & STATE_RUNNABLE != 0 <==> At(lists, Queue(id)) != [])
    && (IsDevice(id) ==> |At(lists, Pending(id))| <= 1 && (StateAt(states, id) & STATE_SUSPENDED != 0 ==> At(lists, Pending(id)) == []))
  }

  // ----- the measure -----

  /** How far a packet here still has to go; a letter that was read takes a work packet a step back. */
  function Weight(s: Slot, p: Packet, m: Mail): nat {
    var letters := if m.a1 < 0 then 0 else m.a1;
    match s
    case Queue(id) => if IsHandler(id) then (if p.kind.WorkKind? then 5 + letters else 9) else 6
    case Work(_) => 3 + letters
    case Data(_) => 8
    case Pending(_) => 5
  }

  function Sum(s: Slot, l: seq<Packet>, mails: map<Packet, Mail>): nat {
    if l == [] then 0 else Weight(s, l[0], MailAt(mails, l[0])) + Sum(s, l[1..], mails)
  }

  function SumAt(s: Slot, lists: Lists, mails: map<Packet, Mail>): nat {
    Sum(s, At(lists, s), mails)
  }

  function Load(lists: Lists, mails: map<Packet, Mail>): nat {
    SumAt(Queue(1), lists, mails) + SumAt(Queue(2), lists, mails) + SumAt(Queue(3), lists, mails)
    + SumAt(Queue(4), lists, mails) + SumAt(Queue(5), lists, mails)
    + SumAt(Work(2), lists, mails) + SumAt(Work(3), lists, mails)
    + SumAt(Data(2), lists, mails) + SumAt(Data(3), lists, mails)
    + SumAt(Pending(4), lists, mails) + SumAt(Pending(5), lists, mails)
  }

  /** A device that is not held can send its packet on. */
  function Released(state: bv8, pending: seq<Packet>): nat {
    if state & STATE_HELD == 0 && pending != [] then 5 else 0
  }

  function AllReleased(lists: Lists, states: map<nat, bv8>): nat {
    Released(StateAt(states, 4), At(lists, Pending(4))) + Released(StateAt(states, 5), At(lists, Pending(5)))
  }

  function Wakeful(state: bv8): nat {
    if state & STATE_SUSPENDED == 0 then 1 else 0
  }

  function AllWakeful(states: map<nat, bv8>): nat {
    Wakeful(StateAt(states, 1)) + Wakeful(StateAt(states, 2)) + Wakeful(StateAt(states, 3))
    + Wakeful(StateAt(states, 4)) + Wakeful(StateAt(states, 5))
  }

  function Position(t: Tcb?): nat {
    if t == null then 0 else t.id + 1
  }

  function Left(roles: map<nat, Role>): nat {
    if Count(roles) < 0 then 0 else Count(roles)
  }

  /** An upper bound on the number of turns to come. */
  function TurnsLeft(o: Outcome): nat {
    50 * Left(o.books.roles) + 8 * (Load(o.books.lists, o.books.mails) + AllReleased(o.books.lists, o.books.states))
    + AllWakeful(o.books.states) + Position(o.next)
  }

  // ----- packets on the move -----

  lemma {:induction false} SumMore(s: Slot, l: seq<Packet>, p: Packet, mails: map<Packet, Mail>)
    ensures Sum(s, l + [p], mails) == Sum(s, l, mails) + Weight(s, p, MailAt(mails, p))
  {
    if l == [] {
      assert l + [p] == [p];
    } else {
      SumMore(s, l[1..], p, mails);
      assert (l + [p])[1..] == l[1..] + [p];
    }
  }

  lemma {:induction false} SumSame(s: Slot, l: seq<Packet>, mails: map<Packet, Mail>, now: map<Packet, Mail>)
    requires forall p :: p in l ==> MailAt(now, p) == MailAt(mails, p)
    ensures Sum(s, l, now) == Sum(s, l, mails)
  {
    if l != [] {
      SumSame(s, l[1..], mails, now);
    }
  }

  /** The slots that the load counts. */
  predicate Counted(s: Slot) {
    match s
    case Queue(id) => id == ID_WORKER || IsHandler(id) || IsDevice(id)
    case Work(id) => IsHandler(id)
    case Data(id) => IsHandler(id)
    case Pending(id) => IsDevice(id)
  }

  lemma SumsElsewhere(lists: Lists, mails: map<Packet, Mail>, s: Slot, l: seq<Packet>)
    ensures forall u :: u != s ==> SumAt(u, lists[s := l], mails) == SumAt(u, lists, mails)
    ensures SumAt(s, lists[s := l], mails) == Sum(s, l, mails)
  {
    hide Sum;
  }

  /** The load changes where the sum of one slot does. */
  lemma LoadAt(lists: Lists, mails: map<Packet, Mail>, now: Lists, after: map<Packet, Mail>, s: Slot)
    requires Counted(s) && forall u :: u != s ==> SumAt(u, now, after) == SumAt(u, lists, mails)
    ensures Load(now, after) + SumAt(s, lists, mails) == Load(lists, mails) + SumAt(s, now, after)
  {
    hide SumAt;
  }

  lemma LoadSet(lists: Lists, mails: map<Packet, Mail>, s: Slot, l: seq<Packet>)
    requires Counted(s)
    ensures Load(lists[s := l], mails) + SumAt(s, lists, mails) == Load(lists, mails) + Sum(s, l, mails)
  {
    hide *;
    SumsElsewhere(lists, mails, s, l);
    LoadAt(lists, mails, lists[s := l], mails, s);
  }

  /** The mails agree but for one packet. */
  ghost predicate OnlyMail(mails: map<Packet, Mail>, now: map<Packet, Mail>, p: Packet) {
    forall q :: q in mails.Keys + now.Keys && q != p ==> MailAt(now, q) == MailAt(mails, q)
  }

  lemma SumUnread(s: Slot, lists: Lists, mails: map<Packet, Mail>, now: map<Packet, Mail>, p: Packet)
    requires OnlyMail(mails, now, p) && forall i :: Place(lists, s, i) ==> At(lists, s)[i] != p
    ensures SumAt(s, lists, now) == SumAt(s, lists, mails)
  {
    forall q | q in At(lists, s) ensures MailAt(now, q) == MailAt(mails, q) {
      var i :| 0 <= i < |At(lists, s)| && At(lists, s)[i] == q;
      assert Place(lists, s, i);
    }
    SumSame(s, At(lists, s), mails, now);
  }

  lemma SumsUnread(lists: Lists, mails: map<Packet, Mail>, now: map<Packet, Mail>, p: Packet)
    requires OnlyMail(mails, now, p)
    ensures forall s :: (forall i :: Place(lists, s, i) ==> At(lists, s)[i] != p) ==> SumAt(s, lists, now) == SumAt(s, lists, mails)
  {
    forall s | forall i :: Place(lists, s, i) ==> At(lists, s)[i] != p ensures SumAt(s, lists, now) == SumAt(s, lists, mails) {
      SumUnread(s, lists, mails, now, p);
    }
  }

  lemma LoadUnread(lists: Lists, mails: map<Packet, Mail>, now: map<Packet, Mail>, p: Packet)
    requires OnlyMail(mails, now, p) && forall s, i :: Place(lists, s, i) ==> At(lists, s)[i] != p
    ensures Load(lists, now) == Load(lists, mails)
  {
    hide *;
    SumsUnread(lists, mails, now, p);
    AllSums(lists, mails, now);
  }

  lemma AllSums(lists: Lists, mails: map<Packet, Mail>, now: map<Packet, Mail>)
    requires forall s :: SumAt(s, lists, now) == SumAt(s, lists, mails)
    ensures Load(lists, now) == Load(lists, mails)
  {
    hide SumAt;
  }

  lemma PlacedOnce(lists: Lists, all: set<Packet>, s: Slot)
    requires Partition(lists, all) && At(lists, s) != []
    ensures forall u, i :: Place(Rest(lists, s), u, i) ==> At(Rest(lists, s), u)[i] != At(lists, s)[0]
  {
    Popped(lists, all, s);
    NotPlacedIn(Rest(lists, s), all - {At(lists, s)[0]}, At(lists, s)[0]);
  }

  lemma NotPlacedIn(lists: Lists, all: set<Packet>, p: Packet)
    requires Partition(lists, all) && p !in all
    ensures forall s, i :: Place(lists, s, i) ==> At(lists, s)[i] != p
  {
  }

  /** The first packet of s leaves it. */
  lemma Leaves(lists: Lists, all: set<Packet>, mails: map<Packet, Mail>, now: map<Packet, Mail>, s: Slot)
    requires Partition(lists, all) && At(lists, s) != [] && Sorted(lists, mails) && Counted(s)
    requires OnlyMail(mails, now, At(lists, s)[0])
    ensures var p := At(lists, s)[0];
            Sorted(Rest(lists, s), now) && Load(Rest(lists, s), now) + Weight(s, p, MailAt(mails, p)) == Load(lists, mails)
  {
    hide *;
    RestIs(lists, s);
    PlacedOnce(lists, all, s);
    LoadUnread(Rest(lists, s), mails, now, At(lists, s)[0]);
    LoadSet(lists, mails, s, At(lists, s)[1..]);
    SumFirst(s, lists, mails);
    StaySorted(lists, mails, now, s);
  }

  lemma SumFirst(s: Slot, lists: Lists, mails: map<Packet, Mail>)
    requires At(lists, s) != []
    ensures var l := At(lists, s); SumAt(s, lists, mails) == Weight(s, l[0], MailAt(mails, l[0])) + Sum(s, l[1..], mails)
  {
    hide Weight;
  }

  lemma StaySorted(lists: Lists, mails: map<Packet, Mail>, now: map<Packet, Mail>, s: Slot)
    requires At(lists, s) != [] && Sorted(lists, mails) && OnlyMail(mails, now, At(lists, s)[0])
    requires forall u, i :: Place(Rest(lists, s), u, i) ==> At(Rest(lists, s), u)[i] != At(lists, s)[0]
    ensures Sorted(Rest(lists, s), now)
  {
    var rest := Rest(lists, s);
    forall u, i | Place(rest, u, i) ensures Fits(u, At(rest, u)[i], MailAt(now, At(rest, u)[i])) {
      PlaceBack(lists, s, u, i);
      assert Place(lists, u, Back(s, u, i));
      MailSame(mails, now, At(lists, s)[0], At(rest, u)[i]);
    }
    hide Fits, OnlyMail;
  }

  lemma MailSame(mails: map<Packet, Mail>, now: map<Packet, Mail>, p: Packet, q: Packet)
    requires OnlyMail(mails, now, p) && q != p
    ensures MailAt(now, q) == MailAt(mails, q)
  {
  }

  /** A packet enters u, as the last one. */
  lemma Enters(lists: Lists, mails: map<Packet, Mail>, u: Slot, p: Packet)
    requires Sorted(lists, mails) && Counted(u) && Fits(u, p, MailAt(mails, p))
    ensures Sorted(Put(lists, u, p), mails)
    ensures Load(Put(lists, u, p), mails) == Load(lists, mails) + Weight(u, p, MailAt(mails, p))
  {
    var after := Put(lists, u, p);
    SumMore(u, At(lists, u), p, mails);
    LoadSet(lists, mails, u, At(lists, u) + [p]);
    forall v, i | Place(after, v, i) ensures Fits(v, At(after, v)[i], MailAt(mails, At(after, v)[i])) {
      OldOrNew(lists, u, p, v, i);
    }
    hide Load;
  }

  /** The first packet of s goes to the end of u, and its mail changes. */
  lemma Moves(lists: Lists, all: set<Packet>, mails: map<Packet, Mail>, now: map<Packet, Mail>, s: Slot, u: Slot)
    requires Partition(lists, all) && At(lists, s) != [] && Sorted(lists, mails) && Counted(s) && Counted(u)
    requires OnlyMail(mails, now, At(lists, s)[0]) && Fits(u, At(lists, s)[0], MailAt(now, At(lists, s)[0]))
    ensures var p := At(lists, s)[0];
            var after := Put(Rest(lists, s), u, p);
            && Sorted(after, now)
            && Load(after, now) + Weight(s, p, MailAt(mails, p)) == Load(lists, mails) + Weight(u, p, MailAt(now, p))
  {
    Leaves(lists, all, mails, now, s);
    Enters(Rest(lists, s), now, u, At(lists, s)[0]);
    hide *;
  }

  /** One more letter of a handler's first work packet is read. */
  lemma LetterRead(lists: Lists, all: set<Packet>, mails: map<Packet, Mail>, now: map<Packet, Mail>, s: Slot)
    requires Partition(lists, all) && At(lists, s) != [] && Sorted(lists, mails) && s.Work? && Counted(s)
    requires var p := At(lists, s)[0]; OnlyMail(mails, now, p) && MailAt(now, p) == MailAt(mails, p).(a1 := MailAt(mails, p).a1 + 1)
    ensures Sorted(lists, now) && Load(lists, now) == Load(lists, mails) + 1
  {
    hide *;
    OnlyPlace(lists, all, s);
    SumsUnread(lists, mails, now, At(lists, s)[0]);
    SumRead(lists, mails, now, s);
    LoadAt(lists, mails, lists, now, s);
    SortedRead(lists, mails, now, s);
  }

  lemma OnlyPlace(lists: Lists, all: set<Packet>, s: Slot)
    requires Partition(lists, all) && At(lists, s) != []
    ensures forall u, i :: Place(lists, u, i) && At(lists, u)[i] == At(lists, s)[0] ==> u == s && i == 0
  {
    assert Place(lists, s, 0);
  }

  lemma SumRead(lists: Lists, mails: map<Packet, Mail>, now: map<Packet, Mail>, s: Slot)
    requires At(lists, s) != [] && Sorted(lists, mails) && s.Work?
    requires forall i :: Place(lists, s, i) && At(lists, s)[i] == At(lists, s)[0] ==> i == 0
    requires var p := At(lists, s)[0]; OnlyMail(mails, now, p) && MailAt(now, p) == MailAt(mails, p).(a1 := MailAt(mails, p).a1 + 1)
    ensures SumAt(s, lists, now) == SumAt(s, lists, mails) + 1
  {
    var l := At(lists, s);
    assert Place(lists, s, 0) && Fits(s, l[0], MailAt(mails, l[0]));
    forall q | q in l[1..] ensures MailAt(now, q) == MailAt(mails, q) {
      var i :| 0 <= i < |l[1..]| && l[1..][i] == q;
      assert Place(lists, s, i + 1) && l[i + 1] == q;
    }
    SumSame(s, l[1..], mails, now);
    hide OnlyMail;
  }

  lemma SortedRead(lists: Lists, mails: map<Packet, Mail>, now: map<Packet, Mail>, s: Slot)
    requires At(lists, s) != [] && Sorted(lists, mails) && s.Work?
    requires forall u, i :: Place(lists, u, i) && At(lists, u)[i] == At(lists, s)[0] ==> u == s && i == 0
    requires var p := At(lists, s)[0]; OnlyMail(mails, now, p) && MailAt(now, p) == MailAt(mails, p).(a1 := MailAt(mails, p).a1 + 1)
    ensures Sorted(lists, now)
  {
    var p := At(lists, s)[0];
    forall u, i | Place(lists, u, i) ensures Fits(u, At(lists, u)[i], MailAt(now, At(lists, u)[i])) {
      assert Fits(u, At(lists, u)[i], MailAt(mails, At(lists, u)[i]));
      if At(lists, u)[i] != p {
        MailSame(mails, now, p, At(lists, u)[i]);
      }
    }
    hide OnlyMail;
  }

  // ----- bits -----

  lemma SmallBits(s: bv8)
    requires s < 8
    ensures s | STATE_RUNNABLE < 8 && s | STATE_HELD < 8 && s | STATE_SUSPENDED < 8 && s & STATE_NOT_HELD < 8
    ensures (s | STATE_RUNNABLE) & STATE_HELD == s & STATE_HELD && (s | STATE_SUSPENDED) & STATE_HELD == s & STATE_HELD
    ensures (s | STATE_SUSPENDED) & STATE_SUSPENDED != 0
    ensures s & STATE_HELD == 0 && s & STATE_SUSPENDED != 0 ==> s == STATE_SUSPENDED || s == STATE_SUSPENDED_RUNNABLE
    ensures s & STATE_HELD == 0 && s != STATE_SUSPENDED && s & STATE_SUSPENDED != 0 ==> s & STATE_RUNNABLE != 0
  {
  }

  /** One block's state changes: what that means for the number of blocks that are not suspended. */
  lemma StateSet(states: map<nat, bv8>, id: nat, state: bv8, count: int)
    requires BitsOk(states, count) && 1 <= id <= 5 && state < 8
    ensures BitsOk(states[id := state], count)
    ensures AllWakeful(states[id := state]) + Wakeful(StateAt(states, id)) == AllWakeful(states) + Wakeful(state)
  {
    var now := states[id := state];
    assert StateAt(now, id) == state && forall u: nat :: u != id ==> StateAt(now, u) == StateAt(states, u);
    WakefulSet(states, id, now);
    hide AllWakeful, StateAt, Wakeful;
  }

  lemma WakefulSet(states: map<nat, bv8>, id: nat, now: map<nat, bv8>)
    requires 1 <= id <= 5 && forall u: nat :: u != id ==> StateAt(now, u) == StateAt(states, u)
    ensures AllWakeful(now) + Wakeful(StateAt(states, id)) == AllWakeful(states) + Wakeful(StateAt(now, id))
  {
    hide StateAt, Wakeful;
  }

  lemma ReleasedSame(lists: Lists, states: map<nat, bv8>, id: nat, state: bv8)
    requires state & STATE_HELD == StateAt(states, id) & STATE_HELD || !IsDevice(id) || At(lists, Pending(id)) == []
    ensures AllReleased(lists, states[id := state]) == AllReleased(lists, states)
  {
  }

  lemma ReleasedMore(lists: Lists, states: map<nat, bv8>, id: nat, state: bv8)
    ensures AllReleased(lists, states[id := state]) <= AllReleased(lists, states) + 5
    ensures AllReleased(lists, states[id := state]) + Released(StateAt(states, id), At(lists, Pending(id)))
         <= AllReleased(lists, states) + Released(state, At(lists, Pending(id))) || !IsDevice(id)
  {
  }

  lemma ReleasedElsewhere(lists: Lists, states: map<nat, bv8>, s: Slot, l: seq<Packet>)
    requires !s.Pending?
    ensures AllReleased(lists[s := l], states) == AllReleased(lists, states)
  {
    hide Released;
  }

  lemma WokenBits(states: map<nat, bv8>, id: nat, queue: seq<Packet>, lists: Lists, count: int)
    requires BitsOk(states, count) && 1 <= id <= 5
    ensures var now := states[id := Woken(StateAt(states, id), queue)];
            BitsOk(now, count) && AllWakeful(now) == AllWakeful(states) && AllReleased(lists, now) == AllReleased(lists, states)
  {
    var state := StateAt(states, id);
    StateBits(state);
    SmallBits(state);
    var now := Woken(state, queue);
    assert now < 8 && Wakeful(now) == Wakeful(state) && now & STATE_HELD == state & STATE_HELD;
    StateSet(states, id, now, count);
    ReleasedSame(lists, states, id, now);
    hide *;
  }

  // ----- sending -----

  lemma MailsChained(mails: map<Packet, Mail>, now: map<Packet, Mail>, p: Packet, id: nat)
    requires OnlyMail(mails, now, p)
    ensures OnlyMail(mails, Readdressed(now, p, id), p)
    ensures MailAt(Readdressed(now, p, id), p) == MailAt(now, p).(id := id)
  {
  }

  lemma WeightUnaddressed(s: Slot, p: Packet, m: Mail, id: nat)
    ensures Weight(s, p, m.(id := id)) == Weight(s, p, m)
  {
  }

  /** What sending the first packet of s, rewritten in b, does to the measure. */
  lemma Sends(blocks: map<nat, Tcb>, all: set<Packet>, lists: Lists, mails: map<Packet, Mail>, b: Books, s: Slot, running: Tcb)
    requires Crew(blocks) && InCrew(blocks, running) && BitsOk(b.states, Count(b.roles))
    requires Partition(lists, all) && At(lists, s) != [] && Sorted(lists, mails) && Counted(s)
    requires b.lists == Rest(lists, s) && OnlyMail(mails, b.mails, At(lists, s)[0])
    requires var m := MailAt(b.mails, At(lists, s)[0]); 1 <= m.id <= 5 && Fits(Queue(m.id), At(lists, s)[0], m.(id := running.id))
    ensures var p := At(lists, s)[0];
            var o := Send(blocks, b, p, running);
            && Sorted(o.books.lists, o.books.mails) && o.books.roles == b.roles && BitsOk(o.books.states, Count(b.roles))
            && Load(o.books.lists, o.books.mails) + Weight(s, p, MailAt(mails, p))
               == Load(lists, mails) + Weight(Queue(MailAt(b.mails, p).id), p, MailAt(b.mails, p))
            && AllWakeful(o.books.states) == AllWakeful(b.states)
            && AllReleased(o.books.lists, o.books.states) == AllReleased(b.lists, b.states)
            && InCrew(blocks, o.next) && Position(o.next) <= 6
  {
    hide *;
    var p := At(lists, s)[0];
    var m := MailAt(b.mails, p);
    var to := m.id;
    var queue := At(b.lists, Queue(to));
    CrewIs(blocks, to);
    SendIs(blocks, b, p, running);
    MailsChained(mails, b.mails, p, running.id);
    FitsCounted(Queue(to), p, m.(id := running.id));
    Moves(lists, all, mails, Readdressed(b.mails, p, running.id), s, Queue(to));
    WeightUnaddressed(Queue(to), p, m, running.id);
    WokenBits(b.states, to, queue, b.lists, Count(b.roles));
    PutIs(b.lists, Queue(to), p);
    ReleasedElsewhere(b.lists, b.states[to := Woken(StateAt(b.states, to), queue)], Queue(to), queue + [p]);
    HigherIs(blocks[to], running);
    PositionIs(blocks, running);
    PositionIs(blocks, blocks[to]);
  }

  lemma CrewIs(blocks: map<nat, Tcb>, id: nat)
    requires Crew(blocks) && 0 <= id <= 5
    ensures id in blocks && InCrew(blocks, blocks[id]) && blocks[id].id == id
    ensures InCrew(blocks, blocks[id].link) && Position(blocks[id].link) <= id && Position(blocks[id]) == id + 1
  {
  }

  lemma PositionIs(blocks: map<nat, Tcb>, t: Tcb?)
    requires Crew(blocks) && InCrew(blocks, t)
    ensures Position(t) <= 6 && (t != null ==> Position(t) == t.id + 1 && t.id <= 5 && t.id in blocks && blocks[t.id] == t)
  {
  }

  lemma FitsCounted(s: Slot, p: Packet, m: Mail)
    requires Fits(s, p, m)
    ensures Counted(s)
  {
  }

  // ----- turns -----

  /** The turn keeps the order and makes the measure smaller. */
  ghost predicate Progress(blocks: map<nat, Tcb>, b: Books, t: Tcb, o: Outcome) {
    Orderly(o.books) && InCrew(blocks, o.next) && TurnsLeft(o) < TurnsLeft(Outcome(b, t))
  }

  /** What a block that takes its first packet looks like. */
  lemma Fetches(b: Books, id: nat)
    requires Truthful(b.lists, b.states) && BitsOk(b.states, Count(b.roles)) && 1 <= id <= 5
    requires StateAt(b.states, id) == STATE_SUSPENDED_RUNNABLE
    ensures At(b.lists, Queue(id)) != []
    ensures var f := Fetched(b, id);
            && f == b.(lists := Rest(b.lists, Queue(id)), states := f.states) && BitsOk(f.states, Count(b.roles))
            && AllWakeful(f.states) == AllWakeful(b.states) + 1
            && AllReleased(f.lists, f.states) == AllReleased(b.lists, b.states)
            && (IsDevice(id) ==> At(f.lists, Pending(id)) == [])
            && StateAt(f.states, id) & STATE_SUSPENDED == 0
  {
    var f := Fetched(b, id);
    var state := Awake(At(f.lists, Queue(id)));
    assert TruthAt(b.lists, b.states, id);
    assert StateAt(b.states, id) & STATE_RUNNABLE != 0 && StateAt(b.states, id) & STATE_SUSPENDED != 0;
    assert state < 8 && Wakeful(state) == 1 && Wakeful(STATE_SUSPENDED_RUNNABLE) == 0;
    StateSet(b.states, id, state, Count(b.roles));
    ReleasedSame(b.lists, b.states, id, state);
    ReleasedElsewhere(b.lists, f.states, Queue(id), At(b.lists, Queue(id))[1..]);
    hide AllWakeful, AllReleased, BitsOk, Wakeful, Count;
  }

  /** A block that is not suspended suspends itself. */
  lemma Suspends(blocks: map<nat, Tcb>, b: Books, t: Tcb)
    requires Crew(blocks) && InCrew(blocks, t) && 1 <= t.id && Orderly(b) && StateAt(b.states, t.id) & STATE_SUSPENDED == 0
    ensures var o := Suspend(b, t);
            && Orderly(o.books) && InCrew(blocks, o.next) && Position(o.next) == t.id + 1
            && o.books.roles == b.roles && o.books.lists == b.lists && o.books.mails == b.mails
            && AllWakeful(o.books.states) + 1 == AllWakeful(b.states)
            && AllReleased(o.books.lists, o.books.states) == AllReleased(b.lists, b.states)
  {
    var state := StateAt(b.states, t.id);
    PositionIs(blocks, t);
    SmallBits(state);
    StateSet(b.states, t.id, state | STATE_SUSPENDED, Count(b.roles));
    ReleasedSame(b.lists, b.states, t.id, state | STATE_SUSPENDED);
    hide AllWakeful, AllReleased, Sorted, RolesOk, Count;
  }

  lemma OrderlyParts(b: Books)
    requires Orderly(b)
    ensures RolesOk(b.roles) && BitsOk(b.states, Count(b.roles)) && Sorted(b.lists, b.mails)
  {
  }

  lemma FirstFits(lists: Lists, mails: map<Packet, Mail>, s: Slot)
    requires Sorted(lists, mails) && At(lists, s) != []
    ensures Fits(s, At(lists, s)[0], MailAt(mails, At(lists, s)[0])) && Counted(s)
  {
    assert Place(lists, s, 0);
  }

  /** A turn with the countdown as it was is progress if the rest of the measure is smaller. */
  lemma MakesProgress(blocks: map<nat, Tcb>, b: Books, t: Tcb, o: Outcome)
    requires RolesOk(o.books.roles) && BitsOk(o.books.states, Count(o.books.roles)) && Sorted(o.books.lists, o.books.mails)
    requires InCrew(blocks, o.next) && Left(o.books.roles) == Left(b.roles)
    requires 8 * (Load(o.books.lists, o.books.mails) + AllReleased(o.books.lists, o.books.states))
             + AllWakeful(o.books.states) + Position(o.next)
           < 8 * (Load(b.lists, b.mails) + AllReleased(b.lists, b.states)) + AllWakeful(b.states) + t.id + 1
    ensures Progress(blocks, b, t, o)
  {
    hide Load, AllReleased, AllWakeful, Left, RolesOk, BitsOk, Sorted, Count, InCrew;
  }

  /** A block is held that has no packet to send. */
  lemma Holds(blocks: map<nat, Tcb>, b: Books, t: Tcb)
    requires Crew(blocks) && InCrew(blocks, t) && 1 <= t.id && BitsOk(b.states, Count(b.roles))
    ensures var o := Hold(b, t);
            && o.books == b.(states := o.books.states, holds := b.holds + 1) && BitsOk(o.books.states, Count(b.roles))
            && AllWakeful(o.books.states) == AllWakeful(b.states)
            && InCrew(blocks, o.next) && Position(o.next) <= t.id
    ensures forall lists, p :: At(lists, Pending(t.id)) == [] ==>
              AllReleased(Put(lists, Pending(t.id), p), Hold(b, t).books.states) <= AllReleased(lists, b.states)
  {
    var state := StateAt(b.states, t.id);
    PositionIs(blocks, t);
    CrewIs(blocks, t.id);
    SmallBits(state);
    StateBits(state);
    StateSet(b.states, t.id, state | STATE_HELD, Count(b.roles));
    forall lists, p | At(lists, Pending(t.id)) == []
      ensures AllReleased(Put(lists, Pending(t.id), p), b.states[t.id := state | STATE_HELD]) <= AllReleased(lists, b.states)
    {
      HoldReleases(lists, b.states, t.id, p);
    }
    hide AllWakeful, AllReleased, BitsOk, Count, Put;
  }

  lemma HoldReleases(lists: Lists, states: map<nat, bv8>, id: nat, p: Packet)
    requires At(lists, Pending(id)) == []
    ensures AllReleased(Put(lists, Pending(id), p), states[id := StateAt(states, id) | STATE_HELD]) <= AllReleased(lists, states)
  {
    HeldBit(StateAt(states, id));
  }

  lemma HeldBit(s: bv8)
    ensures (s | STATE_HELD) & STATE_HELD != 0
  {
  }

  /** A device keeps a packet and is held. */
  lemma DeviceHolds(blocks: map<nat, Tcb>, all: set<Packet>, b: Books, t: Tcb)
    requires Crew(blocks) && InCrew(blocks, t) && IsDevice(t.id)
    requires Partition(b.lists, all) && Truthful(b.lists, b.states) && Orderly(b)
    requires StateAt(b.states, t.id) == STATE_SUSPENDED_RUNNABLE
    ensures At(b.lists, Queue(t.id)) != []
    ensures Progress(blocks, b, t, TurnDevice(blocks, Fetched(b, t.id), t, At(b.lists, Queue(t.id))[0]))
  {
    hide *;
    hide IsDevice;
    Ids();
    OrderlyParts(b);
    Fetches(b, t.id);
    var p, f := At(b.lists, Queue(t.id))[0], Fetched(b, t.id);
    FirstFits(b.lists, b.mails, Queue(t.id));
    DeviceKeeps(t.id, p, MailAt(b.mails, p));
    SameMails(b.mails, p);
    Moves(b.lists, all, b.mails, b.mails, Queue(t.id), Pending(t.id));
    var g := f.(lists := Put(f.lists, Pending(t.id), p));
    TurnDeviceIs(blocks, f, t, p);
    Holds(blocks, g, t);
    MakesProgress(blocks, b, t, Hold(g, t));
  }

  lemma Ids()
    ensures ID_IDLE == 0 && ID_WORKER == 1
    ensures forall id :: IsDevice(id) <==> id == 4 || id == 5
    ensures forall id :: IsHandler(id) <==> id == 2 || id == 3
  {
  }

  lemma DeviceKeeps(id: nat, p: Packet, m: Mail)
    requires IsDevice(id) && Fits(Queue(id), p, m)
    ensures Fits(Pending(id), p, m) && Counted(Pending(id))
    ensures Weight(Queue(id), p, m) == 6 && Weight(Pending(id), p, m) == 5
  {
  }

  lemma SameMails(mails: map<Packet, Mail>, p: Packet)
    ensures OnlyMail(mails, mails, p)
  {
  }

  /** A device that is not held sends its packet to the handler it came from. */
  lemma DeviceSends(blocks: map<nat, Tcb>, all: set<Packet>, b: Books, t: Tcb)
    requires Crew(blocks) && InCrew(blocks, t) && IsDevice(t.id)
    requires Partition(b.lists, all) && Truthful(b.lists, b.states) && Orderly(b)
    requires StateAt(b.states, t.id) & STATE_HELD == 0 && At(b.lists, Pending(t.id)) != []
    ensures Progress(blocks, b, t, TurnDevice(blocks, b, t, null))
  {
    hide *;
    Ids();
    OrderlyParts(b);
    var p, s := At(b.lists, Pending(t.id))[0], Pending(t.id);
    FirstFits(b.lists, b.mails, s);
    SameMails(b.mails, p);
    DeviceReturns(t.id, p, MailAt(b.mails, p));
    TurnDeviceIs(blocks, b, t, null);
    var g := b.(lists := Rest(b.lists, s));
    Sends(blocks, all, b.lists, b.mails, g, s, t);
    PendingGone(b.lists, b.states, t.id);
    MakesProgress(blocks, b, t, Send(blocks, g, p, t));
  }

  lemma DeviceReturns(id: nat, p: Packet, m: Mail)
    requires Fits(Pending(id), p, m)
    ensures IsHandler(m.id) && Fits(Queue(m.id), p, m.(id := id))
    ensures Weight(Pending(id), p, m) == 5 && Weight(Queue(m.id), p, m) == 9
  {
  }

  lemma PendingGone(lists: Lists, states: map<nat, bv8>, id: nat)
    requires IsDevice(id) && StateAt(states, id) & STATE_HELD == 0 && Truthful(lists, states) && At(lists, Pending(id)) != []
    ensures AllReleased(Rest(lists, Pending(id)), states) + 5 == AllReleased(lists, states)
  {
    assert TruthAt(lists, states, id);
  }

  /** A block that suspends itself makes progress. */
  lemma SuspendProgress(blocks: map<nat, Tcb>, b: Books, t: Tcb)
    requires Crew(blocks) && InCrew(blocks, t) && 1 <= t.id && Orderly(b) && StateAt(b.states, t.id) & STATE_SUSPENDED == 0
    ensures Progress(blocks, b, t, Suspend(b, t))
  {
    Suspends(blocks, b, t);
    hide *;
    OrderlyParts(Suspend(b, t).books);
    MakesProgress(blocks, b, t, Suspend(b, t));
  }

  /** The worker writes new letters and sends the packet to a handler. */
  lemma WorkerSends(blocks: map<nat, Tcb>, all: set<Packet>, b: Books, t: Tcb, v1: nat, v2: int)
    requires Crew(blocks) && InCrew(blocks, t) && t.id == ID_WORKER
    requires Partition(b.lists, all) && Truthful(b.lists, b.states) && Orderly(b)
    requires StateAt(b.states, t.id) == STATE_SUSPENDED_RUNNABLE && b.roles[t.id] == Worker(v1, v2)
    ensures At(b.lists, Queue(t.id)) != []
    ensures Progress(blocks, b, t, TurnWorker(blocks, Fetched(b, t.id), t, At(b.lists, Queue(t.id))[0], v1, v2))
  {
    hide *;
    Ids();
    OrderlyParts(b);
    Fetches(b, t.id);
    var p, f := At(b.lists, Queue(t.id))[0], Fetched(b, t.id);
    FirstFits(b.lists, b.mails, Queue(t.id));
    TurnWorkerIs(blocks, f, t, p, v1, v2);
    var g := Written(f, t.id, p, v1, v2);
    WorkerWrites(f, t.id, p, v1, v2);
    WorkerPasses(p, MailAt(b.mails, p), MailAt(g.mails, p), t.id);
    Sends(blocks, all, b.lists, b.mails, g, Queue(t.id), t);
    MakesProgress(blocks, b, t, Send(blocks, g, p, t));
  }

  lemma WorkerWrites(b: Books, id: nat, p: Packet, v1: nat, v2: int)
    requires id == ID_WORKER && RolesOk(b.roles)
    ensures var g := Written(b, id, p, v1, v2);
            && g == b.(roles := g.roles, mails := g.mails) && OnlyMail(b.mails, g.mails, p)
            && RolesOk(g.roles) && Count(g.roles) == Count(b.roles) && Left(g.roles) == Left(b.roles)
            && MailAt(g.mails, p).a1 == 0 && IsHandler(MailAt(g.mails, p).id)
  {
    hide Letter;
  }

  lemma WorkerPasses(p: Packet, m: Mail, now: Mail, id: nat)
    requires Fits(Queue(ID_WORKER), p, m) && now.a1 == 0 && IsHandler(now.id) && id == ID_WORKER
    ensures Fits(Queue(now.id), p, now.(id := id)) && 1 <= now.id <= 5
    ensures Weight(Queue(ID_WORKER), p, m) == 6 && Weight(Queue(now.id), p, now) == 5
  {
  }

  /** A handler sends a read work packet back. */
  lemma HandlerReturns(blocks: map<nat, Tcb>, all: set<Packet>, b: Books, t: Tcb)
    requires Crew(blocks) && InCrew(blocks, t) && IsHandler(t.id) && Partition(b.lists, all) && Orderly(b)
    requires At(b.lists, Work(t.id)) != [] && MailAt(b.mails, At(b.lists, Work(t.id))[0]).a1 >= DATA_SIZE
    ensures Progress(blocks, b, t, Send(blocks, b.(lists := Rest(b.lists, Work(t.id))), At(b.lists, Work(t.id))[0], t))
  {
    hide *;
    Ids();
    OrderlyParts(b);
    var p, s := At(b.lists, Work(t.id))[0], Work(t.id);
    FirstFits(b.lists, b.mails, s);
    SameMails(b.mails, p);
    WorkReturns(t.id, p, MailAt(b.mails, p));
    var g := b.(lists := Rest(b.lists, s));
    Sends(blocks, all, b.lists, b.mails, g, s, t);
    RestReleased(b.lists, b.states, s);
    MakesProgress(blocks, b, t, Send(blocks, g, p, t));
  }

  lemma WorkReturns(id: nat, p: Packet, m: Mail)
    requires Fits(Work(id), p, m) && m.a1 >= DATA_SIZE
    ensures m.id == 1 && Fits(Queue(1), p, m.(id := id)) && Weight(Queue(1), p, m) < Weight(Work(id), p, m)
  {
  }

  lemma RestReleased(lists: Lists, states: map<nat, bv8>, s: Slot)
    requires !s.Pending?
    ensures AllReleased(Rest(lists, s), states) == AllReleased(lists, states)
  {
    hide Released;
  }

  /** A handler sends a letter of its first work packet to a device. */
  lemma HandlerForwards(blocks: map<nat, Tcb>, all: set<Packet>, b: Books, t: Tcb)
    requires Crew(blocks) && InCrew(blocks, t) && IsHandler(t.id) && Partition(b.lists, all) && Orderly(b)
    requires At(b.lists, Work(t.id)) != [] && At(b.lists, Data(t.id)) != []
    ensures var v, work := At(b.lists, Data(t.id))[0], At(b.lists, Work(t.id))[0];
            Progress(blocks, b, t,
                     Send(blocks, b.(lists := Rest(b.lists, Data(t.id)), mails := Copied(b.mails, v, work)), v, t))
  {
    hide *;
    Ids();
    OrderlyParts(b);
    var v, work := At(b.lists, Data(t.id))[0], At(b.lists, Work(t.id))[0];
    FirstFits(b.lists, b.mails, Data(t.id));
    FirstFits(b.lists, b.mails, Work(t.id));
    var m := MailAt(b.mails, work);
    var read := b.mails[work := m.(a1 := m.a1 + 1)];
    var g := b.(lists := Rest(b.lists, Data(t.id)), mails := Copied(b.mails, v, work));
    OneRead(b.mails, work);
    LetterRead(b.lists, all, b.mails, read, Work(t.id));
    CopyParts(b.mails, v, work, t.id);
    Sends(blocks, all, b.lists, read, g, Data(t.id), t);
    RestReleased(b.lists, b.states, Data(t.id));
    MakesProgress(blocks, b, t, Send(blocks, g, v, t));
  }

  lemma OneRead(mails: map<Packet, Mail>, work: Packet)
    ensures var m := MailAt(mails, work);
            var read := mails[work := m.(a1 := m.a1 + 1)];
            OnlyMail(mails, read, work) && MailAt(read, work) == m.(a1 := m.a1 + 1)
  {
  }

  lemma CopyParts(mails: map<Packet, Mail>, v: Packet, work: Packet, id: nat)
    requires Fits(Data(id), v, MailAt(mails, v)) && Fits(Work(id), work, MailAt(mails, work))
    ensures var m := MailAt(mails, work);
            var read := mails[work := m.(a1 := m.a1 + 1)];
            var now := Copied(mails, v, work);
            var to := MailAt(now, v).id;
            && OnlyMail(read, now, v) && 1 <= to <= 5 && Fits(Queue(to), v, MailAt(now, v).(id := id))
            && Weight(Data(id), v, MailAt(read, v)) == 8 && Weight(Queue(to), v, MailAt(now, v)) == 6
  {
  }

  /** What a handler that runs does with its two lists. */
  lemma HandlerActs(blocks: map<nat, Tcb>, all: set<Packet>, b: Books, t: Tcb)
    requires Crew(blocks) && InCrew(blocks, t) && IsHandler(t.id) && Partition(b.lists, all) && Orderly(b)
    requires StateAt(b.states, t.id) & STATE_SUSPENDED == 0
    ensures Progress(blocks, b, t, TurnFiled(blocks, b, t))
  {
    hide *;
    Ids();
    TurnFiledIs(blocks, b, t);
    var work, data := At(b.lists, Work(t.id)), At(b.lists, Data(t.id));
    if work != [] && MailAt(b.mails, work[0]).a1 >= DATA_SIZE {
      HandlerReturns(blocks, all, b, t);
    } else if work != [] && data != [] {
      HandlerForwards(blocks, all, b, t);
    } else {
      SuspendProgress(blocks, b, t);
    }
  }

  /** A handler files a packet and goes on with its lists. */
  lemma HandlerFiles(blocks: map<nat, Tcb>, all: set<Packet>, b: Books, t: Tcb)
    requires Crew(blocks) && InCrew(blocks, t) && IsHandler(t.id)
    requires Partition(b.lists, all) && Truthful(b.lists, b.states) && Orderly(b)
    requires StateAt(b.states, t.id) == STATE_SUSPENDED_RUNNABLE
    ensures At(b.lists, Queue(t.id)) != []
    ensures Progress(blocks, b, t, TurnHandler(blocks, Fetched(b, t.id), t, At(b.lists, Queue(t.id))[0]))
  {
    hide *;
    Ids();
    OrderlyParts(b);
    Fetches(b, t.id);
    var s := Queue(t.id);
    var p, f := At(b.lists, s)[0], Fetched(b, t.id);
    FirstFits(b.lists, b.mails, s);
    SameMails(b.mails, p);
    var u := FileSlot(t.id, p);
    HandlerKeeps(t.id, p, MailAt(b.mails, p));
    Moves(b.lists, all, b.mails, b.mails, s, u);
    StillPartition(b.lists, all, s, u);
    var g := f.(lists := Put(f.lists, u, p));
    TurnHandlerIs(blocks, f, t, p);
    PutReleased(f.lists, f.states, u, p);
    AllParts(g);
    HandlerActs(blocks, all, g, t);
    AfterFiling(blocks, b, g, t, TurnFiled(blocks, g, t));
  }

  lemma HandlerKeeps(id: nat, p: Packet, m: Mail)
    requires IsHandler(id) && Fits(Queue(id), p, m)
    ensures var u := FileSlot(id, p);
            Fits(u, p, m) && Counted(u) && !u.Pending? && u != Queue(id) && Weight(u, p, m) < Weight(Queue(id), p, m)
  {
  }

  lemma StillPartition(lists: Lists, all: set<Packet>, s: Slot, u: Slot)
    requires Partition(lists, all) && At(lists, s) != []
    ensures Partition(Put(Rest(lists, s), u, At(lists, s)[0]), all)
  {
    hide *;
    var p := At(lists, s)[0];
    RestIs(lists, s);
    Popped(lists, all, s);
    Pushed(Rest(lists, s), all - {p}, u, p);
    PutIs(Rest(lists, s), u, p);
    assert all - {p} + {p} == all;
  }

  lemma PutReleased(lists: Lists, states: map<nat, bv8>, s: Slot, p: Packet)
    requires !s.Pending?
    ensures AllReleased(Put(lists, s, p), states) == AllReleased(lists, states)
  {
    hide Released;
  }

  lemma AllParts(b: Books)
    requires RolesOk(b.roles) && BitsOk(b.states, Count(b.roles)) && Sorted(b.lists, b.mails)
    ensures Orderly(b)
  {
  }

  lemma AfterFiling(blocks: map<nat, Tcb>, b: Books, g: Books, t: Tcb, o: Outcome)
    requires Progress(blocks, g, t, o) && g.roles == b.roles && AllWakeful(g.states) <= AllWakeful(b.states) + 1
    requires Load(g.lists, g.mails) < Load(b.lists, b.mails)
    requires AllReleased(g.lists, g.states) == AllReleased(b.lists, b.states)
    ensures Progress(blocks, b, t, o)
  {
    hide Orderly, Load, AllWakeful, AllReleased, Left, InCrew;
  }

  // ----- the idle task -----

  /** The idle task counts down, and holds itself or lets a device run. */
  lemma IdleRuns(blocks: map<nat, Tcb>, b: Books, t: Tcb, seed: int, count: int)
    requires Crew(blocks) && InCrew(blocks, t) && t.id == ID_IDLE && Orderly(b)
    requires b.roles[t.id] == Idle(seed, count) && count > 0 && StateAt(b.states, t.id) == STATE_RUNNING
    ensures Progress(blocks, b, t, TurnIdle(blocks, b, t, seed, count))
  {
    if count == 1 {
      IdleStops(blocks, b, t, seed);
    } else {
      IdleReleases(blocks, b, t, seed, count);
    }
    hide *;
  }

  lemma IdleStops(blocks: map<nat, Tcb>, b: Books, t: Tcb, seed: int)
    requires Crew(blocks) && InCrew(blocks, t) && t.id == ID_IDLE && Orderly(b)
    requires b.roles[t.id] == Idle(seed, 1) && StateAt(b.states, t.id) == STATE_RUNNING
    ensures Progress(blocks, b, t, TurnIdle(blocks, b, t, seed, 1))
  {
    CrewIs(blocks, t.id);
    PositionIs(blocks, t);
    HeldBit(STATE_RUNNING);
    SmallBits(STATE_RUNNING);
    var o := TurnIdle(blocks, b, t, seed, 1);
    assert StateAt(o.books.states, t.id) == STATE_RUNNING | STATE_HELD;
    assert forall id: nat :: id != t.id ==> StateAt(o.books.states, id) == StateAt(b.states, id);
    assert BitsOk(o.books.states, Count(o.books.roles)) by { hide StateAt; }
    assert AllReleased(o.books.lists, o.books.states) == AllReleased(b.lists, b.states);
    assert AllWakeful(o.books.states) == AllWakeful(b.states);
    hide Load, Sorted, Released, Wakeful, At, Crew, InCrew;
  }

  lemma IdleReleases(blocks: map<nat, Tcb>, b: Books, t: Tcb, seed: int, count: int)
    requires Crew(blocks) && InCrew(blocks, t) && t.id == ID_IDLE && Orderly(b)
    requires b.roles[t.id] == Idle(seed, count) && count > 1 && StateAt(b.states, t.id) == STATE_RUNNING
    ensures Progress(blocks, b, t, TurnIdle(blocks, b, t, seed, count))
  {
    var id := DeviceFor(seed);
    var state := StateAt(b.states, id);
    CrewIs(blocks, id);
    CrewIs(blocks, t.id);
    SmallBits(state);
    StateBits(state);
    StateSet(b.states, id, state & STATE_NOT_HELD, count - 1);
    ReleasedMore(b.lists, b.states, id, state & STATE_NOT_HELD);
    hide Load, Sorted, AllReleased, AllWakeful, At, Crew, InCrew, And, Shr, Xor;
  }

  // ----- all turns -----

  lemma RolesAre(roles: map<nat, Role>, id: nat)
    requires RolesOk(roles) && 0 <= id <= 5
    ensures id in roles
    ensures id == 0 ==> roles[id].Idle? && Count(roles) == roles[id].count
    ensures id == 1 ==> roles[id].Worker?
    ensures IsHandler(id) ==> roles[id].Handler?
    ensures IsDevice(id) ==> roles[id].Device?
    ensures id == 0 || id == 1 || IsHandler(id) || IsDevice(id)
  {
  }

  /** A block that runs has a packet to take exactly if it is suspended. */
  lemma RunsAwake(b: Books, id: nat)
    requires Truthful(b.lists, b.states) && Orderly(b) && 0 <= id <= 5
    requires var state := StateAt(b.states, id); state & STATE_HELD == 0 && state != STATE_SUSPENDED
    ensures var state := StateAt(b.states, id);
            if state == STATE_SUSPENDED_RUNNABLE then At(b.lists, Queue(id)) != [] else state & STATE_SUSPENDED == 0
    ensures id == 0 ==> StateAt(b.states, id) == STATE_RUNNING != STATE_SUSPENDED_RUNNABLE && Count(b.roles) > 0
  {
    assert TruthAt(b.lists, b.states, id);
    SmallBits(StateAt(b.states, id));
    StateBits(StateAt(b.states, id));
    hide Sorted, RolesOk, Count;
  }

  /** A block that runs makes progress. */
  lemma BlockRuns(blocks: map<nat, Tcb>, all: set<Packet>, b: Books, t: Tcb)
    requires Crew(blocks) && InCrew(blocks, t) && Partition(b.lists, all) && Truthful(b.lists, b.states) && Orderly(b)
    requires var state := StateAt(b.states, t.id); state & STATE_HELD == 0 && state != STATE_SUSPENDED
    ensures Progress(blocks, b, t, TurnBlock(blocks, b, t))
  {
    hide *;
    Ids();
    PositionIs(blocks, t);
    OrderlyParts(b);
    RolesAre(b.roles, t.id);
    RunsAwake(b, t.id);
    TurnBlockIs(blocks, b, t);
    if StateAt(b.states, t.id) == STATE_SUSPENDED_RUNNABLE {
      BlockTakes(blocks, all, b, t);
    } else {
      BlockGoesOn(blocks, all, b, t);
    }
  }

  lemma BlockTakes(blocks: map<nat, Tcb>, all: set<Packet>, b: Books, t: Tcb)
    requires Crew(blocks) && InCrew(blocks, t) && Partition(b.lists, all) && Truthful(b.lists, b.states) && Orderly(b)
    requires StateAt(b.states, t.id) == STATE_SUSPENDED_RUNNABLE && At(b.lists, Queue(t.id)) != [] && 1 <= t.id <= 5
    ensures Progress(blocks, b, t, TurnTask(blocks, Fetched(b, t.id), t, At(b.lists, Queue(t.id))[0]))
  {
    hide *;
    Ids();
    OrderlyParts(b);
    RolesAre(b.roles, t.id);
    FetchedRoles(b, t.id);
    TurnRole(blocks, Fetched(b, t.id), t, At(b.lists, Queue(t.id))[0]);
    if t.id == 1 {
      WorkerSends(blocks, all, b, t, b.roles[1].v1, b.roles[1].v2);
    } else if IsHandler(t.id) {
      HandlerFiles(blocks, all, b, t);
    } else {
      DeviceHolds(blocks, all, b, t);
    }
  }

  lemma TurnRole(blocks: map<nat, Tcb>, b: Books, t: Tcb, packet: Packet?)
    requires t.id in b.roles
    ensures match b.roles[t.id]
            case Idle(seed, count) => TurnTask(blocks, b, t, packet) == TurnIdle(blocks, b, t, seed, count)
            case Device => TurnTask(blocks, b, t, packet) == TurnDevice(blocks, b, t, packet)
            case Worker(v1, v2) => TurnTask(blocks, b, t, packet) == TurnWorker(blocks, b, t, packet, v1, v2)
            case Handler => TurnTask(blocks, b, t, packet) == TurnHandler(blocks, b, t, packet)
  {
    hide TurnIdle, TurnDevice, TurnWorker, TurnHandler;
  }

  lemma BlockGoesOn(blocks: map<nat, Tcb>, all: set<Packet>, b: Books, t: Tcb)
    requires Crew(blocks) && InCrew(blocks, t) && Partition(b.lists, all) && Truthful(b.lists, b.states) && Orderly(b)
    requires StateAt(b.states, t.id) & STATE_HELD == 0 && StateAt(b.states, t.id) & STATE_SUSPENDED == 0 && t.id <= 5
    requires t.id == 0 ==> StateAt(b.states, t.id) == STATE_RUNNING && Count(b.roles) > 0
    ensures Progress(blocks, b, t, TurnTask(blocks, b, t, null))
  {
    hide *;
    Ids();
    OrderlyParts(b);
    RolesAre(b.roles, t.id);
    TurnRole(blocks, b, t, null);
    if t.id == 0 {
      IdleRuns(blocks, b, t, b.roles[0].seed, b.roles[0].count);
    } else if t.id == 1 {
      TurnWorkerIs(blocks, b, t, null, b.roles[1].v1, b.roles[1].v2);
      SuspendProgress(blocks, b, t);
    } else if IsHandler(t.id) {
      TurnHandlerIs(blocks, b, t, null);
      HandlerActs(blocks, all, b, t);
    } else if At(b.lists, Pending(t.id)) != [] {
      DeviceSends(blocks, all, b, t);
    } else {
      TurnDeviceIs(blocks, b, t, null);
      SuspendProgress(blocks, b, t);
    }
  }

  /** Every turn keeps the order and makes the measure smaller. */
  lemma TurnProgresses(blocks: map<nat, Tcb>, all: set<Packet>, b: Books, t: Tcb)
    requires Crew(blocks) && InCrew(blocks, t) && Partition(b.lists, all) && Truthful(b.lists, b.states) && Orderly(b)
    ensures Progress(blocks, b, t, Turn(blocks, b, t))
  {
    hide *;
    TurnIs(blocks, b, t);
    var state := StateAt(b.states, t.id);
    if state & STATE_HELD != 0 || state == STATE_SUSPENDED {
      OrderlyParts(b);
      PositionIs(blocks, t);
      CrewIs(blocks, t.id);
      MakesProgress(blocks, b, t, Outcome(b, t.link));
    } else {
      BlockRuns(blocks, all, b, t);
    }
  }

  lemma CrewMember(blocks: map<nat, Tcb>, t: Tcb)
    requires t.id in blocks && blocks[t.id] == t
    ensures InCrew(blocks, t)
  {
  }

  lemma ProgressIs(blocks: map<nat, Tcb>, b: Books, t: Tcb, o: Outcome)
    requires Progress(blocks, b, t, o)
    ensures Orderly(o.books) && TurnsLeft(o) < TurnsLeft(Outcome(b, t))
  {
    hide Orderly, TurnsLeft;
  }

  lemma BlockSays(queue: Packet?, state: bv8, task: Task, id: nat, lists: Lists)
    requires BlockOk(queue, state, task, id, lists)
    ensures state & STATE_RUNNABLE != 0 <==> At(lists, Queue(id)) != []
    ensures RoleOf(task).Device? ==> |At(lists, Pending(id))| <= 1 && (state & STATE_SUSPENDED != 0 ==> At(lists, Pending(id)) == [])
  {
  }

  lemma TruthOfOne(lists: Lists, states: map<nat, bv8>, roles: map<nat, Role>, id: nat)
    requires RolesOk(roles) && id < 6 && id in roles
    requires StateAt(states, id) & STATE_RUNNABLE != 0 <==> At(lists, Queue(id)) != []
    requires roles[id].Device? ==> |At(lists, Pending(id))| <= 1
    requires roles[id].Device? && StateAt(states, id) & STATE_SUSPENDED != 0 ==> At(lists, Pending(id)) == []
    ensures TruthAt(lists, states, id)
  {
    hide StateAt, At;
  }

  lemma TruthOfAll(lists: Lists, states: map<nat, bv8>)
    requires forall id: nat :: id < 6 ==> TruthAt(lists, states, id)
    ensures Truthful(lists, states)
  {
    hide TruthAt;
  }
}
