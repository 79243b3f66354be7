/**
  The scheduler's state as plain values, and one turn of the scheduler as a function on
  it: queues are sequences, a block is its number, and nothing is linked.
*/
module RichardsBooks {
  import opened JsInt
  import opened RichardsPackets
  import opened RichardsTasks

  /** What a task knows besides its packets. */
  datatype Role = Idle(seed: int, count: int) | Device | Worker(v1: nat, v2: int) | Handler

  /** What is written on a packet. */
  datatype Mail = Mail(id: nat, a1: int, a2: seq<int>)

  datatype Books = Books(
    lists: Lists, states: map<nat, bv8>, roles: map<nat, Role>, mails: map<Packet, Mail>, holds: int, sends: int)

  /** The books after a run, and the block that is looked at next. */
  datatype Outcome = Outcome(books: Books, next: Tcb?)

  // ----- single entries -----

  function Put(lists: Lists, s: Slot, p: Packet): Lists {
    lists[s := At(lists, s) + [p]]
  }

  function Rest(lists: Lists, s: Slot): Lists {
    if At(lists, s) == [] then lists else lists[s := At(lists, s)[1..]]
  }

  function StateAt(states: map<nat, bv8>, id: nat): bv8 {
    if id in states then states[id] else STATE_SUSPENDED
  }

  function MailAt(mails: map<Packet, Mail>, p: Packet): Mail {
    if p in mails then mails[p] else Mail(0, 0, [])
  }

  function Readdressed(mails: map<Packet, Mail>, p: Packet, id: nat): map<Packet, Mail> {
    mails[p := MailAt(mails, p).(id := id)]
  }

  /** The letter n steps after v; after the last one comes the first one. */
  function Letter(v: int, n: nat): int {
    if n == 0 then v else
    var w := Letter(v, n - 1) + 1;
    if w > 26 then 1 else w
  }

  /** Letters go round the alphabet. */
  lemma {:induction false} LetterCycle(v: int, n: nat)
    requires 0 <= v <= 26 && n > 0
    ensures Letter(v, n) == (v + n - 1) % 26 + 1
  {
    if n > 1 {
      LetterCycle(v, n - 1);
    } else {
      assert Letter(v, 0) == v;
    }
  }

  /** A packet with the next letters, none of them read yet. */
  function Lettered(mails: map<Packet, Mail>, p: Packet, v: int): map<Packet, Mail> {
    mails[p := Mail(MailAt(mails, p).id, 0, seq(DATA_SIZE, i requires i >= 0 => Letter(v, i + 1)))]
  }

  /** The work packet's next letter, copied to a device packet. */
  function Copied(mails: map<Packet, Mail>, v: Packet, work: Packet): map<Packet, Mail> {
    var from := MailAt(mails, work);
    var letter := if 0 <= from.a1 < |from.a2| then from.a2[from.a1] else 0;
    mails[v := MailAt(mails, v).(a1 := letter)][work := from.(a1 := from.a1 + 1)]
  }

  /** Device packets get the next letters of a work packet, one after the other. */
  function AllCopied(mails: map<Packet, Mail>, vs: seq<Packet>, work: Packet): map<Packet, Mail>
    decreases |vs|
  {
    if vs == [] then mails else Copied(AllCopied(mails, vs[..|vs| - 1], work), vs[|vs| - 1], work)
  }

  /** The letter at the read position goes to v, the read position moves on, and nothing else is written. */
  lemma CopiedLetter(mails: map<Packet, Mail>, v: Packet, work: Packet)
    requires v != work && 0 <= MailAt(mails, work).a1 < |MailAt(mails, work).a2|
    ensures var now := Copied(mails, v, work);
            var from := MailAt(mails, work);
            && MailAt(now, v) == Mail(MailAt(mails, v).id, from.a2[from.a1], MailAt(mails, v).a2)
            && MailAt(now, work) == Mail(from.id, from.a1 + 1, from.a2)
            && forall p :: p in mails && p != v && p != work ==> now[p] == mails[p]
  {
  }

  /** The worker's letters: four in a row, and none read yet. */
  lemma LetteredInOrder(mails: map<Packet, Mail>, p: Packet, v: int)
    requires 0 <= v <= 26
    ensures var now := Lettered(mails, p, v);
            && MailAt(now, p).id == MailAt(mails, p).id && MailAt(now, p).a1 == 0 && |MailAt(now, p).a2| == DATA_SIZE
            && (forall i :: 0 <= i < DATA_SIZE ==> MailAt(now, p).a2[i] == (v + i) % 26 + 1)
            && forall q :: q in mails && q != p ==> now[q] == mails[q]
  {
    LetterCycle(v, 1);
    LetterCycle(v, 2);
    LetterCycle(v, 3);
    LetterCycle(v, 4);
    hide Letter;
  }

  /** The four letters that devices get from one work packet are four letters in a row of the alphabet. */
  lemma {:induction false} FourLettersInOrder(mails: map<Packet, Mail>, work: Packet, v: int, vs: seq<Packet>)
    requires 0 <= v <= 26 && |vs| <= DATA_SIZE && work !in vs && forall i, j :: 0 <= i < j < |vs| ==> vs[i] != vs[j]
    ensures var now := AllCopied(Lettered(mails, work, v), vs, work);
            && MailAt(now, work).a1 == |vs| && MailAt(now, work).a2 == MailAt(Lettered(mails, work, v), work).a2
            && forall i :: 0 <= i < |vs| ==> MailAt(now, vs[i]).a1 == (v + i) % 26 + 1
    decreases |vs|
  {
    LetteredInOrder(mails, work, v);
    var written := Lettered(mails, work, v);
    hide Lettered;
    if vs != [] {
      var n := |vs| - 1;
      FourLettersInOrder(mails, work, v, vs[..n]);
      var before := AllCopied(written, vs[..n], work);
      CopiedLetter(before, vs[n], work);
      assert AllCopied(written, vs, work) == Copied(before, vs[n], work);
      hide Copied, AllCopied;
      forall i | 0 <= i < n ensures MailAt(AllCopied(written, vs, work), vs[i]).a1 == (v + i) % 26 + 1 {
        assert vs[i] == vs[..n][i];
        AllCopiedHas(written, vs[..n], work, i);
      }
    }
  }

  lemma {:induction false} AllCopiedHas(mails: map<Packet, Mail>, vs: seq<Packet>, work: Packet, i: nat)
    requires i < |vs|
    ensures vs[i] in AllCopied(mails, vs, work)
    decreases |vs|
  {
    if i < |vs| - 1 {
      AllCopiedHas(mails, vs[..|vs| - 1], work, i);
    }
  }

  function Seeded(seed: int): int {
    if And(seed, 1) == 0 then Shr(seed, 1) else Xor(Shr(seed, 1), 0xD008)
  }

  /** The seed's bits move down by one, and an odd seed flips bits 3, 12, 14 and 15; the bit that falls out chooses device 4 or 5. */
  lemma SeededBits(seed: nat, k: nat)
    requires seed < 0x1_0000
    ensures DeviceFor(seed) == 4 + seed % 2
    ensures 0 <= Seeded(seed) < 0x1_0000
    ensures Bit(Seeded(seed), k) == (Bit(seed, k + 1) + if seed % 2 == 1 && k in {3, 12, 14, 15} then 1 else 0) % 2
  {
    hide *;
    SeededIs(seed);
    Pow2Small();
    if seed % 2 == 1 {
      XorNatBelow(seed / 2, 0xD008, 16);
      XorBit(seed / 2, 0xD008, k);
      MaskBits(k);
    }
    BitHalf(seed, k + 1);
  }

  lemma SeededIs(seed: nat)
    requires seed < 0x1_0000
    ensures Seeded(seed) == if seed % 2 == 1 then XorNat(seed / 2, 0xD008) else seed / 2
    ensures DeviceFor(seed) == 4 + seed % 2
  {
    Pow2One();
    AndMask(seed, 1);
    XorUnsigned(seed / 2, 0xD008);
    hide And, Xor, XorNat, Pow2;
  }

  lemma Pow2Small()
    ensures Pow2(16) == 0x1_0000
  {
    assert Pow2(8) == 0x100;
  }

  lemma MaskBits(k: nat)
    ensures Bit(0xD008, k) == if k in {3, 12, 14, 15} then 1 else 0
  {
    if k < 16 {
      assert Pow2(8) == 0x100;
    } else {
      Pow2AtMost(16, k);
      Pow2Small();
      DivModUnique(0xD008, Pow2(k), 0, 0xD008);
      hide Pow2;
    }
  }

  /** Different seeds have different successors, so no two runs of the register meet. */
  lemma SeededInjective(a: nat, b: nat)
    requires a < 0x1_0000 && b < 0x1_0000 && Seeded(a) == Seeded(b)
    ensures a == b
  {
    hide *;
    SeededIs(a);
    SeededIs(b);
    SeededBits(a, 15);
    SeededBits(b, 15);
    TopBit(a);
    TopBit(b);
    if a % 2 == 1 {
      XorNatTwice(a / 2, 0xD008);
      XorNatTwice(b / 2, 0xD008);
    }
  }

  lemma TopBit(seed: nat)
    requires seed < 0x1_0000
    ensures Bit(seed, 16) == 0
  {
    Pow2Small();
    DivModUnique(seed, Pow2(16), 0, seed);
    hide Pow2;
  }

  function DeviceFor(seed: int): nat {
    if And(seed, 1) == 0 then ID_DEVICE_A else ID_DEVICE_B
  }

  function Other(id: nat): nat {
    if id == ID_HANDLER_A then ID_HANDLER_B else ID_HANDLER_A
  }

  // ----- what the scheduler's operations do -----

  /** Of a block and the running one, the one that runs next: the block needs a higher priority. */
  function Higher(t: Tcb, running: Tcb): Tcb {
    if t.priority > running.priority then t else running
  }

  function Hold(b: Books, t: Tcb): Outcome {
    Outcome(b.(states := b.states[t.id := StateAt(b.states, t.id) | STATE_HELD], holds := b.holds + 1), t.link)
  }

  function Suspend(b: Books, t: Tcb): Outcome {
    Outcome(b.(states := b.states[t.id := StateAt(b.states, t.id) | STATE_SUSPENDED]), t)
  }

  function Unhold(blocks: map<nat, Tcb>, b: Books, id: nat, running: Tcb): Outcome {
    if id !in blocks then Outcome(b, null)
    else Outcome(b.(states := b.states[id := StateAt(b.states, id) & STATE_NOT_HELD]), Higher(blocks[id], running))
  }

  /** A block's state after it was sent a packet; one that had packets was runnable already. */
  function Woken(state: bv8, queue: seq<Packet>): bv8 {
    if queue == [] then state | STATE_RUNNABLE else state
  }

  /** The packet goes to the end of the queue of the task it is addressed to, with the sender's address. */
  function Send(blocks: map<nat, Tcb>, b: Books, p: Packet, running: Tcb): Outcome {
    var to := MailAt(b.mails, p).id;
    if to !in blocks then Outcome(b, null) else
    var queue := At(b.lists, Queue(to));
    Outcome(b.(lists := Put(b.lists, Queue(to), p),
               states := b.states[to := Woken(StateAt(b.states, to), queue)],
               mails := Readdressed(b.mails, p, running.id),
               sends := b.sends + 1),
            if queue == [] then Higher(blocks[to], running) else running)
  }

  // ----- what the tasks do -----

  function TurnIdle(blocks: map<nat, Tcb>, b: Books, t: Tcb, seed: int, count: int): Outcome {
    if count == 1 then Hold(b.(roles := b.roles[t.id := Idle(seed, 0)]), t)
    else Unhold(blocks, b.(roles := b.roles[t.id := Idle(Seeded(seed), count - 1)]), DeviceFor(seed), t)
  }

  function TurnDevice(blocks: map<nat, Tcb>, b: Books, t: Tcb, packet: Packet?): Outcome {
    var pending := At(b.lists, Pending(t.id));
    if packet != null then Hold(b.(lists := Put(b.lists, Pending(t.id), packet)), t)
    else if pending == [] then Suspend(b, t)
    else Send(blocks, b.(lists := Rest(b.lists, Pending(t.id))), pending[0], t)
  }

  function TurnWorker(blocks: map<nat, Tcb>, b: Books, t: Tcb, packet: Packet?, v1: nat, v2: int): Outcome {
    if packet == null then Suspend(b, t) else Send(blocks, Written(b, t.id, packet, v1, v2), packet, t)
  }

  /** The packet is for the other handler now, and has the worker's next letters. */
  function Written(b: Books, id: nat, packet: Packet, v1: nat, v2: int): Books {
    var to := Other(v1);
    b.(roles := b.roles[id := Worker(to, Letter(v2, DATA_SIZE))], mails := Lettered(Readdressed(b.mails, packet, to), packet, v2))
  }

  function FileSlot(id: nat, packet: Packet): Slot {
    if packet.kind == WorkKind then Work(id) else Data(id)
  }

  function TurnHandler(blocks: map<nat, Tcb>, b: Books, t: Tcb, packet: Packet?): Outcome {
    TurnFiled(blocks, if packet == null then b else b.(lists := Put(b.lists, FileSlot(t.id, packet), packet)), t)
  }

  function TurnFiled(blocks: map<nat, Tcb>, b: Books, t: Tcb): Outcome {
    var work, data := At(b.lists, Work(t.id)), At(b.lists, Data(t.id));
    if work == [] then Suspend(b, t)
    else if MailAt(b.mails, work[0]).a1 >= DATA_SIZE then
      Send(blocks, b.(lists := Rest(b.lists, Work(t.id))), work[0], t)
    else if data == [] then Suspend(b, t)
    else Send(blocks, b.(lists := Rest(b.lists, Data(t.id)), mails := Copied(b.mails, data[0], work[0])), data[0], t)
  }

  function TurnTask(blocks: map<nat, Tcb>, b: Books, t: Tcb, packet: Packet?): Outcome {
    if t.id !in b.roles then Outcome(b, null) else
    match b.roles[t.id]
    case Idle(seed, count) => TurnIdle(blocks, b, t, seed, count)
    case Device => TurnDevice(blocks, b, t, packet)
    case Worker(v1, v2) => TurnWorker(blocks, b, t, packet, v1, v2)
    case Handler => TurnHandler(blocks, b, t, packet)
  }

  /** The state of a block that runs and has these packets left. */
  function Awake(rest: seq<Packet>): bv8 {
    if rest == [] then STATE_RUNNING else STATE_RUNNABLE
  }

  /** A block that is suspended and has packets takes the first one. */
  function Fetched(b: Books, id: nat): Books {
    var lists := Rest(b.lists, Queue(id));
    b.(lists := lists, states := b.states[id := Awake(At(lists, Queue(id)))])
  }

  function TurnBlock(blocks: map<nat, Tcb>, b: Books, t: Tcb): Outcome {
    var queue := At(b.lists, Queue(t.id));
    if StateAt(b.states, t.id) == STATE_SUSPENDED_RUNNABLE && queue != [] then
      TurnTask(blocks, Fetched(b, t.id), t, queue[0])
    else
      TurnTask(blocks, b, t, null)
  }

  /** One turn of the scheduler's loop. */
  function Turn(blocks: map<nat, Tcb>, b: Books, t: Tcb): Outcome {
    var state := StateAt(b.states, t.id);
    if state & STATE_HELD != 0 || state == STATE_SUSPENDED then Outcome(b, t.link)
    else TurnBlock(blocks, b, t)
  }

  function Turns(blocks: map<nat, Tcb>, o: Outcome, n: nat): Outcome
    decreases n
  {
    if n == 0 || o.next == null then o else Turns(blocks, Turn(blocks, o.books, o.next), n - 1)
  }

  /** The loop takes its turns one after the other. */
  lemma {:induction false} TurnsLast(blocks: map<nat, Tcb>, o: Outcome, n: nat)
    ensures var o1 := Turns(blocks, o, n);
            Turns(blocks, o, n + 1) == if o1.next == null then o1 else Turn(blocks, o1.books, o1.next)
    decreases n
  {
    if n > 0 && o.next != null {
      TurnsLast(blocks, Turn(blocks, o.books, o.next), n - 1);
    }
  }

  // ----- the books of the objects, and the writes -----

  function RoleOf(task: Task): Role {
    match task
    case IdleTask(seed, count) => Idle(seed, count)
    case DeviceTask(_) => Device
    case WorkerTask(v1, v2) => Worker(v1, v2)
    case HandlerTask(_, _) => Handler
  }

  ghost function States(blocks: map<nat, Tcb>): map<nat, bv8>
    reads blocks.Values`state
  {
    map id | id in blocks :: blocks[id].state
  }

  ghost function Roles(blocks: map<nat, Tcb>): map<nat, Role>
    reads blocks.Values`task
  {
    map id | id in blocks :: RoleOf(blocks[id].task)
  }

  ghost function Mails(packets: set<Packet>): map<Packet, Mail>
    reads packets`id, packets`a1, packets`a2
  {
    map p | p in packets :: Mail(p.id, p.a1, p.a2)
  }

  lemma EntryIs(blocks: map<nat, Tcb>, tcbs: set<Tcb>, t: Tcb)
    requires BlocksOk(blocks, tcbs) && t in tcbs
    ensures StateAt(States(blocks), t.id) == t.state && t.id in Roles(blocks) && Roles(blocks)[t.id] == RoleOf(t.task)
  {
  }

  lemma MailIs(packets: set<Packet>, p: Packet)
    requires p in packets
    ensures MailAt(Mails(packets), p) == Mail(p.id, p.a1, p.a2)
  {
  }

  method SetState(t: Tcb, state: bv8, ghost blocks: map<nat, Tcb>, ghost tcbs: set<Tcb>)
    requires BlocksOk(blocks, tcbs) && t in tcbs
    modifies t`state
    ensures t.state == state && States(blocks) == old(States(blocks))[t.id := state]
  {
    t.state := state;
    assert States(blocks) == old(States(blocks))[t.id := state];
  }

  /** The writes of a block that takes its first packet. */
  method DropFirst(tcb: Tcb, ghost lists: Lists, ghost blocks: map<nat, Tcb>, ghost tcbs: set<Tcb>) returns (packet: Packet)
    requires BlocksOk(blocks, tcbs) && tcb in tcbs
    requires TaskOk(tcb.task, STATE_SUSPENDED_RUNNABLE, tcb.id, lists) && !tcb.task.IdleTask? && !tcb.isIdle
    requires var l := At(lists, Queue(tcb.id)); l != [] && tcb.queue == l[0] && l[0].link == First(l[1..])
    modifies tcb`queue, tcb`state
    ensures packet == At(lists, Queue(tcb.id))[0] && tcb.state & STATE_SUSPENDED == 0
    ensures TcbOk(tcb, lists[Queue(tcb.id) := At(lists, Queue(tcb.id))[1..]])
    ensures States(blocks) == old(States(blocks))[tcb.id := Awake(At(lists, Queue(tcb.id))[1..])]
  {
    hide *;
    packet := tcb.queue;
    tcb.queue := packet.link;
    AwakeIs(At(lists, Queue(tcb.id))[1..]);
    if tcb.queue == null {
      SetState(tcb, STATE_RUNNING, blocks, tcbs);
    } else {
      SetState(tcb, STATE_RUNNABLE, blocks, tcbs);
    }
    QueueTaken(tcb, lists, At(lists, Queue(tcb.id))[1..]);
  }

  lemma AwakeIs(rest: seq<Packet>)
    ensures Awake(rest) == if First(rest) == null then STATE_RUNNING else STATE_RUNNABLE
  {
  }

  method SetTask(t: Tcb, task: Task, ghost blocks: map<nat, Tcb>, ghost tcbs: set<Tcb>)
    requires BlocksOk(blocks, tcbs) && t in tcbs
    requires task.WorkerTask? == t.task.WorkerTask? && task.IdleTask? == t.task.IdleTask?
    modifies t`task
    ensures t.task == task && (old(WorkersOk(blocks, tcbs)) ==> WorkersOk(blocks, tcbs))
    ensures Roles(blocks) == old(Roles(blocks))[t.id := RoleOf(task)]
    ensures RoleOf(task) == RoleOf(old(t.task)) ==> Roles(blocks) == old(Roles(blocks))
  {
    t.task := task;
    assert Roles(blocks) == old(Roles(blocks))[t.id := RoleOf(task)];
    assert old(Roles(blocks))[t.id] == RoleOf(old(t.task));
    assert RoleOf(task) == RoleOf(old(t.task)) ==> Roles(blocks) == old(Roles(blocks));
  }

  method SetId(p: Packet, id: nat, ghost blocks: map<nat, Tcb>, ghost packets: set<Packet>)
    requires p in packets
    modifies p`id
    ensures p.id == id && (old(Addressed(blocks, packets)) && Takes(blocks, id) ==> Addressed(blocks, packets))
    ensures Mails(packets) == Readdressed(old(Mails(packets)), p, id)
  {
    p.id := id;
    assert Mails(packets) == Readdressed(old(Mails(packets)), p, id);
  }

  /** The payload a worker writes: four letters, continuing after the last one used. */
  method WriteLetters(p: Packet, v: int, ghost packets: set<Packet>) returns (v2: int)
    requires PayloadOk(packets) && p in packets
    modifies p`a1, p`a2
    ensures PayloadOk(packets)
    ensures v2 == Letter(v, DATA_SIZE) && Mails(packets) == Lettered(old(Mails(packets)), p, v)
    ensures p.a1 == 0 && |p.a2| == DATA_SIZE && forall i :: 0 <= i < DATA_SIZE ==> p.a2[i] == Letter(v, i + 1)
  {
    v2 := v;
    p.a1 := 0;
    var i := 0;
    while i < DATA_SIZE
      invariant 0 <= i <= DATA_SIZE && p.a1 == 0 && |p.a2| == DATA_SIZE && PayloadOk(packets)
      invariant v2 == Letter(v, i) && forall j :: 0 <= j < i ==> p.a2[j] == Letter(v, j + 1)
    {
      v2 := v2 + 1;
      if v2 > 26 {
        v2 := 1;
      }
      p.a2 := p.a2[i := v2];
      i := i + 1;
    }
    assert p.a2 == seq(DATA_SIZE, i requires i >= 0 => Letter(v, i + 1));
    assert Mails(packets) == Lettered(old(Mails(packets)), p, v);
  }

  /** One letter of a work packet goes into a device packet. */
  method CopyLetter(v: Packet, work: Packet, count: int, ghost packets: set<Packet>)
    requires PayloadOk(packets) && v in packets && work in packets && v.kind.DeviceKind? && work.kind.WorkKind?
    requires count == work.a1 < DATA_SIZE
    modifies v`a1, work`a1
    ensures PayloadOk(packets) && Mails(packets) == Copied(old(Mails(packets)), v, work)
    ensures v.a1 == work.a2[count] && work.a1 == count + 1
  {
    v.a1 := work.a2[count];
    work.a1 := count + 1;
    assert Mails(packets) == Copied(old(Mails(packets)), v, work);
  }

  // ----- the functions, for proofs in which they are hidden -----

  lemma PutIs(lists: Lists, s: Slot, p: Packet)
    ensures Put(lists, s, p) == lists[s := At(lists, s) + [p]]
    ensures At(lists, s) == [] ==> Put(lists, s, p) == lists[s := [p]]
  {
    assert [] + [p] == [p];
  }

  lemma SameRole(task: Task, now: Task)
    requires (task.DeviceTask? && now.DeviceTask?) || (task.HandlerTask? && now.HandlerTask?)
    ensures RoleOf(task) == RoleOf(now)
  {
  }

  lemma RestIs(lists: Lists, s: Slot)
    ensures At(lists, s) != [] ==> Rest(lists, s) == lists[s := At(lists, s)[1..]]
  {
  }

  lemma HigherIs(t: Tcb, running: Tcb)
    ensures Higher(t, running) == if t.priority > running.priority then t else running
  {
  }

  lemma WokenIs(state: bv8, queue: seq<Packet>)
    ensures Woken(state, queue) == if queue == [] then state | STATE_RUNNABLE else state
  {
  }

  lemma HoldIs(b: Books, t: Tcb)
    ensures Hold(b, t) == Outcome(b.(states := b.states[t.id := StateAt(b.states, t.id) | STATE_HELD], holds := b.holds + 1), t.link)
  {
  }

  lemma SuspendIs(b: Books, t: Tcb)
    ensures Suspend(b, t) == Outcome(b.(states := b.states[t.id := StateAt(b.states, t.id) | STATE_SUSPENDED]), t)
  {
  }

  lemma UnholdIs(blocks: map<nat, Tcb>, b: Books, id: nat, running: Tcb)
    ensures id !in blocks ==> Unhold(blocks, b, id, running) == Outcome(b, null)
    ensures id in blocks ==>
              Unhold(blocks, b, id, running) ==
              Outcome(b.(states := b.states[id := StateAt(b.states, id) & STATE_NOT_HELD]),
                      if blocks[id].priority > running.priority then blocks[id] else running)
  {
  }

  lemma SendIs(blocks: map<nat, Tcb>, b: Books, p: Packet, running: Tcb)
    ensures var to := MailAt(b.mails, p).id;
            to !in blocks ==> Send(blocks, b, p, running) == Outcome(b, null)
    ensures var to := MailAt(b.mails, p).id;
            var queue := At(b.lists, Queue(to));
            to in blocks ==>
              Send(blocks, b, p, running) ==
              Outcome(b.(lists := Put(b.lists, Queue(to), p), states := b.states[to := Woken(StateAt(b.states, to), queue)],
                         mails := Readdressed(b.mails, p, running.id), sends := b.sends + 1),
                      if queue == [] then Higher(blocks[to], running) else running)
  {
  }

  lemma FetchedIs(b: Books, id: nat)
    ensures var l := At(b.lists, Queue(id));
            l != [] ==> Fetched(b, id) == b.(lists := b.lists[Queue(id) := l[1..]], states := b.states[id := Awake(l[1..])])
  {
  }

  lemma FileSlotIs(id: nat, packet: Packet)
    ensures packet.kind == WorkKind ==> FileSlot(id, packet) == Work(id)
    ensures packet.kind == DeviceKind ==> FileSlot(id, packet) == Data(id)
  {
  }

  lemma SameState(blocks: map<nat, Tcb>, tcbs: set<Tcb>, t: Tcb)
    requires BlocksOk(blocks, tcbs) && t in tcbs
    ensures States(blocks)[t.id := t.state] == States(blocks)
  {
  }

  lemma TurnIdleIs(blocks: map<nat, Tcb>, b: Books, t: Tcb, seed: int, count: int)
    ensures count == 1 ==> TurnIdle(blocks, b, t, seed, count) == Hold(b.(roles := b.roles[t.id := RoleOf(IdleTask(seed, 0))]), t)
    ensures count != 1 && And(seed, 1) == 0 ==>
              TurnIdle(blocks, b, t, seed, count) ==
              Unhold(blocks, b.(roles := b.roles[t.id := RoleOf(IdleTask(Shr(seed, 1), count - 1))]), ID_DEVICE_A, t)
    ensures count != 1 && And(seed, 1) != 0 ==>
              TurnIdle(blocks, b, t, seed, count) ==
              Unhold(blocks, b.(roles := b.roles[t.id := RoleOf(IdleTask(Xor(Shr(seed, 1), 0xD008), count - 1))]), ID_DEVICE_B, t)
  {
    hide Hold, Unhold, And, Shr, Xor;
  }

  lemma TurnDeviceIs(blocks: map<nat, Tcb>, b: Books, t: Tcb, packet: Packet?)
    ensures packet != null ==>
              TurnDevice(blocks, b, t, packet) == Hold(b.(lists := Put(b.lists, Pending(t.id), packet)), t)
    ensures packet == null && At(b.lists, Pending(t.id)) == [] ==> TurnDevice(blocks, b, t, packet) == Suspend(b, t)
    ensures packet == null && At(b.lists, Pending(t.id)) != [] ==>
              TurnDevice(blocks, b, t, packet) ==
              Send(blocks, b.(lists := Rest(b.lists, Pending(t.id))), At(b.lists, Pending(t.id))[0], t)
  {
    hide Hold, Suspend, Send;
  }

  lemma TurnWorkerIs(blocks: map<nat, Tcb>, b: Books, t: Tcb, packet: Packet?, v1: nat, v2: int)
    ensures packet == null ==> TurnWorker(blocks, b, t, packet, v1, v2) == Suspend(b, t)
    ensures packet != null ==>
              TurnWorker(blocks, b, t, packet, v1, v2) ==
              Send(blocks, Written(b, t.id, packet, v1, v2), packet, t)
  {
    hide Suspend, Send;
  }

  lemma WrittenIs(b: Books, id: nat, packet: Packet, v1: nat, v2: int)
    ensures var to := if v1 == ID_HANDLER_A then ID_HANDLER_B else ID_HANDLER_A;
            Written(b, id, packet, v1, v2) ==
            b.(roles := b.roles[id := RoleOf(WorkerTask(to, Letter(v2, DATA_SIZE)))],
               mails := Lettered(Readdressed(b.mails, packet, to), packet, v2))
  {
  }

  lemma TurnHandlerIs(blocks: map<nat, Tcb>, b: Books, t: Tcb, packet: Packet?)
    ensures packet == null ==> TurnHandler(blocks, b, t, packet) == TurnFiled(blocks, b, t)
    ensures packet != null ==>
              TurnHandler(blocks, b, t, packet) == TurnFiled(blocks, b.(lists := Put(b.lists, FileSlot(t.id, packet), packet)), t)
  {
    hide TurnFiled;
  }

  lemma TurnFiledIs(blocks: map<nat, Tcb>, b: Books, t: Tcb)
    ensures var work, data := At(b.lists, Work(t.id)), At(b.lists, Data(t.id));
            (work == [] ==> TurnFiled(blocks, b, t) == Suspend(b, t)) &&
            (work != [] && MailAt(b.mails, work[0]).a1 >= DATA_SIZE ==>
               TurnFiled(blocks, b, t) == Send(blocks, b.(lists := Rest(b.lists, Work(t.id))), work[0], t)) &&
            (work != [] && MailAt(b.mails, work[0]).a1 < DATA_SIZE && data == [] ==> TurnFiled(blocks, b, t) == Suspend(b, t)) &&
            (work != [] && MailAt(b.mails, work[0]).a1 < DATA_SIZE && data != [] ==>
               TurnFiled(blocks, b, t) ==
               Send(blocks, b.(lists := Rest(b.lists, Data(t.id)), mails := Copied(b.mails, data[0], work[0])), data[0], t))
  {
    hide Suspend, Send, Copied, Rest;
  }

  lemma TurnTaskIs(blocks: map<nat, Tcb>, b: Books, t: Tcb, packet: Packet?, task: Task)
    requires t.id in b.roles && b.roles[t.id] == RoleOf(task)
    ensures task.IdleTask? ==> TurnTask(blocks, b, t, packet) == TurnIdle(blocks, b, t, task.seed, task.count)
    ensures task.DeviceTask? ==> TurnTask(blocks, b, t, packet) == TurnDevice(blocks, b, t, packet)
    ensures task.WorkerTask? ==> TurnTask(blocks, b, t, packet) == TurnWorker(blocks, b, t, packet, task.v1, task.v2)
    ensures task.HandlerTask? ==> TurnTask(blocks, b, t, packet) == TurnHandler(blocks, b, t, packet)
  {
    hide TurnIdle, TurnDevice, TurnWorker, TurnHandler;
  }

  lemma TurnBlockIs(blocks: map<nat, Tcb>, b: Books, t: Tcb)
    ensures var queue := At(b.lists, Queue(t.id));
            if StateAt(b.states, t.id) == STATE_SUSPENDED_RUNNABLE && queue != [] then
              TurnBlock(blocks, b, t) == TurnTask(blocks, Fetched(b, t.id), t, queue[0])
            else
              TurnBlock(blocks, b, t) == TurnTask(blocks, b, t, null)
  {
    hide TurnTask, Fetched;
  }

  lemma TurnIs(blocks: map<nat, Tcb>, b: Books, t: Tcb)
    ensures var state := StateAt(b.states, t.id);
            Turn(blocks, b, t) ==
            if state & STATE_HELD != 0 || state == STATE_SUSPENDED then Outcome(b, t.link) else TurnBlock(blocks, b, t)
  {
    hide TurnBlock;
  }

  lemma TurnsNone(blocks: map<nat, Tcb>, o: Outcome)
    ensures Turns(blocks, o, 0) == o
  {
  }

  lemma TurnsStopped(blocks: map<nat, Tcb>, o: Outcome, n: nat, m: nat)
    requires Turns(blocks, o, n).next == null && m >= n
    ensures Turns(blocks, o, m) == Turns(blocks, o, n)
    decreases m
  {
    if m > n {
      TurnsStopped(blocks, o, n, m - 1);
      TurnsLast(blocks, o, m - 1);
    }
  }

  lemma FetchedRoles(b: Books, id: nat)
    ensures Fetched(b, id).roles == b.roles
  {
  }

  lemma HeldOrSuspended(t: Tcb)
    ensures t.IsHeldOrSuspended() <==> t.state & STATE_HELD != 0 || t.state == STATE_SUSPENDED
  {
  }
}
