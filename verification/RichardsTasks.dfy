/**
  Tasks of the Richards benchmark: task control blocks, their state bits and queues, and
  the four kinds of tasks.  The ghost lists say which packets are where.
*/
module RichardsTasks {
  import opened RichardsPackets

  const ID_HANDLER_A: nat := 2
  const ID_HANDLER_B: nat := 3
  const ID_DEVICE_A: nat := 4
  const ID_DEVICE_B: nat := 5

  const STATE_RUNNING: bv8 := 0
  const STATE_RUNNABLE: bv8 := 1
  const STATE_SUSPENDED: bv8 := 2
  const STATE_HELD: bv8 := 4
  const STATE_SUSPENDED_RUNNABLE: bv8 := 3
  const STATE_NOT_HELD: bv8 := 0xFB

  datatype Task =
    | IdleTask(seed: int, count: int)
    | DeviceTask(v: Packet?)
    | WorkerTask(v1: nat, v2: int)
    | HandlerTask(work: Packet?, data: Packet?)

  class Tcb {
    const link: Tcb?
    const id: nat
    const priority: int
    var queue: Packet?
    var state: bv8
    var task: Task
    ghost const isIdle: bool

    constructor (link: Tcb?, id: nat, priority: int, queue: Packet?, task: Task)
      ensures this.link == link && this.id == id && this.priority == priority && this.queue == queue && this.task == task
      ensures state == if queue == null then STATE_SUSPENDED else STATE_SUSPENDED_RUNNABLE
      ensures isIdle == task.IdleTask?
    {
      this.link := link;
      this.id := id;
      this.priority := priority;
      this.queue := queue;
      this.task := task;
      isIdle := task.IdleTask?;
      state := if queue == null then STATE_SUSPENDED else STATE_SUSPENDED_RUNNABLE;
    }

    predicate IsHeldOrSuspended()
      reads this
    {
      state & STATE_HELD != 0 || state == STATE_SUSPENDED
    }
  }

  /** The lists of a block are where its fields say, and the runnable bit says whether the queue has packets. */
  ghost predicate TcbOk(t: Tcb, lists: Lists)
    reads t
  {
    BlockOk(t.queue, t.state, t.task, t.id, lists) && (t.isIdle <==> t.task.IdleTask?)
  }

  ghost predicate BlockOk(queue: Packet?, state: bv8, task: Task, id: nat, lists: Lists) {
    && queue == First(At(lists, Queue(id)))
    && (state & STATE_RUNNABLE != 0 <==> queue != null)
    && TaskOk(task, state, id, lists)
  }

  /** A suspended device has no packet, so a new one does not overwrite it; an idle task has no packets at all. */
  ghost predicate TaskOk(task: Task, state: bv8, id: nat, lists: Lists) {
    match task
    case IdleTask(_, _) => At(lists, Queue(id)) == At(lists, Work(id)) == At(lists, Data(id)) == At(lists, Pending(id)) == []
    case WorkerTask(_, _) => At(lists, Work(id)) == At(lists, Data(id)) == At(lists, Pending(id)) == []
    case DeviceTask(v) =>
      && At(lists, Work(id)) == At(lists, Data(id)) == []
      && At(lists, Pending(id)) == (if v == null then [] else [v])
      && (state & STATE_SUSPENDED != 0 ==> v == null)
    case HandlerTask(work, data) =>
      && At(lists, Pending(id)) == []
      && work == First(At(lists, Work(id))) && data == First(At(lists, Data(id)))
  }

  ghost predicate TcbsOk(tcbs: set<Tcb>, lists: Lists)
    reads tcbs
  {
    forall t :: t in tcbs ==> TcbOk(t, lists)
  }

  lemma TcbAt(tcbs: set<Tcb>, lists: Lists, t: Tcb)
    requires TcbsOk(tcbs, lists) && t in tcbs
    ensures TcbOk(t, lists)
  {
  }

  /** Blocks other than that of the slot do not see a change of the slot. */
  lemma OtherSlot(t: Tcb, lists: Lists, s: Slot, l: seq<Packet>)
    requires TcbOk(t, lists) && s.id != t.id
    ensures TcbOk(t, lists[s := l])
  {
  }

  ghost predicate Known(tcbs: set<Tcb>, t: Tcb?) {
    t == null || t in tcbs
  }

  /** One block per identity, all reachable ones among them. */
  ghost predicate BlocksOk(blocks: map<nat, Tcb>, tcbs: set<Tcb>) {
    && (forall id :: id in blocks ==> blocks[id] in tcbs && blocks[id].id == id)
    && (forall t :: t in tcbs ==> t.id in blocks && blocks[t.id] == t && Known(tcbs, t.link))
  }

  /** A handler keeps work packets and device packets apart. */
  predicate KindOk(s: Slot, p: Packet) {
    (s.Work? ==> p.kind.WorkKind?) && (s.Data? ==> p.kind.DeviceKind?)
  }

  /** Handler lists hold packets of their kind, and only slots of blocks have packets. */
  ghost predicate SlotsOk(lists: Lists, blocks: map<nat, Tcb>) {
    forall s, t :: Place(lists, s, t) ==> s.id in blocks && KindOk(s, At(lists, s)[t])
  }

  ghost predicate PayloadOk(packets: set<Packet>)
    reads packets`a1, packets`a2
  {
    forall p :: p in packets ==> PayloadFit(p)
  }

  /** Identities differ, so a change of one block and one of its slots concerns no other block. */
  lemma TcbsChanged(tcbs: set<Tcb>, blocks: map<nat, Tcb>, t: Tcb, lists: Lists, s: Slot, l: seq<Packet>)
    requires BlocksOk(blocks, tcbs) && t in tcbs && s.id == t.id
    requires forall u :: u in tcbs && u != t ==> TcbOk(u, lists)
    requires TcbOk(t, lists[s := l])
    ensures TcbsOk(tcbs, lists[s := l])
  {
    forall u | u in tcbs ensures TcbOk(u, lists[s := l]) {
      if u != t {
        assert u.id != t.id;
        OtherSlot(u, lists, s, l);
      }
    }
  }

  /** A queue is no part of what a task holds. */
  lemma QueueSlot(task: Task, state: bv8, now: bv8, id: nat, lists: Lists, l: seq<Packet>)
    requires TaskOk(task, state, id, lists) && !task.IdleTask? && (now & STATE_SUSPENDED != 0 ==> state & STATE_SUSPENDED != 0)
    ensures TaskOk(task, now, id, lists[Queue(id) := l])
  {
  }

  lemma StateBits(s: bv8)
    ensures (s | STATE_RUNNABLE) & STATE_RUNNABLE != 0 && (s | STATE_RUNNABLE) & STATE_SUSPENDED == s & STATE_SUSPENDED
    ensures (s & STATE_NOT_HELD) & STATE_RUNNABLE == s & STATE_RUNNABLE && (s & STATE_NOT_HELD) & STATE_SUSPENDED == s & STATE_SUSPENDED
    ensures (s | STATE_HELD) & STATE_RUNNABLE == s & STATE_RUNNABLE && (s | STATE_HELD) & STATE_SUSPENDED == s & STATE_SUSPENDED
    ensures (s | STATE_SUSPENDED) & STATE_RUNNABLE == s & STATE_RUNNABLE
    ensures STATE_SUSPENDED_RUNNABLE & STATE_SUSPENDED != 0 && STATE_SUSPENDED_RUNNABLE & STATE_RUNNABLE != 0
    ensures STATE_RUNNING & STATE_SUSPENDED == 0 && STATE_RUNNABLE & STATE_SUSPENDED == 0
    ensures STATE_RUNNING & STATE_RUNNABLE == 0 && STATE_RUNNABLE & STATE_RUNNABLE != 0
  {
  }

  lemma SlotsPopped(lists: Lists, blocks: map<nat, Tcb>, s: Slot)
    requires SlotsOk(lists, blocks) && At(lists, s) != []
    ensures SlotsOk(lists[s := At(lists, s)[1..]], blocks)
    ensures KindOk(s, At(lists, s)[0])
  {
    var after := lists[s := At(lists, s)[1..]];
    assert Place(lists, s, 0);
    forall u, t | Place(after, u, t) ensures u.id in blocks && KindOk(u, At(after, u)[t]) {
      PlaceBack(lists, s, u, t);
      assert Place(lists, u, Back(s, u, t));
    }
  }

  lemma SlotsPushed(lists: Lists, blocks: map<nat, Tcb>, s: Slot, p: Packet)
    requires SlotsOk(lists, blocks) && s.id in blocks && KindOk(s, p)
    ensures SlotsOk(lists[s := At(lists, s) + [p]], blocks)
  {
    var after := lists[s := At(lists, s) + [p]];
    forall u, t | Place(after, u, t) ensures u.id in blocks && KindOk(u, At(after, u)[t]) {
      if u != s || t < |At(lists, s)| {
        assert Place(lists, u, t);
      }
    }
  }

  /** Every packet is addressed to a task there is, and not to an idle one, which would lose it. */
  ghost predicate Addressed(blocks: map<nat, Tcb>, packets: set<Packet>)
    reads packets`id
  {
    forall p :: p in packets ==> Takes(blocks, p.id)
  }

  ghost predicate Takes(blocks: map<nat, Tcb>, id: nat) {
    id in blocks && !blocks[id].isIdle
  }

  lemma TakesIs(blocks: map<nat, Tcb>, id: nat)
    ensures Takes(blocks, id) <==> id in blocks && !blocks[id].isIdle
  {
  }

  /** A worker addresses packets to the two handlers. */
  ghost predicate WorkersOk(blocks: map<nat, Tcb>, tcbs: set<Tcb>)
    reads tcbs`task
  {
    forall t :: t in tcbs && t.task.WorkerTask? ==> Takes(blocks, ID_HANDLER_A) && Takes(blocks, ID_HANDLER_B)
  }

  lemma AddressedAt(blocks: map<nat, Tcb>, packets: set<Packet>, p: Packet)
    requires Addressed(blocks, packets) && p in packets
    ensures Takes(blocks, p.id)
  {
  }

  lemma WorkersAt(blocks: map<nat, Tcb>, tcbs: set<Tcb>, t: Tcb)
    requires WorkersOk(blocks, tcbs) && t in tcbs && t.task.WorkerTask?
    ensures Takes(blocks, ID_HANDLER_A) && Takes(blocks, ID_HANDLER_B)
  {
  }

  // ----- small facts about blocks -----

  lemma EmptyList(packets: set<Packet>)
    ensures Listed(null, [], packets) && packets + ToSet([]) == packets
  {
  }

  lemma AtNone(queue: Packet?, state: bv8, task: Task, id: nat, lists: Lists)
    requires BlockOk(queue, state, task, id, lists) && At(lists, Queue(id)) == []
    ensures BlockOk(queue, STATE_RUNNING, task, id, lists)
  {
    StateBits(state);
  }

  lemma AllTcbs(tcbs: set<Tcb>, lists: Lists)
    requires TcbsOk(tcbs, lists)
    ensures forall u :: u in tcbs ==> TcbOk(u, lists)
  {
  }

  lemma ListedIs(queue: Packet?, l: seq<Packet>, packets: set<Packet>)
    requires Listed(queue, l, packets)
    ensures queue == First(l) && (queue == null <==> l == [])
    ensures (forall i, j :: 0 <= i < j < |l| ==> l[i] != l[j]) && (forall i :: 0 <= i < |l| ==> l[i] !in packets && PayloadFit(l[i]))
  {
  }

  lemma AtSet(lists: Lists, s: Slot, l: seq<Packet>)
    ensures At(lists[s := l], s) == l
  {
  }

  lemma SlotsMore(lists: Lists, blocks: map<nat, Tcb>, id: nat, t: Tcb, l: seq<Packet>)
    requires SlotsOk(lists, blocks)
    ensures SlotsOk(lists[Queue(id) := l], blocks[id := t])
  {
    var after := lists[Queue(id) := l];
    forall u, i | Place(after, u, i) ensures u.id in blocks[id := t] && KindOk(u, At(after, u)[i]) {
      if u != Queue(id) {
        assert Place(lists, u, i);
      }
    }
  }

  lemma BlocksMore(blocks: map<nat, Tcb>, tcbs: set<Tcb>, t: Tcb)
    requires BlocksOk(blocks, tcbs) && t.id !in blocks && Known(tcbs, t.link)
    ensures BlocksOk(blocks[t.id := t], tcbs + {t}) && Known(tcbs + {t}, t)
  {
  }

  lemma PayloadMore(packets: set<Packet>, l: seq<Packet>)
    requires PayloadOk(packets) && forall i :: 0 <= i < |l| ==> PayloadFit(l[i])
    ensures PayloadOk(packets + ToSet(l))
  {
  }

  lemma NewBlock(t: Tcb, lists: Lists, l: seq<Packet>)
    requires At(lists, Work(t.id)) == At(lists, Data(t.id)) == At(lists, Pending(t.id)) == [] && t.queue == First(l)
    requires t.state == if t.queue == null then STATE_SUSPENDED else STATE_SUSPENDED_RUNNABLE
    requires t.task == (if t.task.HandlerTask? then HandlerTask(null, null) else if t.task.DeviceTask? then DeviceTask(null) else t.task)
    requires t.task.IdleTask? ==> l == []
    ensures BlockOk(t.queue, t.state, t.task, t.id, lists[Queue(t.id) := l])
  {
  }

  lemma IdleSame(queue: Packet?, state: bv8, task: Task, now: Task, id: nat, lists: Lists)
    requires BlockOk(queue, state, task, id, lists) && task.IdleTask? && now.IdleTask?
    ensures BlockOk(queue, state, now, id, lists)
  {
  }

  lemma WorkerSame(queue: Packet?, state: bv8, task: Task, now: Task, id: nat, lists: Lists)
    requires BlockOk(queue, state, task, id, lists) && task.WorkerTask? && now.WorkerTask?
    ensures BlockOk(queue, state, now, id, lists)
  {
  }

  lemma KindIs(s: Slot, p: Packet)
    requires KindOk(s, p)
    ensures (s.Work? ==> p.kind.WorkKind?) && (s.Data? ==> p.kind.DeviceKind?)
  {
  }

  lemma DeviceFull(queue: Packet?, state: bv8, id: nat, lists: Lists, p: Packet)
    requires BlockOk(queue, state, DeviceTask(null), id, lists) && state & STATE_SUSPENDED == 0
    ensures At(lists, Pending(id)) + [p] == [p] && KindOk(Pending(id), p)
    ensures BlockOk(queue, state, DeviceTask(p), id, lists[Pending(id) := [p]])
  {
  }

  lemma DeviceEmpty(queue: Packet?, state: bv8, id: nat, lists: Lists, v: Packet)
    requires BlockOk(queue, state, DeviceTask(v), id, lists)
    ensures At(lists, Pending(id)) == [v]
    ensures BlockOk(queue, state, DeviceTask(null), id, lists[Pending(id) := At(lists, Pending(id))[1..]])
  {
  }

  lemma HandlerLists(queue: Packet?, state: bv8, task: Task, id: nat, lists: Lists)
    requires BlockOk(queue, state, task, id, lists) && task.HandlerTask?
    ensures task.work == First(At(lists, Work(id))) && task.data == First(At(lists, Data(id)))
    ensures task.work == null <==> At(lists, Work(id)) == []
    ensures task.data == null <==> At(lists, Data(id)) == []
    ensures task.work != null ==> task.work == At(lists, Work(id))[0]
    ensures task.data != null ==> task.data == At(lists, Data(id))[0]
  {
  }

  lemma HandlerFiled(queue: Packet?, state: bv8, task: Task, now: Task, id: nat, lists: Lists, s: Slot, p: Packet)
    requires BlockOk(queue, state, task, id, lists) && task.HandlerTask?
    requires var head := First(At(lists, s) + [p]);
             (s == Work(id) && p.kind == WorkKind && now == task.(work := head)) ||
             (s == Data(id) && p.kind == DeviceKind && now == task.(data := head))
    ensures BlockOk(queue, state, now, id, lists[s := At(lists, s) + [p]]) && KindOk(s, p)
  {
  }

  lemma HandlerPopped(queue: Packet?, state: bv8, task: Task, now: Task, id: nat, lists: Lists, s: Slot)
    requires BlockOk(queue, state, task, id, lists) && task.HandlerTask? && At(lists, s) != []
    requires (s == Work(id) && now == task.(work := First(At(lists, s)[1..]))) ||
             (s == Data(id) && now == task.(data := First(At(lists, s)[1..])))
    ensures BlockOk(queue, state, now, id, lists[s := At(lists, s)[1..]])
  {
  }

  lemma FirstOfOne(lists: Lists, s: Slot, p: Packet)
    requires At(lists, s) == []
    ensures First(At(lists, s) + [p]) == p
  {
  }

  lemma TcbIs(t: Tcb, lists: Lists)
    ensures TcbOk(t, lists) <==> BlockOk(t.queue, t.state, t.task, t.id, lists) && (t.isIdle <==> t.task.IdleTask?)
  {
  }

  lemma QueueKind(s: Slot, p: Packet)
    ensures s.Queue? ==> KindOk(s, p) && !s.Pending?
  {
  }

  lemma QueueIs(queue: Packet?, state: bv8, task: Task, id: nat, lists: Lists)
    requires BlockOk(queue, state, task, id, lists)
    ensures queue == First(At(lists, Queue(id))) && (queue == null <==> At(lists, Queue(id)) == [])
    ensures queue != null ==> state & STATE_RUNNABLE != 0
  {
  }

  /** Only the runnable bit says whether there are packets. */
  lemma RebitHeld(queue: Packet?, state: bv8, task: Task, id: nat, lists: Lists)
    requires BlockOk(queue, state, task, id, lists)
    ensures BlockOk(queue, state | STATE_HELD, task, id, lists)
  {
    StateBits(state);
  }

  lemma RebitNotHeld(queue: Packet?, state: bv8, task: Task, id: nat, lists: Lists)
    requires BlockOk(queue, state, task, id, lists)
    ensures BlockOk(queue, state & STATE_NOT_HELD, task, id, lists)
  {
    StateBits(state);
  }

  /** A device may be suspended only without a packet. */
  lemma RebitSuspended(queue: Packet?, state: bv8, task: Task, id: nat, lists: Lists)
    requires BlockOk(queue, state, task, id, lists) && (task.DeviceTask? ==> task.v == null)
    ensures BlockOk(queue, state | STATE_SUSPENDED, task, id, lists)
  {
    StateBits(state);
  }

  lemma Enqueued(queue: Packet?, state: bv8, after: Packet?, now: bv8, task: Task, id: nat, lists: Lists, p: Packet)
    requires BlockOk(queue, state, task, id, lists) && !task.IdleTask?
    requires after == First(At(lists, Queue(id)) + [p])
    requires now == if queue == null then state | STATE_RUNNABLE else state
    ensures BlockOk(after, now, task, id, lists[Queue(id) := At(lists, Queue(id)) + [p]])
  {
    StateBits(state);
    QueueSlot(task, state, now, id, lists, At(lists, Queue(id)) + [p]);
    hide TaskOk;
  }

  lemma QueueTaken(tcb: Tcb, was: Lists, rest: seq<Packet>)
    requires TaskOk(tcb.task, STATE_SUSPENDED_RUNNABLE, tcb.id, was) && tcb.queue == First(rest)
    requires !tcb.task.IdleTask? && !tcb.isIdle
    requires tcb.state == if tcb.queue == null then STATE_RUNNING else STATE_RUNNABLE
    ensures TcbOk(tcb, was[Queue(tcb.id) := rest]) && tcb.state & STATE_SUSPENDED == 0
  {
    StateBits(tcb.state);
    QueueSlot(tcb.task, STATE_SUSPENDED_RUNNABLE, tcb.state, tcb.id, was, rest);
    hide TaskOk;
  }
}
