/**
  The Richards scheduler.  Each operation keeps every packet in exactly one place, and
  changes the state the way the function of the same purpose on plain values does.
*/
module RichardsScheduler {
  import opened JsInt
  import opened RichardsPackets
  import opened RichardsTasks
  import opened RichardsBooks
  import opened RichardsEnds

  class Scheduler {
    var queueCount: int
    var holdCount: int
    var blocks: map<nat, Tcb>
    var list: Tcb?
    var currentTcb: Tcb?
    var currentId: nat
    ghost var tcbs: set<Tcb>
    ghost var packets: set<Packet>
    ghost var lists: Lists

    /** The state as plain values. */
    ghost function Now(): Books
      reads this`lists, this`blocks, this`packets, this`holdCount, this`queueCount, blocks.Values, packets
    {
      Books(lists, States(blocks), Roles(blocks), Mails(packets), holdCount, queueCount)
    }

    lemma NowIs()
      ensures Now() == Books(lists, States(blocks), Roles(blocks), Mails(packets), holdCount, queueCount)
    {
    }

    /** Everything but the packets in hand is in its one place. */
    ghost predicate Holding(hand: set<Packet>)
      reads this, tcbs, packets
    {
      && hand <= packets
      && BlocksOk(blocks, tcbs) && Known(tcbs, list) && Known(tcbs, currentTcb)
      && TcbsOk(tcbs, lists)
      && Linked(lists, packets) && Partition(lists, packets - hand)
      && SlotsOk(lists, blocks) && PayloadOk(packets)
    }

    /** A packet leaves the head of a slot of the block, whose fields say so. */
    lemma Taken(t: Tcb, was: Lists, s: Slot)
      requires BlocksOk(blocks, tcbs) && t in tcbs && s.id == t.id && Known(tcbs, list) && Known(tcbs, currentTcb)
      requires Linked(was, packets) && Partition(was, packets) && SlotsOk(was, blocks) && PayloadOk(packets)
      requires At(was, s) != [] && lists == was[s := At(was, s)[1..]]
      requires forall u :: u in tcbs && u != t ==> TcbOk(u, was)
      requires TcbOk(t, lists)
      ensures Holding({At(was, s)[0]}) && KindOk(s, At(was, s)[0])
    {
      Popped(was, packets, s);
      LinkedPopped(was, packets, s);
      SlotsPopped(was, blocks, s);
      TcbsChanged(tcbs, blocks, t, was, s, At(was, s)[1..]);
    }

    /** The packet in hand enters a slot of the block, as the last one. */
    lemma Entered(t: Tcb, was: Lists, s: Slot, p: Packet)
      requires BlocksOk(blocks, tcbs) && t in tcbs && s.id == t.id && Known(tcbs, list) && Known(tcbs, currentTcb)
      requires Partition(was, packets - {p}) && p in packets && SlotsOk(was, blocks) && PayloadOk(packets)
      requires lists == was[s := At(was, s) + [p]] && Linked(lists, packets) && KindOk(s, p)
      requires forall u :: u in tcbs && u != t ==> TcbOk(u, was)
      requires TcbOk(t, lists)
      ensures Holding({})
    {
      Pushed(was, packets - {p}, s, p);
      assert packets - {p} + {p} == packets - {};
      SlotsPushed(was, blocks, s, p);
      TcbsChanged(tcbs, blocks, t, was, s, At(was, s) + [p]);
    }

    lemma Parts(hand: set<Packet>)
      requires Holding(hand)
      ensures hand <= packets && BlocksOk(blocks, tcbs) && Known(tcbs, list) && Known(tcbs, currentTcb)
      ensures TcbsOk(tcbs, lists) && (forall u :: u in tcbs ==> TcbOk(u, lists))
      ensures Linked(lists, packets) && Partition(lists, packets - hand) && SlotsOk(lists, blocks) && PayloadOk(packets)
      ensures hand == {} ==> Partition(lists, packets)
    {
      assert packets - {} == packets;
    }

    /** A block that is suspended and runnable has a first packet, and a device then keeps none. */
    lemma QueueHead(tcb: Tcb)
      requires Holding({}) && tcb in tcbs && tcb.state == STATE_SUSPENDED_RUNNABLE
      ensures TaskOk(tcb.task, tcb.state, tcb.id, lists)
      ensures var l := At(lists, Queue(tcb.id)); l != [] && tcb.queue == l[0] && l[0] in packets && l[0].link == First(l[1..])
      ensures tcb.task.DeviceTask? ==> tcb.task.v == null
      ensures !tcb.task.IdleTask? && !tcb.isIdle
    {
      TcbAt(tcbs, lists, tcb);
      StateBits(tcb.state);
      LinkedPopped(lists, packets, Queue(tcb.id));
    }

    /** The first part of a task's run: a suspended block with packets takes the first one. */
    method TakePacket(tcb: Tcb) returns (packet: Packet)
      requires Holding({}) && tcb in tcbs && tcb.state == STATE_SUSPENDED_RUNNABLE
      modifies tcb`queue, tcb`state, this`lists
      ensures Holding({packet}) && packet in packets
      ensures tcb.task.DeviceTask? ==> tcb.task.v == null
      ensures tcb.state & STATE_SUSPENDED == 0 && !tcb.task.IdleTask?
      ensures Now() == Fetched(old(Now()), tcb.id)
      ensures old(At(lists, Queue(tcb.id))) != [] && packet == old(At(lists, Queue(tcb.id)))[0]
    {
      hide *;
      ghost var was := lists;
      ghost var s := Queue(tcb.id);
      Parts({});
      QueueHead(tcb);
      NowIs();
      packet := DropFirst(tcb, was, blocks, tcbs);
      lists := was[s := At(was, s)[1..]];
      Taken(tcb, was, s);
      NowIs();
      FetchedIs(old(Now()), tcb.id);
    }

    // ----- the operations of the scheduler -----

    /** The parts make the whole again after a change of one block. */
    lemma Again(t: Tcb, hand: set<Packet>)
      requires hand <= packets && BlocksOk(blocks, tcbs) && t in tcbs && Known(tcbs, list) && Known(tcbs, currentTcb)
      requires Linked(lists, packets) && Partition(lists, packets - hand) && SlotsOk(lists, blocks) && PayloadOk(packets)
      requires forall u :: u in tcbs && u != t ==> TcbOk(u, lists)
      requires TcbOk(t, lists)
      ensures Holding(hand)
    {
    }

    lemma LinkKnown(t: Tcb)
      requires BlocksOk(blocks, tcbs) && t in tcbs
      ensures Known(tcbs, t.link) && t.id in blocks && blocks[t.id] == t
    {
    }

    lemma BlockKnown(id: nat)
      requires BlocksOk(blocks, tcbs) && id in blocks
      ensures blocks[id] in tcbs && blocks[id].id == id
    {
    }

    lemma IsKnown(t: Tcb?)
      ensures Known(tcbs, t) <==> t == null || t in tcbs
    {
    }

    /** Blocks the current task; the next one in the list is next. */
    method HoldCurrent() returns (next: Tcb?)
      requires Holding({}) && currentTcb != null
      modifies this`holdCount, currentTcb`state
      ensures Holding({}) && Known(tcbs, next)
      ensures Outcome(Now(), next) == Hold(old(Now()), currentTcb)
    {
      hide *;
      Parts({});
      IsKnown(currentTcb);
      NowIs();
      HoldIs(Now(), currentTcb);
      EntryIs(blocks, tcbs, currentTcb);
      holdCount := holdCount + 1;
      var t := currentTcb;
      TcbIs(t, lists);
      var state := t.state;
      SetState(t, state | STATE_HELD, blocks, tcbs);
      NowIs();
      RebitHeld(t.queue, state, t.task, t.id, lists);
      TcbIs(t, lists);
      Again(t, {});
      LinkKnown(t);
      next := t.link;
    }

    /** Suspends the current task, which runs again once it has packets; a device has none in keeping then. */
    method SuspendCurrent() returns (next: Tcb?)
      requires Holding({}) && currentTcb != null && (currentTcb.task.DeviceTask? ==> currentTcb.task.v == null)
      modifies currentTcb`state
      ensures Holding({}) && Known(tcbs, next)
      ensures Outcome(Now(), next) == Suspend(old(Now()), currentTcb)
    {
      hide *;
      Parts({});
      IsKnown(currentTcb);
      NowIs();
      SuspendIs(Now(), currentTcb);
      EntryIs(blocks, tcbs, currentTcb);
      var t := currentTcb;
      TcbIs(t, lists);
      var state := t.state;
      SetState(t, state | STATE_SUSPENDED, blocks, tcbs);
      NowIs();
      RebitSuspended(t.queue, state, t.task, t.id, lists);
      TcbIs(t, lists);
      Again(t, {});
      next := t;
    }

    /** Lets a held task run again; the one with the higher priority is next. */
    method Release(id: nat) returns (next: Tcb?)
      requires Holding({}) && currentTcb != null
      modifies tcbs`state
      ensures Holding({}) && Known(tcbs, next)
      ensures Outcome(Now(), next) == Unhold(blocks, old(Now()), id, currentTcb)
    {
      hide *;
      Parts({});
      IsKnown(currentTcb);
      NowIs();
      UnholdIs(blocks, Now(), id, currentTcb);
      if id !in blocks {
        IsKnown(null);
        return null;
      }
      BlockKnown(id);
      var t := blocks[id];
      TcbIs(t, lists);
      EntryIs(blocks, tcbs, t);
      var state := t.state;
      SetState(t, state & STATE_NOT_HELD, blocks, tcbs);
      NowIs();
      RebitNotHeld(t.queue, state, t.task, t.id, lists);
      TcbIs(t, lists);
      Again(t, {});
      next := if t.priority > currentTcb.priority then t else currentTcb;
      IsKnown(next);
    }

    /**
      Sends a packet to the task it is addressed to; it is then addressed to the sender.
      Without such a task the packet is in no place any more.
    */
    method QueuePacket(packet: Packet) returns (next: Tcb?)
      requires Holding({packet}) && currentTcb != null && currentId == currentTcb.id && (packet.id in blocks ==> Takes(blocks, packet.id))
      modifies this`queueCount, this`lists, packet`id, packets`link, tcbs`queue, tcbs`state
      ensures Outcome(Now(), next) == Send(blocks, old(Now()), packet, old(currentTcb))
      ensures old(Addressed(blocks, packets)) && Takes(blocks, currentId) ==> Addressed(blocks, packets)
      ensures old(packet.id) in blocks ==> Holding({}) && packet.id == currentId
      ensures old(packet.id) !in blocks ==> Holding({packet}) && next == null
      ensures Known(tcbs, next)
    {
      hide *;
      Parts({packet});
      IsKnown(currentTcb);
      NowIs();
      MailIs(packets, packet);
      SendIs(blocks, Now(), packet, currentTcb);
      if packet.id !in blocks {
        IsKnown(null);
        return null;
      }
      BlockKnown(packet.id);
      TakesIs(blocks, packet.id);
      var t := blocks[packet.id];
      queueCount := queueCount + 1;
      ClearLink(packet, lists, packets);
      SetId(packet, currentId, blocks, packets);
      EntryIs(blocks, tcbs, t);
      next := CheckPriorityAdd(t, currentTcb, packet);
      assert Roles(blocks) == old(Roles(blocks));
      assert Mails(packets) == Readdressed(old(Mails(packets)), packet, currentId);
      NowIs();
    }

    /** The packet goes to the end of the block's queue; the block is next if this makes it runnable with a higher priority. */
    method CheckPriorityAdd(t: Tcb, task: Tcb, packet: Packet) returns (next: Tcb)
      requires BlocksOk(blocks, tcbs) && t in tcbs && task in tcbs && Known(tcbs, list) && Known(tcbs, currentTcb)
      requires LinksWithout(lists, packets, packet) && Partition(lists, packets - {packet}) && packet in packets
      requires SlotsOk(lists, blocks) && PayloadOk(packets) && (forall u :: u in tcbs ==> TcbOk(u, lists)) && !t.isIdle
      modifies this`lists, packets`link, t`queue, t`state
      ensures Holding({}) && Known(tcbs, next)
      ensures lists == Put(old(lists), Queue(t.id), packet)
      ensures next == if old(At(lists, Queue(t.id))) == [] then Higher(t, task) else task
      ensures States(blocks) == old(States(blocks))[t.id := Woken(old(t.state), old(At(lists, Queue(t.id))))]
    {
      hide *;
      PutIs(lists, Queue(t.id), packet);
      HigherIs(t, task);
      WokenIs(t.state, At(lists, Queue(t.id)));
      TcbIs(t, lists);
      EntryIs(blocks, tcbs, t);
      QueueIs(t.queue, t.state, t.task, t.id, lists);
      SameState(blocks, tcbs, t);
      IsKnown(t);
      IsKnown(task);
      if t.queue == null {
        AddFirst(t, packet);
        next := if t.priority > task.priority then t else task;
      } else {
        AddMore(t, packet);
        next := task;
      }
    }

    method AddFirst(t: Tcb, packet: Packet)
      requires BlocksOk(blocks, tcbs) && t in tcbs && Known(tcbs, list) && Known(tcbs, currentTcb)
      requires LinksWithout(lists, packets, packet) && Partition(lists, packets - {packet}) && packet in packets
      requires SlotsOk(lists, blocks) && PayloadOk(packets) && (forall u :: u in tcbs ==> TcbOk(u, lists))
      requires t.queue == null && !t.isIdle
      modifies this`lists, t`queue, t`state
      ensures Holding({}) && lists == old(lists)[Queue(t.id) := At(old(lists), Queue(t.id)) + [packet]]
      ensures States(blocks) == old(States(blocks))[t.id := old(t.state) | STATE_RUNNABLE]
    {
      hide *;
      ghost var was := lists;
      ghost var s := Queue(t.id);
      TcbIs(t, was);
      QueueKind(s, packet);
      QueueIs(t.queue, t.state, t.task, t.id, was);
      LinkKnown(t);
      LinkedAlone(was, packets, s, packet);
      FirstOfOne(was, s, packet);
      var state := t.state;
      t.queue := packet;
      SetState(t, state | STATE_RUNNABLE, blocks, tcbs);
      Enqueued(null, state, t.queue, t.state, t.task, t.id, was, packet);
      lists := was[s := At(was, s) + [packet]];
      TcbIs(t, lists);
      Entered(t, was, s, packet);
    }

    method AddMore(t: Tcb, packet: Packet)
      requires BlocksOk(blocks, tcbs) && t in tcbs && Known(tcbs, list) && Known(tcbs, currentTcb)
      requires LinksWithout(lists, packets, packet) && Partition(lists, packets - {packet}) && packet in packets
      requires SlotsOk(lists, blocks) && PayloadOk(packets) && (forall u :: u in tcbs ==> TcbOk(u, lists))
      requires t.queue != null && !t.isIdle
      modifies this`lists, packets`link, t`queue
      ensures Holding({}) && lists == old(lists)[Queue(t.id) := At(old(lists), Queue(t.id)) + [packet]]
    {
      hide *;
      ghost var was := lists;
      ghost var s := Queue(t.id);
      TcbIs(t, was);
      QueueKind(s, packet);
      WithoutIsLinked(was, packets, packet);
      QueueIs(t.queue, t.state, t.task, t.id, was);
      LinkKnown(t);
      ghost var queue := t.queue;
      t.queue := AddTo(packet, t.queue, was, s, packets);
      Enqueued(queue, t.state, t.queue, t.state, t.task, t.id, was, packet);
      lists := was[s := At(was, s) + [packet]];
      TcbIs(t, lists);
      Entered(t, was, s, packet);
    }

    // ----- what tasks do with packets -----

    /** A device keeps the packet; it had none. */
    method DevicePut(tcb: Tcb, packet: Packet)
      requires Holding({packet}) && tcb in tcbs && tcb.task == DeviceTask(null) && tcb.state & STATE_SUSPENDED == 0
      modifies this`lists, tcb`task
      ensures Holding({}) && tcb.task == DeviceTask(packet)
      ensures Now() == old(Now()).(lists := Put(old(lists), Pending(tcb.id), packet))
      ensures old(WorkersOk(blocks, tcbs)) ==> WorkersOk(blocks, tcbs)
    {
      hide *;
      Parts({packet});
      ghost var was := lists;
      ghost var s := Pending(tcb.id);
      NowIs();
      PutIs(was, s, packet);
      TcbIs(tcb, was);
      LinkKnown(tcb);
      ghost var task := tcb.task;
      SameRole(tcb.task, DeviceTask(packet));
      SetTask(tcb, DeviceTask(packet), blocks, tcbs);
      DeviceFull(tcb.queue, tcb.state, tcb.id, was, packet);
      LinkedPending(was, packets, s, packet);
      lists := was[s := At(was, s) + [packet]];
      TcbIs(tcb, lists);
      Entered(tcb, was, s, packet);
      NowIs();
    }

    /** A device gives its packet away. */
    method DeviceTake(tcb: Tcb) returns (v: Packet)
      requires Holding({}) && tcb in tcbs && tcb.task.DeviceTask? && tcb.task.v != null
      modifies this`lists, tcb`task
      ensures Holding({v}) && v in packets && tcb.task == DeviceTask(null)
      ensures var l := old(At(lists, Pending(tcb.id))); l != [] && v == l[0]
      ensures Now() == old(Now()).(lists := Rest(old(lists), Pending(tcb.id)))
      ensures old(WorkersOk(blocks, tcbs)) ==> WorkersOk(blocks, tcbs)
    {
      hide *;
      Parts({});
      ghost var was := lists;
      ghost var s := Pending(tcb.id);
      NowIs();
      RestIs(was, s);
      TcbIs(tcb, was);
      v := tcb.task.v;
      SameRole(tcb.task, DeviceTask(null));
      SetTask(tcb, DeviceTask(null), blocks, tcbs);
      DeviceEmpty(tcb.queue, tcb.state, tcb.id, was, v);
      lists := was[s := At(was, s)[1..]];
      TcbIs(tcb, lists);
      Taken(tcb, was, s);
      NowIs();
      Parts({v});
    }

    /** A handler files the packet by its kind. */
    method HandlerAdd(tcb: Tcb, packet: Packet)
      requires Holding({packet}) && tcb in tcbs && tcb.task.HandlerTask?
      modifies this`lists, packets`link, tcb`task
      ensures Holding({}) && tcb.task.HandlerTask?
      ensures Now() == old(Now()).(lists := Put(old(lists), FileSlot(tcb.id, packet), packet))
      ensures old(WorkersOk(blocks, tcbs)) ==> WorkersOk(blocks, tcbs)
    {
      hide *;
      FileSlotIs(tcb.id, packet);
      if packet.kind == WorkKind {
        HandlerAddWork(tcb, packet);
      } else {
        HandlerAddData(tcb, packet);
      }
    }

    method HandlerAddWork(tcb: Tcb, packet: Packet)
      requires Holding({packet}) && tcb in tcbs && tcb.task.HandlerTask? && packet.kind == WorkKind
      modifies this`lists, packets`link, tcb`task
      ensures Holding({}) && tcb.task.HandlerTask?
      ensures Now() == old(Now()).(lists := Put(old(lists), Work(tcb.id), packet))
      ensures old(WorkersOk(blocks, tcbs)) ==> WorkersOk(blocks, tcbs)
    {
      hide *;
      Parts({packet});
      ghost var was := lists;
      ghost var s := Work(tcb.id);
      NowIs();
      PutIs(was, s, packet);
      TcbIs(tcb, was);
      LinkKnown(tcb);
      HandlerLists(tcb.queue, tcb.state, tcb.task, tcb.id, was);
      ghost var task := tcb.task;
      var head := AddTo(packet, tcb.task.work, was, s, packets);
      SameRole(tcb.task, tcb.task.(work := head));
      SetTask(tcb, tcb.task.(work := head), blocks, tcbs);
      HandlerFiled(tcb.queue, tcb.state, task, tcb.task, tcb.id, was, s, packet);
      lists := was[s := At(was, s) + [packet]];
      TcbIs(tcb, lists);
      Entered(tcb, was, s, packet);
      NowIs();
    }

    method HandlerAddData(tcb: Tcb, packet: Packet)
      requires Holding({packet}) && tcb in tcbs && tcb.task.HandlerTask? && packet.kind == DeviceKind
      modifies this`lists, packets`link, tcb`task
      ensures Holding({}) && tcb.task.HandlerTask?
      ensures Now() == old(Now()).(lists := Put(old(lists), Data(tcb.id), packet))
      ensures old(WorkersOk(blocks, tcbs)) ==> WorkersOk(blocks, tcbs)
    {
      hide *;
      Parts({packet});
      ghost var was := lists;
      ghost var s := Data(tcb.id);
      NowIs();
      PutIs(was, s, packet);
      TcbIs(tcb, was);
      LinkKnown(tcb);
      HandlerLists(tcb.queue, tcb.state, tcb.task, tcb.id, was);
      ghost var task := tcb.task;
      var head := AddTo(packet, tcb.task.data, was, s, packets);
      SameRole(tcb.task, tcb.task.(data := head));
      SetTask(tcb, tcb.task.(data := head), blocks, tcbs);
      HandlerFiled(tcb.queue, tcb.state, task, tcb.task, tcb.id, was, s, packet);
      lists := was[s := At(was, s) + [packet]];
      TcbIs(tcb, lists);
      Entered(tcb, was, s, packet);
      NowIs();
    }

    /** A handler's first device packet. */
    method HandlerTakeData(tcb: Tcb) returns (v: Packet)
      requires Holding({}) && tcb in tcbs && tcb.task.HandlerTask? && tcb.task.data != null
      modifies this`lists, tcb`task
      ensures Holding({v}) && v in packets && v.kind.DeviceKind?
      ensures var l := old(At(lists, Data(tcb.id))); l != [] && v == l[0]
      ensures Now() == old(Now()).(lists := Rest(old(lists), Data(tcb.id)))
      ensures tcb.task.HandlerTask? && tcb.task.work == old(tcb.task.work)
      ensures old(WorkersOk(blocks, tcbs)) ==> WorkersOk(blocks, tcbs)
    {
      hide *;
      Parts({});
      ghost var was := lists;
      ghost var s := Data(tcb.id);
      NowIs();
      RestIs(was, s);
      TcbIs(tcb, was);
      HandlerLists(tcb.queue, tcb.state, tcb.task, tcb.id, was);
      ghost var task := tcb.task;
      v := tcb.task.data;
      LinkedPopped(was, packets, s);
      SameRole(tcb.task, tcb.task.(data := v.link));
      SetTask(tcb, tcb.task.(data := v.link), blocks, tcbs);
      HandlerPopped(tcb.queue, tcb.state, task, tcb.task, tcb.id, was, s);
      lists := was[s := At(was, s)[1..]];
      TcbIs(tcb, lists);
      Taken(tcb, was, s);
      NowIs();
      Parts({v});
      KindIs(s, v);
    }

    /** A handler's first work packet. */
    method HandlerTakeWork(tcb: Tcb) returns (v: Packet)
      requires Holding({}) && tcb in tcbs && tcb.task.HandlerTask? && tcb.task.work != null
      modifies this`lists, tcb`task
      ensures Holding({v}) && v in packets
      ensures var l := old(At(lists, Work(tcb.id))); l != [] && v == l[0]
      ensures Now() == old(Now()).(lists := Rest(old(lists), Work(tcb.id)))
      ensures old(WorkersOk(blocks, tcbs)) ==> WorkersOk(blocks, tcbs)
    {
      hide *;
      Parts({});
      ghost var was := lists;
      ghost var s := Work(tcb.id);
      NowIs();
      RestIs(was, s);
      TcbIs(tcb, was);
      HandlerLists(tcb.queue, tcb.state, tcb.task, tcb.id, was);
      ghost var task := tcb.task;
      v := tcb.task.work;
      LinkedPopped(was, packets, s);
      SameRole(tcb.task, tcb.task.(work := v.link));
      SetTask(tcb, tcb.task.(work := v.link), blocks, tcbs);
      HandlerPopped(tcb.queue, tcb.state, task, tcb.task, tcb.id, was, s);
      lists := was[s := At(was, s)[1..]];
      TcbIs(tcb, lists);
      Taken(tcb, was, s);
      NowIs();
      Parts({v});
    }

    // ----- running -----

    /** What holds before and after every step of the scheduler. */
    ghost predicate Valid()
      reads this, tcbs, packets
    {
      Holding({}) && Addressed(blocks, packets) && WorkersOk(blocks, tcbs)
    }

    /** A task other than an idle one can be answered. */
    lemma Sender(tcb: Tcb)
      requires (exists hand :: Holding(hand)) && tcb in tcbs && !tcb.task.IdleTask?
      ensures Takes(blocks, tcb.id)
    {
      TcbAt(tcbs, lists, tcb);
    }

    method RunIdle(tcb: Tcb) returns (next: Tcb?)
      requires Holding({}) && tcb == currentTcb && tcb in tcbs && tcb.task.IdleTask?
      modifies this`holdCount, tcbs`state, tcb`task
      ensures Holding({}) && Known(tcbs, next)
      ensures Outcome(Now(), next) == TurnIdle(blocks, old(Now()), tcb, old(tcb.task.seed), old(tcb.task.count))
      ensures old(WorkersOk(blocks, tcbs)) ==> WorkersOk(blocks, tcbs)
    {
      hide *;
      Parts({});
      TcbIs(tcb, lists);
      ghost var task := tcb.task;
      TurnIdleIs(blocks, Now(), tcb, tcb.task.seed, tcb.task.count);
      NowIs();
      var count := tcb.task.count - 1;
      var seed := tcb.task.seed;
      var even := And(seed, 1) == 0;
      if count != 0 {
        seed := if even then Shr(seed, 1) else Xor(Shr(seed, 1), 0xD008);
      }
      SetTask(tcb, IdleTask(seed, count), blocks, tcbs);
      NowIs();
      IdleSame(tcb.queue, tcb.state, task, tcb.task, tcb.id, lists);
      TcbIs(tcb, lists);
      Again(tcb, {});
      if count == 0 {
        next := HoldCurrent();
      } else if even {
        next := Release(ID_DEVICE_A);
      } else {
        next := Release(ID_DEVICE_B);
      }
    }

    method RunDevice(tcb: Tcb, packet: Packet?, ghost hand: set<Packet>) returns (next: Tcb?)
      requires hand == (if packet == null then {} else {packet}) && Holding(hand)
      requires tcb == currentTcb && tcb in tcbs && tcb.task.DeviceTask? && currentId == tcb.id
      requires packet != null ==> tcb.task.v == null && tcb.state & STATE_SUSPENDED == 0
      requires Addressed(blocks, packets) && WorkersOk(blocks, tcbs)
      modifies this`holdCount, this`queueCount, this`lists, packets`id, packets`link, tcbs`queue, tcbs`state, tcb`task
      ensures Outcome(Now(), next) == TurnDevice(blocks, old(Now()), tcb, packet)
      ensures Holding({}) && Known(tcbs, next) && Addressed(blocks, packets) && WorkersOk(blocks, tcbs)
    {
      hide *;
      TurnDeviceIs(blocks, Now(), tcb, packet);
      NowIs();
      if packet == null {
        DeviceHolds(tcb);
        if tcb.task.v == null {
          next := SuspendCurrent();
          return;
        }
        Sender(tcb);
        var v := DeviceTake(tcb);
        AddressedAt(blocks, packets, v);
        TakesIs(blocks, v.id);
        next := QueuePacket(v);
      } else {
        DevicePut(tcb, packet);
        next := HoldCurrent();
      }
    }

    lemma DeviceHolds(tcb: Tcb)
      requires Holding({}) && tcb in tcbs && tcb.task.DeviceTask?
      ensures tcb.task.v == null <==> At(lists, Pending(tcb.id)) == []
    {
      TcbAt(tcbs, lists, tcb);
    }

    method RunWorker(tcb: Tcb, packet: Packet?, ghost hand: set<Packet>) returns (next: Tcb?)
      requires hand == (if packet == null then {} else {packet}) && Holding(hand)
      requires tcb == currentTcb && tcb in tcbs && tcb.task.WorkerTask? && currentId == tcb.id
      requires Addressed(blocks, packets) && WorkersOk(blocks, tcbs)
      modifies this`queueCount, this`lists, packets`id, packets`link, packets`a1, packets`a2, tcbs`queue, tcbs`state, tcb`task
      ensures Outcome(Now(), next) == TurnWorker(blocks, old(Now()), tcb, packet, old(tcb.task.v1), old(tcb.task.v2))
      ensures Holding({}) && Known(tcbs, next) && Addressed(blocks, packets) && WorkersOk(blocks, tcbs)
    {
      hide *;
      TurnWorkerIs(blocks, Now(), tcb, packet, tcb.task.v1, tcb.task.v2);
      if packet == null {
        next := SuspendCurrent();
        return;
      }
      Sender(tcb);
      Parts(hand);
      Rewrite(tcb, packet);
      TakesIs(blocks, packet.id);
      next := QueuePacket(packet);
    }

    /** A worker readdresses the packet to the other handler and writes its letters. */
    method Rewrite(tcb: Tcb, packet: Packet)
      requires Holding({packet}) && tcb in tcbs && tcb.task.WorkerTask?
      requires Addressed(blocks, packets) && WorkersOk(blocks, tcbs)
      modifies packet`id, packet`a1, packet`a2, tcb`task
      ensures Holding({packet}) && Addressed(blocks, packets) && WorkersOk(blocks, tcbs) && Takes(blocks, packet.id)
      ensures Now() == Written(old(Now()), tcb.id, packet, old(tcb.task.v1), old(tcb.task.v2))
    {
      hide *;
      NowIs();
      WrittenIs(Now(), tcb.id, packet, tcb.task.v1, tcb.task.v2);
      WorkersAt(blocks, tcbs, tcb);
      var v1 := if tcb.task.v1 == ID_HANDLER_A then ID_HANDLER_B else ID_HANDLER_A;
      var v2 := RewritePacket(packet, v1, tcb.task.v2, tcb);
      NowIs();
      SetWorker(tcb, v1, v2, {packet});
      NowIs();
    }

    method RewritePacket(packet: Packet, id: nat, v: int, ghost tcb: Tcb) returns (v2: int)
      requires Holding({packet}) && tcb in tcbs
      modifies packet`id, packet`a1, packet`a2
      ensures Holding({packet}) && packet.id == id
      ensures v2 == Letter(v, DATA_SIZE) && Mails(packets) == Lettered(Readdressed(old(Mails(packets)), packet, id), packet, v)
      ensures old(Addressed(blocks, packets)) && Takes(blocks, id) ==> Addressed(blocks, packets)
    {
      hide *;
      Parts({packet});
      SetId(packet, id, blocks, packets);
      v2 := WriteLetters(packet, v, packets);
      Again(tcb, {packet});
    }

    method SetWorker(tcb: Tcb, v1: nat, v2: int, ghost hand: set<Packet>)
      requires Holding(hand) && tcb in tcbs && tcb.task.WorkerTask?
      modifies tcb`task
      ensures Holding(hand) && tcb.task == WorkerTask(v1, v2)
      ensures Roles(blocks) == old(Roles(blocks))[tcb.id := RoleOf(WorkerTask(v1, v2))]
      ensures old(WorkersOk(blocks, tcbs)) ==> WorkersOk(blocks, tcbs)
    {
      hide *;
      Parts(hand);
      TcbIs(tcb, lists);
      ghost var task := tcb.task;
      SetTask(tcb, WorkerTask(v1, v2), blocks, tcbs);
      WorkerSame(tcb.queue, tcb.state, task, tcb.task, tcb.id, lists);
      TcbIs(tcb, lists);
      Again(tcb, hand);
    }

    method RunHandler(tcb: Tcb, packet: Packet?, ghost hand: set<Packet>) returns (next: Tcb?)
      requires hand == (if packet == null then {} else {packet}) && Holding(hand)
      requires tcb == currentTcb && tcb in tcbs && tcb.task.HandlerTask? && currentId == tcb.id
      requires Addressed(blocks, packets) && WorkersOk(blocks, tcbs)
      modifies this`queueCount, this`lists, packets`id, packets`link, packets`a1, tcbs`queue, tcbs`state, tcb`task
      ensures Outcome(Now(), next) == TurnHandler(blocks, old(Now()), tcb, packet)
      ensures Holding({}) && Known(tcbs, next) && Addressed(blocks, packets) && WorkersOk(blocks, tcbs)
    {
      hide *;
      TurnHandlerIs(blocks, Now(), tcb, packet);
      NowIs();
      if packet != null {
        HandlerAdd(tcb, packet);
      }
      next := RunFiled(tcb);
    }

    /** The handler's run after the packet is filed. */
    method RunFiled(tcb: Tcb) returns (next: Tcb?)
      requires Holding({}) && tcb == currentTcb && tcb in tcbs && tcb.task.HandlerTask? && currentId == tcb.id
      requires Addressed(blocks, packets) && WorkersOk(blocks, tcbs)
      modifies this`queueCount, this`lists, packets`id, packets`link, packets`a1, tcbs`queue, tcbs`state, tcb`task
      ensures Outcome(Now(), next) == TurnFiled(blocks, old(Now()), tcb)
      ensures Holding({}) && Known(tcbs, next) && Addressed(blocks, packets) && WorkersOk(blocks, tcbs)
    {
      hide *;
      TurnFiledIs(blocks, Now(), tcb);
      NowIs();
      Sender(tcb);
      HandlerHolds(tcb);
      if tcb.task.work != null {
        var work := tcb.task.work;
        FirstWork(tcb);
        MailIs(packets, work);
        var count := work.a1;
        if count < DATA_SIZE {
          if tcb.task.data != null {
            next := SendLetter(tcb, work);
            return;
          }
        } else {
          next := SendWork(tcb);
          return;
        }
      }
      next := SuspendCurrent();
    }

    /** The first device packet gets the next letter of the work packet, and goes on. */
    method SendLetter(tcb: Tcb, work: Packet) returns (next: Tcb?)
      requires Holding({}) && tcb == currentTcb && tcb in tcbs && tcb.task.HandlerTask? && currentId == tcb.id && Takes(blocks, tcb.id)
      requires Addressed(blocks, packets) && WorkersOk(blocks, tcbs) && tcb.task.data != null
      requires work in packets && work.kind.WorkKind? && 0 <= work.a1 < DATA_SIZE
      modifies this`queueCount, this`lists, packets`id, packets`link, packets`a1, tcbs`queue, tcbs`state, tcb`task
      ensures Holding({}) && Known(tcbs, next) && Addressed(blocks, packets) && WorkersOk(blocks, tcbs)
      ensures var l := old(At(lists, Data(tcb.id)));
              l != [] &&
              Outcome(Now(), next) ==
              Send(blocks, old(Now()).(lists := Rest(old(lists), Data(tcb.id)), mails := Copied(old(Now()).mails, l[0], work)), l[0], tcb)
    {
      hide *;
      NowIs();
      var v := HandlerTakeData(tcb);
      NowIs();
      ReceiverKnown(v);
      var count := work.a1;
      CopyLetter(v, work, count, packets);
      Again(tcb, {v});
      NowIs();
      next := QueuePacket(v);
    }

    /** A work packet that was read to the end goes on. */
    method SendWork(tcb: Tcb) returns (next: Tcb?)
      requires Holding({}) && tcb == currentTcb && tcb in tcbs && tcb.task.HandlerTask? && currentId == tcb.id && Takes(blocks, tcb.id)
      requires Addressed(blocks, packets) && WorkersOk(blocks, tcbs) && tcb.task.work != null
      modifies this`queueCount, this`lists, packets`id, packets`link, tcbs`queue, tcbs`state, tcb`task
      ensures Holding({}) && Known(tcbs, next) && Addressed(blocks, packets) && WorkersOk(blocks, tcbs)
      ensures var l := old(At(lists, Work(tcb.id)));
              l != [] && Outcome(Now(), next) == Send(blocks, old(Now()).(lists := Rest(old(lists), Work(tcb.id))), l[0], tcb)
    {
      hide *;
      var v := HandlerTakeWork(tcb);
      ReceiverKnown(v);
      next := QueuePacket(v);
    }

    lemma HandlerHolds(tcb: Tcb)
      requires Holding({}) && tcb in tcbs && tcb.task.HandlerTask?
      ensures tcb.task.work == null <==> At(lists, Work(tcb.id)) == []
      ensures tcb.task.data == null <==> At(lists, Data(tcb.id)) == []
      ensures tcb.task.work != null ==> tcb.task.work == At(lists, Work(tcb.id))[0]
    {
      TcbAt(tcbs, lists, tcb);
      HandlerLists(tcb.queue, tcb.state, tcb.task, tcb.id, lists);
    }

    /** The packet in hand is for a task there is. */
    lemma ReceiverKnown(v: Packet)
      requires Holding({v}) && Addressed(blocks, packets)
      ensures v in packets && Takes(blocks, v.id)
      ensures BlocksOk(blocks, tcbs) && Known(tcbs, list) && Known(tcbs, currentTcb) && (forall u :: u in tcbs ==> TcbOk(u, lists))
      ensures Linked(lists, packets) && Partition(lists, packets - {v}) && SlotsOk(lists, blocks) && PayloadOk(packets)
    {
      Parts({v});
      AddressedAt(blocks, packets, v);
    }

    lemma FirstWork(tcb: Tcb)
      requires Holding({}) && tcb in tcbs && tcb.task.HandlerTask? && tcb.task.work != null
      ensures tcb.task.work in packets && tcb.task.work.kind.WorkKind? && tcb.task.work.a1 >= 0
    {
      TcbAt(tcbs, lists, tcb);
      HandlerLists(tcb.queue, tcb.state, tcb.task, tcb.id, lists);
      assert Place(lists, Work(tcb.id), 0);
      LinkAt(lists, packets, Work(tcb.id), 0);
    }

    /** One run of a block: it takes a packet if it is suspended and has one, and its task runs. */
    method RunBlock(tcb: Tcb) returns (next: Tcb?)
      requires Holding({}) && Addressed(blocks, packets) && WorkersOk(blocks, tcbs)
      requires tcb == currentTcb && tcb in tcbs && currentId == tcb.id
      modifies this`holdCount, this`queueCount, this`lists
      modifies packets`id, packets`link, packets`a1, packets`a2, tcbs`queue, tcbs`state, tcb`task
      ensures Outcome(Now(), next) == TurnBlock(blocks, old(Now()), tcb)
      ensures Holding({}) && Known(tcbs, next) && Addressed(blocks, packets) && WorkersOk(blocks, tcbs)
    {
      hide *;
      Parts({});
      NowIs();
      EntryIs(blocks, tcbs, tcb);
      TurnBlockIs(blocks, Now(), tcb);
      FetchedRoles(Now(), tcb.id);
      var packet: Packet? := null;
      ghost var hand := {};
      if tcb.state == STATE_SUSPENDED_RUNNABLE {
        packet := TakePacket(tcb);
        hand := {packet};
      }
      TurnTaskIs(blocks, Now(), tcb, packet, tcb.task);
      match tcb.task
      case IdleTask(_, _) =>
        assert packet == null;
        next := RunIdle(tcb);
      case DeviceTask(_) =>
        next := RunDevice(tcb, packet, hand);
      case WorkerTask(_, _) =>
        next := RunWorker(tcb, packet, hand);
      case HandlerTask(_, _) =>
        next := RunHandler(tcb, packet, hand);
    }

    /** One turn of the scheduler's loop: a held or suspended block is passed over, any other runs. */
    method Step()
      requires Valid() && currentTcb != null
      modifies this`holdCount, this`queueCount, this`lists, this`currentTcb, this`currentId
      modifies packets`id, packets`link, packets`a1, packets`a2, tcbs`queue, tcbs`state, tcbs`task
      ensures Valid()
      ensures Outcome(Now(), currentTcb) == Turn(blocks, old(Now()), old(currentTcb))
    {
      ValidIs();
      hide *;
      Parts({});
      var t := currentTcb;
      IsKnown(t);
      NowIs();
      EntryIs(blocks, tcbs, t);
      TurnIs(blocks, Now(), t);
      HeldOrSuspended(t);
      if t.IsHeldOrSuspended() {
        LinkKnown(t);
        MoveTo(t.link, currentId);
      } else {
        MoveTo(t, t.id);
        var next := RunBlock(t);
        MoveTo(next, currentId);
      }
      ValidIs();
    }

    lemma ValidIs()
      ensures Valid() <==> Holding({}) && Addressed(blocks, packets) && WorkersOk(blocks, tcbs)
    {
    }

    method MoveTo(next: Tcb?, id: nat)
      requires Holding({}) && Known(tcbs, next)
      modifies this`currentTcb, this`currentId
      ensures Holding({}) && currentTcb == next && currentId == id && Now() == old(Now())
    {
      currentTcb := next;
      currentId := id;
    }

    /**
      Any number of turns from the head of the block list: before and after each, every
      packet is in exactly one place and the blocks are as they should be.
    */
    method Schedule(turns: nat)
      requires Valid()
      modifies this`holdCount, this`queueCount, this`lists, this`currentTcb, this`currentId
      modifies packets`id, packets`link, packets`a1, packets`a2, tcbs`queue, tcbs`state, tcbs`task
      ensures Valid()
      ensures Outcome(Now(), currentTcb) == Turns(blocks, Outcome(old(Now()), list), turns)
    {
      hide *;
      ValidIs();
      Parts({});
      MoveTo(list, currentId);
      ValidIs();
      ghost var start := Outcome(Now(), currentTcb);
      TurnsNone(blocks, start);
      var n := 0;
      while currentTcb != null && n < turns
        invariant Valid() && n <= turns && Outcome(Now(), currentTcb) == Turns(blocks, start, n)
        decreases turns - n
      {
        TurnsLast(blocks, start, n);
        Step();
        n := n + 1;
      }
      if currentTcb == null {
        TurnsStopped(blocks, start, n, turns);
      }
    }

    /** Queues, devices and bits as the books say. */
    lemma Truths()
      requires Holding({}) && Crew(blocks) && RolesOk(Roles(blocks))
      ensures Truthful(lists, States(blocks)) && Partition(lists, packets)
    {
      hide *;
      Parts({});
      forall id: nat | id < 6 ensures TruthAt(lists, States(blocks), id) {
        CrewIs(blocks, id);
        BlockKnown(id);
        RolesAre(Roles(blocks), id);
        BlockTruth(blocks[id]);
        TruthOfOne(lists, States(blocks), Roles(blocks), id);
      }
      TruthOfAll(lists, States(blocks));
    }

    lemma BlockTruth(t: Tcb)
      requires Holding({}) && t in tcbs && t.id in Roles(blocks)
      ensures StateAt(States(blocks), t.id) & STATE_RUNNABLE != 0 <==> At(lists, Queue(t.id)) != []
      ensures Roles(blocks)[t.id].Device? ==> |At(lists, Pending(t.id))| <= 1
      ensures Roles(blocks)[t.id].Device? && StateAt(States(blocks), t.id) & STATE_SUSPENDED != 0 ==> At(lists, Pending(t.id)) == []
    {
      hide *;
      Parts({});
      EntryIs(blocks, tcbs, t);
      TcbIs(t, lists);
      BlockSays(t.queue, t.state, t.task, t.id, lists);
    }

    /** The loop as a whole: with the benchmark's kind of blocks and packets it ends. */
    method ScheduleAll() returns (ghost turns: nat)
      requires Valid() && Crew(blocks) && Orderly(Now())
      modifies this`holdCount, this`queueCount, this`lists, this`currentTcb, this`currentId
      modifies packets`id, packets`link, packets`a1, packets`a2, tcbs`queue, tcbs`state, tcbs`task
      ensures Valid() && currentTcb == null && turns <= TurnsLeft(Outcome(old(Now()), list))
      ensures Outcome(Now(), null) == Turns(blocks, Outcome(old(Now()), list), turns)
    {
      hide *;
      ValidIs();
      Parts({});
      MoveTo(list, currentId);
      ValidIs();
      ghost var start := Outcome(Now(), currentTcb);
      TurnsNone(blocks, start);
      turns := 0;
      while currentTcb != null
        invariant Valid() && Orderly(Now()) && Outcome(Now(), currentTcb) == Turns(blocks, start, turns)
        invariant TurnsLeft(Outcome(Now(), currentTcb)) + turns <= TurnsLeft(start)
        decreases TurnsLeft(Outcome(Now(), currentTcb))
      {
        TurnsLast(blocks, start, turns);
        StepProgresses();
        Step();
        turns := turns + 1;
      }
    }

    lemma StepProgresses()
      requires Valid() && Crew(blocks) && Orderly(Now()) && currentTcb != null
      ensures var o := Turn(blocks, Now(), currentTcb);
              Orderly(o.books) && TurnsLeft(o) < TurnsLeft(Outcome(Now(), currentTcb))
    {
      hide *;
      ValidIs();
      Parts({});
      NowIs();
      OrderlyParts(Now());
      Truths();
      IsKnown(currentTcb);
      LinkKnown(currentTcb);
      CrewMember(blocks, currentTcb);
      TurnProgresses(blocks, packets, Now(), currentTcb);
      ProgressIs(blocks, Now(), currentTcb, Turn(blocks, Now(), currentTcb));
    }

    /** Between two turns: one place for every packet, and the state bits tell the truth. */
    lemma AtEveryTurn(p: Packet, t: Tcb)
      requires Valid() && p in packets && t in tcbs
      ensures exists s, i :: Place(lists, s, i) && At(lists, s)[i] == p &&
                forall u, j :: Place(lists, u, j) && At(lists, u)[j] == p ==> u == s && j == i
      ensures t.state & STATE_RUNNABLE != 0 <==> t.queue != null
      ensures t.queue == First(At(lists, Queue(t.id)))
      ensures t.task.DeviceTask? && t.state & STATE_SUSPENDED != 0 ==> t.task.v == null
    {
      Parts({});
      var s, i := ExactlyOnePlace(lists, packets, p);
      TcbAt(tcbs, lists, t);
    }

    // ----- setting up -----

    constructor ()
      ensures Valid() && packets == {} && tcbs == {} && blocks == map[] && list == null
      ensures queueCount == holdCount == 0 && lists == map[]
    {
      queueCount, holdCount := 0, 0;
      blocks, list, currentTcb, currentId := map[], null, null, 0;
      tcbs, packets, lists := {}, {}, map[];
    }

    /**
      A new block, first in the list, with a list of packets that are not in any place yet.
      The new block's identity must be new, and an idle task must come without packets.
    */
    method AddTask(id: nat, priority: int, queue: Packet?, task: Task, ghost l: seq<Packet>)
      requires Holding({}) && id !in blocks
      requires Listed(queue, l, packets)
      requires task == (if task.HandlerTask? then HandlerTask(null, null) else if task.DeviceTask? then DeviceTask(null) else task)
      requires task.IdleTask? ==> queue == null
      modifies this
      ensures Holding({}) && packets == old(packets) + ToSet(l) && tcbs == old(tcbs) + {currentTcb}
      ensures currentTcb != null && fresh(currentTcb) && list == currentTcb && blocks == old(blocks)[id := currentTcb]
      ensures currentTcb.id == id && currentTcb.task == task && currentTcb.isIdle == task.IdleTask?
      ensures currentTcb.priority == priority && currentTcb.link == old(list) && queueCount == old(queueCount) && holdCount == old(holdCount)
      ensures lists == old(lists)[Queue(id) := l]
      ensures currentTcb.state == if queue == null then STATE_SUSPENDED else STATE_SUSPENDED_RUNNABLE
    {
      hide *;
      NoSlots(id);
      Parts({});
      ListedIs(queue, l, packets);
      var t := new Tcb(list, id, priority, queue, task);
      ghost var was, known := lists, packets;
      PartitionMore(lists, packets, Queue(id), l);
      LinkedMore(lists, packets, Queue(id), queue, l);
      SlotsMore(lists, blocks, id, t, l);
      BlocksMore(blocks, tcbs, t);
      PayloadMore(packets, l);
      NewBlock(t, lists, l);
      TcbIs(t, lists[Queue(id) := l]);
      AtSet(lists, Queue(id), l);
      assert Queue(id).id == id;
      AllTcbs(tcbs, lists);
      TcbsChanged(tcbs + {t}, blocks[id := t], t, lists, Queue(id), l);
      Enlarge(t, blocks[id := t], tcbs + {t}, packets + ToSet(l), lists[Queue(id) := l]);
    }

    lemma NoSlots(id: nat)
      requires Holding({}) && id !in blocks
      ensures At(lists, Queue(id)) == At(lists, Work(id)) == At(lists, Data(id)) == At(lists, Pending(id)) == []
    {
      assert forall s: Slot :: s.id == id ==> !Place(lists, s, 0);
      assert !Place(lists, Queue(id), 0) && !Place(lists, Work(id), 0) && !Place(lists, Data(id), 0) && !Place(lists, Pending(id), 0);
    }

    /** The writes of an addition. */
    method Enlarge(t: Tcb, ghost blocks1: map<nat, Tcb>, ghost tcbs1: set<Tcb>, ghost packets1: set<Packet>, ghost lists1: Lists)
      requires blocks1 == blocks[t.id := t] && t in tcbs1 && BlocksOk(blocks1, tcbs1) && Known(tcbs1, t)
      requires Linked(lists1, packets1) && Partition(lists1, packets1) && SlotsOk(lists1, blocks1)
      requires PayloadOk(packets1) && TcbsOk(tcbs1, lists1)
      modifies this
      ensures Holding({})
      ensures packets == packets1 && tcbs == tcbs1 && blocks == blocks1
      ensures list == currentTcb == t && lists == lists1 && queueCount == old(queueCount) && holdCount == old(holdCount)
    {
      hide *;
      Prepend(t, tcbs1, packets1, lists1);
      Whole();
    }

    method Prepend(t: Tcb, ghost tcbs1: set<Tcb>, ghost packets1: set<Packet>, ghost lists1: Lists)
      modifies this
      ensures list == currentTcb == t && blocks == old(blocks)[t.id := t]
      ensures tcbs == tcbs1 && packets == packets1 && lists == lists1 && queueCount == old(queueCount) && holdCount == old(holdCount)
    {
      currentTcb := t;
      list := currentTcb;
      blocks := blocks[t.id := currentTcb];
      tcbs, packets, lists := tcbs1, packets1, lists1;
    }

    /** The same for a task that is running at once; it comes without packets. */
    method AddRunningTask(id: nat, priority: int, task: Task)
      requires Holding({}) && id !in blocks
      requires task == (if task.HandlerTask? then HandlerTask(null, null) else if task.DeviceTask? then DeviceTask(null) else task)
      modifies this
      ensures Holding({}) && packets == old(packets) && tcbs == old(tcbs) + {currentTcb}
      ensures currentTcb != null && fresh(currentTcb) && list == currentTcb && blocks == old(blocks)[id := currentTcb]
      ensures currentTcb.id == id && currentTcb.task == task && currentTcb.isIdle == task.IdleTask?
      ensures currentTcb.priority == priority && currentTcb.link == old(list) && queueCount == old(queueCount) && holdCount == old(holdCount)
      ensures lists == old(lists)[Queue(id) := []] && currentTcb.state == STATE_RUNNING
    {
      EmptyList(packets);
      hide *;
      AddTask(id, priority, null, task, []);
      AtSet(old(lists), Queue(id), []);
      Parts({});
      var t := currentTcb;
      TcbIs(t, lists);
      AtNone(t.queue, t.state, t.task, id, lists);
      t.state := STATE_RUNNING;
      TcbIs(t, lists);
      Again(t, {});
    }

    lemma Whole()
      requires BlocksOk(blocks, tcbs) && Known(tcbs, list) && Known(tcbs, currentTcb) && TcbsOk(tcbs, lists)
      requires Linked(lists, packets) && Partition(lists, packets) && SlotsOk(lists, blocks) && PayloadOk(packets)
      ensures Holding({})
    {
      assert packets - {} == packets;
    }
  }

  // ----- the benchmark -----

  const COUNT := 1000
  const EXPECTED_QUEUE_COUNT := 2322
  const EXPECTED_HOLD_COUNT := 928

  function TaskFor(id: nat): Task {
    if id == ID_IDLE then IdleTask(1, COUNT)
    else if id == ID_WORKER then WorkerTask(ID_HANDLER_A, 0)
    else if IsHandler(id) then HandlerTask(null, null)
    else DeviceTask(null)
  }

  /** How many packets a block starts with; the worker's are work packets for itself, a handler's are for its device. */
  function Supply(id: nat): nat {
    if id == ID_WORKER then 2 else if IsHandler(id) then 3 else 0
  }

  predicate Supplied(id: nat, p: Packet, m: Mail) {
    m.a1 == 0 && if id == ID_WORKER then p.kind.WorkKind? && m.id == ID_WORKER else p.kind.DeviceKind? && m.id == id + 2
  }

  function StateFor(id: nat): bv8 {
    if id == ID_IDLE then STATE_RUNNING else if Supply(id) == 0 then STATE_SUSPENDED else STATE_SUSPENDED_RUNNABLE
  }

  /** The blocks below n: their priorities, and each linked to the one before. */
  ghost predicate Chained(blocks: map<nat, Tcb>, n: nat) {
    && (forall id: nat :: id in blocks <==> id < n)
    && (forall id :: id in blocks ==> blocks[id].id == id && blocks[id].priority == 1000 * id && (blocks[id].isIdle <==> id == ID_IDLE))
    && (0 in blocks ==> blocks[0].link == null)
    && forall id, below :: id in blocks && below in blocks && id == below + 1 ==> blocks[id].link == blocks[below]
  }

  /** The blocks below n as they are set up, and only their packets. */
  ghost predicate Prepared(b: Books, n: nat) {
    && b.holds == b.sends == 0
    && (forall id: nat :: id in b.states <==> id < n) && (forall id :: id in b.states ==> b.states[id] == StateFor(id))
    && (forall id: nat :: id in b.roles <==> id < n) && (forall id :: id in b.roles ==> b.roles[id] == RoleOf(TaskFor(id)))
    && (forall u :: u in b.lists ==> u.Queue? && u.id < n)
    && (forall id: nat :: id < n ==> |At(b.lists, Queue(id))| == Supply(id))
    && forall u, i :: Place(b.lists, u, i) ==> Supplied(u.id, At(b.lists, u)[i], MailAt(b.mails, At(b.lists, u)[i]))
  }

  /** The set-up when n blocks were added. */
  ghost predicate SetUp(s: Scheduler, n: nat)
    reads s, s.tcbs, s.packets
  {
    && s.Holding({}) && Chained(s.blocks, n) && s.list == (if n == 0 then null else s.blocks[n - 1])
    && Prepared(s.Now(), n)
  }

  lemma SetUpIs(s: Scheduler, n: nat)
    requires SetUp(s, n)
    ensures s.Holding({}) && Chained(s.blocks, n) && Prepared(s.Now(), n) && n !in s.blocks
    ensures s.list == if n == 0 then null else s.blocks[n - 1]
  {
    hide Scheduler.Holding, Scheduler.Now, Prepared;
  }

  /** n packets of one kind for one task, as a list. */
  method MakeQueue(n: nat, id: nat, kind: Kind, ghost packets: set<Packet>) returns (queue: Packet?, ghost l: seq<Packet>)
    ensures |l| == n && Listed(queue, l, packets)
    ensures fresh(ToSet(l)) && forall p :: p in l ==> p.id == id && p.kind == kind && p.a1 == 0
  {
    queue, l := null, [];
    var i := 0;
    while i < n
      invariant i <= n && |l| == i && fresh(l) && queue == First(l)
      invariant forall j, k :: 0 <= j < k < |l| ==> l[j] != l[k]
      invariant forall j :: 0 <= j < |l| ==> l[j].id == id && l[j].kind == kind && l[j].a1 == 0
      invariant forall j :: 0 <= j < |l| ==> l[j].link == After(l, j) && PayloadFit(l[j])
    {
      var p := new Packet(queue, id, kind);
      queue, l := p, [p] + l;
      i := i + 1;
    }
  }

  lemma ChainedMore(blocks: map<nat, Tcb>, n: nat, t: Tcb)
    requires Chained(blocks, n) && t.id == n && t.priority == 1000 * n && (t.isIdle <==> n == ID_IDLE)
    requires t.link == if n == 0 then null else blocks[n - 1]
    ensures Chained(blocks[n := t], n + 1)
  {
    assert forall id: nat :: id in blocks[n := t] <==> id in blocks || id == n;
  }

  lemma PreparedMore(b: Books, n: nat, packets: set<Packet>, l: seq<Packet>, now: Books)
    requires Prepared(b, n) && |l| == Supply(n) && forall p :: p in l ==> Supplied(n, p, MailAt(now.mails, p))
    requires now.lists == b.lists[Queue(n) := l] && now.states == b.states[n := StateFor(n)]
    requires now.roles == b.roles[n := RoleOf(TaskFor(n))] && now.holds == b.holds && now.sends == b.sends
    requires forall u, i :: Place(b.lists, u, i) ==> At(b.lists, u)[i] in packets
    requires forall p :: p in packets ==> MailAt(now.mails, p) == MailAt(b.mails, p)
    ensures Prepared(now, n + 1)
  {
    SuppliesMore(b, n, packets, l, now);
    hide Supplied, StateFor, TaskFor, RoleOf, Supply, MailAt, Place;
  }

  lemma SuppliesMore(b: Books, n: nat, packets: set<Packet>, l: seq<Packet>, now: Books)
    requires Prepared(b, n) && forall p :: p in l ==> Supplied(n, p, MailAt(now.mails, p))
    requires now.lists == b.lists[Queue(n) := l]
    requires forall u, i :: Place(b.lists, u, i) ==> At(b.lists, u)[i] in packets
    requires forall p :: p in packets ==> MailAt(now.mails, p) == MailAt(b.mails, p)
    ensures forall u, i :: Place(now.lists, u, i) ==> Supplied(u.id, At(now.lists, u)[i], MailAt(now.mails, At(now.lists, u)[i]))
  {
    forall u, i | Place(now.lists, u, i) ensures Supplied(u.id, At(now.lists, u)[i], MailAt(now.mails, At(now.lists, u)[i])) {
      if u != Queue(n) {
        assert Place(b.lists, u, i);
      }
    }
    hide Supplied, StateFor, TaskFor, RoleOf, Supply, MailAt;
  }

  lemma BlocksAdded(blocks: map<nat, Tcb>, id: nat, t: Tcb)
    ensures States(blocks[id := t]) == States(blocks)[id := t.state]
    ensures Roles(blocks[id := t]) == Roles(blocks)[id := RoleOf(t.task)]
  {
  }

  lemma MailsAdded(packets: set<Packet>, l: seq<Packet>)
    ensures forall p :: p in packets ==> MailAt(Mails(packets + ToSet(l)), p) == MailAt(Mails(packets), p)
    ensures forall p :: p in l ==> MailAt(Mails(packets + ToSet(l)), p) == Mail(p.id, p.a1, p.a2)
  {
  }

  lemma PlacesKnown(lists: Lists, packets: set<Packet>)
    requires Linked(lists, packets)
    ensures forall u, i :: Place(lists, u, i) ==> At(lists, u)[i] in packets
  {
  }

  lemma SuppliedWith(id: nat, l: seq<Packet>, to: nat, kind: Kind)
    requires 0 < Supply(id) ==> to == (if id == ID_WORKER then id else id + 2) && kind == if id == ID_WORKER then WorkKind else DeviceKind
    requires |l| == Supply(id) && forall p :: p in l ==> p.id == to && p.kind == kind && p.a1 == 0
    ensures forall p :: p in l ==> Supplied(id, p, Mail(p.id, p.a1, p.a2))
  {
  }

  lemma Whole(s: Scheduler, n: nat)
    requires s.Holding({}) && Chained(s.blocks, n) && Prepared(s.Now(), n)
    requires s.list == if n == 0 then null else s.blocks[n - 1]
    ensures SetUp(s, n)
  {
    hide Scheduler.Holding, Scheduler.Now, Prepared;
  }

  /** One task of the benchmark with n packets for task `to` in its queue. */
  method AddWithPackets(s: Scheduler, id: nat, priority: int, task: Task, n: nat, to: nat, kind: Kind)
    requires SetUp(s, id) && id > 0 && priority == 1000 * id && task == TaskFor(id) && n == Supply(id)
    requires 0 < n ==> to == (if id == ID_WORKER then id else id + 2) && kind == if id == ID_WORKER then WorkKind else DeviceKind
    modifies s
    ensures SetUp(s, id + 1) && fresh(s.tcbs - old(s.tcbs)) && fresh(s.packets - old(s.packets))
  {
    hide *;
    SetUpIs(s, id);
    s.Parts({});
    PlacesKnown(s.lists, s.packets);
    var queue, l := MakeQueue(n, to, kind, s.packets);
    SuppliedWith(id, l, to, kind);
    ListedIs(queue, l, s.packets);
    TaskParts(id);
    s.NowIs();
    ghost var was, blocks, packets := s.Now(), s.blocks, s.packets;
    s.AddTask(id, priority, queue, task, l);
    BlocksAdded(blocks, id, s.currentTcb);
    MailsAdded(packets, l);
    s.NowIs();
    ChainedMore(blocks, id, s.currentTcb);
    PreparedMore(was, id, packets, l, s.Now());
    Whole(s, id + 1);
  }

  lemma TaskParts(id: nat)
    requires id > 0
    ensures var task := TaskFor(id);
            && !task.IdleTask? && id != ID_IDLE
            && task == if task.HandlerTask? then HandlerTask(null, null) else if task.DeviceTask? then DeviceTask(null) else task
    ensures StateFor(id) == if Supply(id) == 0 then STATE_SUSPENDED else STATE_SUSPENDED_RUNNABLE
  {
  }

  /** The benchmark: its blocks and packets, and the run to its end; whether the counts are as expected. */
  method RunRichards() returns (s: Scheduler, expected: bool, ghost start: Outcome, ghost turns: nat)
    ensures Chained(s.blocks, 6) && start.next == s.blocks[5] && Prepared(start.books, 6)
    ensures s.Valid() && s.currentTcb == null && turns <= 50534
    ensures Outcome(s.Now(), null) == Turns(s.blocks, start, turns)
    ensures expected <==> s.queueCount == EXPECTED_QUEUE_COUNT && s.holdCount == EXPECTED_HOLD_COUNT
  {
    s := StartRichards();
    hide *;
    Tables();
    AddWithPackets(s, 1, 1000, WorkerTask(2, 0), 2, 1, WorkKind);
    AddWithPackets(s, 2, 2000, HandlerTask(null, null), 3, 4, DeviceKind);
    AddWithPackets(s, 3, 3000, HandlerTask(null, null), 3, 5, DeviceKind);
    AddWithPackets(s, 4, 4000, DeviceTask(null), 0, 4, DeviceKind);
    AddWithPackets(s, 5, 5000, DeviceTask(null), 0, 5, DeviceKind);
    SetUpIs(s, 6);
    ReadyToRun(s);
    start := Outcome(s.Now(), s.list);
    turns := s.ScheduleAll();
    expected := s.queueCount == EXPECTED_QUEUE_COUNT && s.holdCount == EXPECTED_HOLD_COUNT;
  }

  lemma Tables()
    ensures TaskFor(1) == WorkerTask(2, 0) && TaskFor(2) == TaskFor(3) == HandlerTask(null, null) && TaskFor(4) == TaskFor(5) == DeviceTask(null)
    ensures Supply(1) == 2 && Supply(2) == Supply(3) == 3 && Supply(4) == Supply(5) == 0 && ID_WORKER == 1
    ensures TaskFor(0) == IdleTask(1, 1000) && Supply(0) == 0 && StateFor(0) == STATE_RUNNING && ID_IDLE == 0
  {
  }

  method StartRichards() returns (s: Scheduler)
    ensures fresh(s) && SetUp(s, 1) && fresh(s.tcbs) && fresh(s.packets)
  {
    s := new Scheduler();
    hide *;
    s.ValidIs();
    Nothing(s);
    Tables();
    s.NowIs();
    PlacesKnown(map[], {});
    ghost var was, blocks := s.Now(), s.blocks;
    s.AddRunningTask(0, 0, IdleTask(1, 1000));
    BlocksAdded(blocks, 0, s.currentTcb);
    s.NowIs();
    ChainedMore(blocks, 0, s.currentTcb);
    PreparedMore(was, 0, {}, [], s.Now());
    Whole(s, 1);
  }

  lemma Nothing(s: Scheduler)
    requires s.blocks == map[] && s.lists == map[] && s.holdCount == s.queueCount == 0
    ensures Chained(s.blocks, 0) && Prepared(s.Now(), 0)
    ensures Linked(map[], {}) && At(map[], Queue(0)) == []
  {
  }

  lemma ReadyToRun(s: Scheduler)
    requires SetUp(s, 6)
    ensures s.Valid() && Crew(s.blocks) && Orderly(s.Now()) && TurnsLeft(Outcome(s.Now(), s.list)) == 50534
  {
    hide *;
    SetUpIs(s, 6);
    s.Parts({});
    s.NowIs();
    s.ValidIs();
    ChainIsCrew(s.blocks);
    AllAddressed(s.Now(), s.blocks, s.packets);
    AllWorkers(s.blocks, s.tcbs);
    PreparedOrderly(s.Now());
    PreparedMeasure(s.Now(), s.list);
  }

  lemma ChainIsCrew(blocks: map<nat, Tcb>)
    requires Chained(blocks, 6)
    ensures Crew(blocks) && blocks[5].id == 5
    ensures forall id: nat :: 0 < id < 6 ==> Takes(blocks, id)
  {
    assert blocks.Keys == {0, 1, 2, 3, 4, 5};
    forall id | id in blocks ensures InCrew(blocks, blocks[id].link) && Position(blocks[id].link) <= id {
      assert id > 0 ==> id - 1 in blocks;
    }
  }

  lemma AllAddressed(b: Books, blocks: map<nat, Tcb>, packets: set<Packet>)
    requires Partition(b.lists, packets) && Prepared(b, 6) && b.mails == Mails(packets)
    requires forall id: nat :: 0 < id < 6 ==> Takes(blocks, id)
    ensures Addressed(blocks, packets)
  {
    forall p | p in packets ensures Takes(blocks, p.id) {
      var u, i := ExactlyOnePlace(b.lists, packets, p);
      MailIs(packets, p);
    }
    hide Takes, Partition, Mails, MailAt;
  }

  lemma AllWorkers(blocks: map<nat, Tcb>, tcbs: set<Tcb>)
    requires forall id: nat :: 0 < id < 6 ==> Takes(blocks, id)
    ensures WorkersOk(blocks, tcbs)
  {
    hide Takes;
  }

  lemma PreparedOrderly(b: Books)
    requires Prepared(b, 6)
    ensures Orderly(b)
  {
  }

  /** The idle task's 1000 runs, and packets with 66 steps to go in all. */
  lemma PreparedMeasure(b: Books, t: Tcb)
    requires Prepared(b, 6) && t.id == 5
    ensures TurnsLeft(Outcome(b, t)) == 50534
  {
    forall u: Slot | u.id < 6 ensures SumAt(u, b.lists, b.mails) == if u.Queue? then Supply(u.id) * (if u.id == ID_WORKER then 6 else 9) else 0 {
      forall p | p in At(b.lists, u) ensures Weight(u, p, MailAt(b.mails, p)) == if u.id == ID_WORKER then 6 else 9 {
        var i :| 0 <= i < |At(b.lists, u)| && At(b.lists, u)[i] == p;
        assert Place(b.lists, u, i);
      }
      SumOfEqual(u, At(b.lists, u), b.mails, if u.id == ID_WORKER then 6 else 9);
    }
    assert Load(b.lists, b.mails) == 66;
    assert AllReleased(b.lists, b.states) == AllWakeful(b.states) == 0;
    hide Load, AllReleased, AllWakeful;
  }

  lemma {:induction false} SumOfEqual(s: Slot, l: seq<Packet>, mails: map<Packet, Mail>, w: nat)
    requires forall p :: p in l ==> Weight(s, p, MailAt(mails, p)) == w
    ensures Sum(s, l, mails) == |l| * w
  {
    hide Weight;
    if l != [] {
      SumOfEqual(s, l[1..], mails, w);
    }
  }
}
