/**
  What happens to the messages themselves: one that can be delivered is delivered, a
  failure has its reason in the state of that moment, and each queue is first in,
  first out over every run.
*/
module SendOrder {
  import opened Wrappers
  import opened SendOrReject

  /** The two classes of messages. */
  lemma Planes(k: Kind)
    ensures IsDataPlane(k) <==> k in {PostMessage, PostMessageTyped, PostStreamChunk, PostStreamChunkRaw, PostStreamChunkRawBin,
                                      PostStreamChunks, PostStreamChunksRaw, PostStreamControl}
    ensures !IsDataPlane(k) <==> k in {Eval, SetGlobal, Memory, Gc, Close, RegisterModule, ClearModule}
  {
  }

  // ----- one send -----

  /** Everything but what becomes of promises. */
  predicate SameQueues(s: State, u: State) {
    u == s.(tasks := u.tasks, settled := u.settled, leaked := u.leaked, dropped := u.dropped)
  }

  lemma SettlingElsewhere(s: State, o: Option<Deferred>)
    ensures SameQueues(s, GuardDrop(s, o)) && SameQueues(s, SettlerDrop(s, o))
    ensures SameQueues(s, SettleViaChannel(s, o)) && SameQueues(s, SettleInContext(s, o)) && SameQueues(s, Perform(s, o))
  {
  }

  lemma {:induction false} DroppingElsewhere(s: State, ms: seq<Msg>)
    ensures SameQueues(s, DropMessages(s, ms))
    decreases ms
  {
    if ms != [] {
      SettlingElsewhere(s, ms[0].settler);
      DroppingElsewhere(SettlerDrop(s, ms[0].settler), ms[1..]);
      hide SettlerDrop;
    }
  }

  lemma {:induction false} DroppingTasksElsewhere(s: State, gs: seq<Option<Deferred>>)
    ensures SameQueues(s, DropTasks(s, gs))
    decreases gs
  {
    if gs != [] {
      SettlingElsewhere(s, gs[0]);
      DroppingTasksElsewhere(GuardDrop(s, gs[0]), gs[1..]);
      hide GuardDrop;
    }
  }

  /** A data message: it is the last of its queue, or it is noted as a failure with its reason; nothing else happens. */
  lemma DataSent(s: State, m: Msg)
    requires IsDataPlane(m.kind)
    ensures TrySend(s, m) == if !s.dataOpen then s.(failures := s.failures + [Failure(m, false, true, false)])
                             else if |s.data| < s.capacity then s.(data := s.data + [m])
                             else s.(failures := s.failures + [Failure(m, false, false, true)])
  {
  }

  /** A control message: it is the last of its queue, or it waits, or the channel is closed and its promise is rejected. */
  lemma ControlSent(s: State, m: Msg)
    requires !IsDataPlane(m.kind)
    ensures s.controlOpen && |s.control| < s.capacity ==> TrySend(s, m) == s.(control := s.control + [m])
    ensures s.controlOpen && |s.control| >= s.capacity ==> TrySend(s, m) == s.(blocked := s.blocked + [m])
    ensures !s.controlOpen ==> var noted := s.(failures := s.failures + [Failure(m, false, true, false)]);
                               TrySend(s, m) == match m.settler
                                                case None => noted
                                                case Some(d) => if s.jsOpen then noted.(tasks := s.tasks + [Some(d)])
                                                                else noted.(leaked := s.leaked + multiset{d})
  {
  }

  /** A request: which messages carry the promise, and that the worker is looked up now. */
  lemma Requested(s: State, kind: Kind, keeps: bool)
    ensures var u := DoRequest(s, kind, keeps);
            var carries := kind in {SetGlobal, Memory, Gc, Close, RegisterModule, ClearModule} || (kind == Eval && keeps);
            && u.next == s.next + 1 && SameQueues(s.(next := u.next, sending := u.sending), u)
            && u.sending == s.sending + [Sending(Msg(kind, if carries then Some(s.next) else None), if s.worker then ToWorker else NoWorker)]
            && (carries ==> u == s.(next := u.next, sending := u.sending))
  {
    Planes(kind);
    SettlingElsewhere(s.(next := s.next + 1), Some(s.next));
    hide SettlerDrop, IsDataPlane;
  }

  // ----- reasons -----

  /** The reason is true in this state, and it is the only one. */
  predicate Justified(s: State, f: Failure, route: Route) {
    if IsDataPlane(f.msg.kind) then
      f == Failure(f.msg, route.NoWorker?, route.ToWorker? && !s.dataOpen, route.ToWorker? && s.dataOpen) && (f.full ==> |s.data| >= s.capacity)
    else
      f == Failure(f.msg, route.NoWorker?, route.ToWorker?, false) && (f.closed ==> !s.controlOpen)
  }

  /** A step notes one failure at most: that of a message on its way or of one that was blocked, with its reason. */
  lemma FailureJustified(s: State, step: Step)
    requires Inv(s)
    ensures var u := Next(s, step);
            u.failures == s.failures ||
            exists f ::
              && u.failures == s.failures + [f]
              && ((step.Deliver? && step.i < |s.sending| && f.msg == s.sending[step.i].msg && Justified(s, f, s.sending[step.i].route)) ||
                  (step.Unblock? && step.i < |s.blocked| && f.msg == s.blocked[step.i] && Justified(s, f, ToWorker)))
  {
    QueuesOf(s, step);
    hide Inv;
    match step
    case Deliver(i) =>
      if i < |s.sending| {
        DeliverJustified(s, i);
      }
    case Unblock(i) =>
      if i < |s.blocked| {
        UnblockJustified(s, i);
      }
    case _ =>
  }

  lemma DeliverJustified(s: State, i: nat)
    requires i < |s.sending|
    ensures var u := DoDeliver(s, i);
            u.failures == s.failures ||
            exists f :: u.failures == s.failures + [f] && f.msg == s.sending[i].msg && Justified(s, f, s.sending[i].route)
  {
    var call, rest := s.sending[i], s.(sending := RemoveAt(s.sending, i));
    hide RemoveAt;
    if call.route.NoWorker? {
      Noted(rest, Failure(call.msg, true, false, false));
      assert Justified(s, Failure(call.msg, true, false, false), call.route);
    } else if IsDataPlane(call.msg.kind) {
      DataSent(rest, call.msg);
      assert Justified(s, Failure(call.msg, false, !s.dataOpen, s.dataOpen), call.route) || |s.data| < s.capacity;
    } else if !s.controlOpen {
      Noted(rest, Failure(call.msg, false, true, false));
      assert Justified(s, Failure(call.msg, false, true, false), call.route);
    }
    hide RejectUndelivered;
  }

  lemma UnblockJustified(s: State, i: nat)
    requires i < |s.blocked| && !IsDataPlane(s.blocked[i].kind)
    ensures var u := DoUnblock(s, i);
            u.failures == s.failures ||
            exists f :: u.failures == s.failures + [f] && f.msg == s.blocked[i] && Justified(s, f, ToWorker)
  {
    var rest := s.(blocked := RemoveAt(s.blocked, i));
    hide RemoveAt;
    Noted(rest, Failure(s.blocked[i], false, true, false));
    assert !s.controlOpen ==> Justified(s, Failure(s.blocked[i], false, true, false), ToWorker);
    hide RejectUndelivered;
  }

  lemma Noted(s: State, f: Failure)
    ensures SameQueues(s.(failures := s.failures + [f]), RejectUndelivered(s, f))
  {
    SettlingElsewhere(s.(failures := s.failures + [f]), f.msg.settler);
    hide SettleViaChannel;
  }

  /** All steps but those two leave the list of failures alone, and what is blocked is a control message. */
  lemma QueuesOf(s: State, step: Step)
    requires Inv(s)
    ensures !step.Deliver? && !step.Unblock? ==> Next(s, step).failures == s.failures
    ensures forall m :: m in s.blocked ==> !IsDataPlane(m.kind)
  {
    StepElsewhere(s, step);
    hide Next, Total, Made;
  }

  lemma StepElsewhere(s: State, step: Step)
    ensures !step.Deliver? && !step.Unblock? ==>
              var u := Next(s, step);
              && u.failures == s.failures && u.blocked == s.blocked && u.capacity == s.capacity
              && u.worker == (s.worker && !step.Remove?)
              && u.controlOpen == (s.controlOpen && !step.CloseControl?) && u.dataOpen == (s.dataOpen && !step.CloseData?)
              && (!step.Request? ==> u.sending == s.sending)
              && u.control == (if step.ReceiveControl? && s.controlOpen && s.control != [] then s.control[1..]
                               else if step.CloseControl? && s.controlOpen then [] else s.control)
              && u.data == (if step.ReceiveData? && s.dataOpen && s.data != [] then s.data[1..]
                            else if step.CloseData? && s.dataOpen then [] else s.data)
  {
    match step
    case Request(kind, keeps) => Requested(s, kind, keeps);
    case Deliver(_) =>
    case Unblock(_) =>
    case ReceiveControl =>
    case ReceiveData =>
    case Finish(i, how) => FinishElsewhere(s, i, how);
    case RunTask(i) => TaskElsewhere(s, i);
    case Remove =>
    case CloseControl => CloseElsewhere(s);
    case CloseData => CloseElsewhere(s);
    case CloseJs => CloseElsewhere(s);
    hide DoFinish, DoTask, DoCloseControl, DoCloseData, DoCloseJs, DoRequest, DoDeliver, DoUnblock;
  }

  lemma FinishElsewhere(s: State, i: nat, how: Outcome)
    ensures var u := DoFinish(s, i, how); SameQueues(s.(work := u.work), u)
  {
    if i < |s.work| {
      SettlingElsewhere(s.(work := RemoveAt(s.work, i)), s.work[i]);
    }
    hide SettlerDrop, SettleViaChannel, SettleInContext, RemoveAt;
  }

  lemma TaskElsewhere(s: State, i: nat)
    ensures SameQueues(s, DoTask(s, i))
  {
    if i < |s.tasks| {
      SettlingElsewhere(s.(tasks := RemoveAt(s.tasks, i)), s.tasks[i]);
    }
    hide Perform, RemoveAt;
  }

  lemma CloseElsewhere(s: State)
    ensures SameQueues(s.(controlOpen := false, control := if s.controlOpen then [] else s.control), DoCloseControl(s))
    ensures SameQueues(s.(dataOpen := false, data := if s.dataOpen then [] else s.data), DoCloseData(s))
    ensures SameQueues(s.(jsOpen := false), DoCloseJs(s))
  {
    DroppingElsewhere(s.(controlOpen := false, control := []), s.control);
    DroppingElsewhere(s.(dataOpen := false, data := []), s.data);
    DroppingTasksElsewhere(s.(jsOpen := false, tasks := []), s.tasks);
    hide DropMessages, DropTasks;
  }

  // ----- reasons over runs -----

  /** No channel reopens and no worker comes back, so all reasons but a full queue stay true. */
  predicate Reasons(s: State) {
    && (forall c :: c in s.sending && c.route.NoWorker? ==> !s.worker)
    && (forall f :: f in s.failures ==>
          && (f.noWorker ==> !s.worker && !f.closed && !f.full)
          && (f.closed ==> !f.full && if IsDataPlane(f.msg.kind) then !s.dataOpen else !s.controlOpen)
          && (f.full ==> IsDataPlane(f.msg.kind)) && (f.noWorker || f.closed || f.full))
  }

  lemma ReasonsKept(s: State, step: Step)
    requires Inv(s) && Reasons(s)
    ensures Reasons(Next(s, step))
  {
    hide *;
    FailureJustified(s, step);
    MovesOn(s, step);
    var u := Next(s, step);
    if u.failures == s.failures {
      ReasonsStay(s, u);
    } else {
      var f :| u.failures == s.failures + [f] &&
               ((step.Deliver? && step.i < |s.sending| && f.msg == s.sending[step.i].msg && Justified(s, f, s.sending[step.i].route)) ||
                (step.Unblock? && step.i < |s.blocked| && f.msg == s.blocked[step.i] && Justified(s, f, ToWorker)));
      ReasonsMore(s, u, f, if step.Deliver? then s.sending[step.i].route else ToWorker);
    }
  }

  lemma ReasonsStay(s: State, u: State)
    requires Reasons(s) && u.failures == s.failures
    requires (u.worker ==> s.worker) && (u.controlOpen ==> s.controlOpen) && (u.dataOpen ==> s.dataOpen)
    requires forall c :: c in u.sending ==> c in s.sending || (c.route.NoWorker? ==> !s.worker)
    ensures Reasons(u)
  {
    hide IsDataPlane;
  }

  lemma ReasonsMore(s: State, u: State, f: Failure, route: Route)
    requires Reasons(s) && u.failures == s.failures + [f] && Justified(s, f, route)
    requires route.ToWorker? || exists c :: c in s.sending && c.route == route
    requires (u.worker ==> s.worker) && (u.controlOpen ==> s.controlOpen) && (u.dataOpen ==> s.dataOpen)
    requires forall c :: c in u.sending ==> c in s.sending || (c.route.NoWorker? ==> !s.worker)
    ensures Reasons(u)
  {
    ReasonsStay(s, u.(failures := s.failures));
    hide IsDataPlane;
    assert forall g :: g in u.failures ==> g in s.failures || g == f;
  }

  /** Flags only fall, and who is on the way was on the way or looks the worker up now. */
  lemma MovesOn(s: State, step: Step)
    ensures var u := Next(s, step);
            && (u.worker ==> s.worker) && (u.controlOpen ==> s.controlOpen) && (u.dataOpen ==> s.dataOpen)
            && forall c :: c in u.sending ==> c in s.sending || (c.route.NoWorker? ==> !s.worker)
  {
    if step.Deliver? {
      DeliverMoves(s, step.i);
      hide DoDeliver;
    } else if step.Unblock? {
      UnblockMoves(s, step.i);
      hide DoUnblock;
    } else {
      StepElsewhere(s, step);
      if step.Request? {
        Requested(s, step.kind, step.keeps);
        hide DoRequest;
      } else {
        hide Next;
      }
    }
  }

  lemma DeliverMoves(s: State, i: nat)
    ensures var u := DoDeliver(s, i);
            && u.worker == s.worker && u.controlOpen == s.controlOpen && u.dataOpen == s.dataOpen
            && forall c :: c in u.sending ==> c in s.sending
  {
    if i < |s.sending| {
      var call, rest := s.sending[i], s.(sending := RemoveAt(s.sending, i));
      Noted(rest, Failure(call.msg, true, false, false));
      SendElsewhere(rest, call.msg);
    }
    hide TrySend, RejectUndelivered;
  }

  lemma UnblockMoves(s: State, i: nat)
    ensures var u := DoUnblock(s, i);
            u.worker == s.worker && u.controlOpen == s.controlOpen && u.dataOpen == s.dataOpen && u.sending == s.sending
  {
    if i < |s.blocked| {
      Noted(s.(blocked := RemoveAt(s.blocked, i)), Failure(s.blocked[i], false, true, false));
    }
    hide RejectUndelivered, RemoveAt;
  }

  lemma SendElsewhere(s: State, m: Msg)
    ensures var u := TrySend(s, m);
            SameQueues(s.(control := u.control, data := u.data, blocked := u.blocked, failures := u.failures), u)
  {
    if IsDataPlane(m.kind) {
      DataSent(s, m);
    } else {
      ControlSent(s, m);
    }
    hide TrySend;
  }

  /** After any run each failure has a reason that is still true, or was a data message at a full queue. */
  lemma {:induction false} RunReasons(s: State, steps: seq<Step>)
    requires Inv(s) && Reasons(s)
    ensures Reasons(Run(s, steps))
    decreases steps
  {
    if steps != [] {
      ReasonsKept(s, steps[0]);
      StepKeeps(s, steps[0]);
      RunReasons(Next(s, steps[0]), steps[1..]);
      hide Inv, Next, Reasons;
    }
  }

  // ----- first in, first out -----

  /** What this step puts into the data queue, and what it takes out. */
  function DataIn(s: State, step: Step): seq<Msg> {
    if step.Deliver? && step.i < |s.sending| && s.sending[step.i].route.ToWorker? && IsDataPlane(s.sending[step.i].msg.kind)
       && s.dataOpen && |s.data| < s.capacity
    then [s.sending[step.i].msg] else []
  }

  function DataOut(s: State, step: Step): seq<Msg> {
    if !s.dataOpen then []
    else if step.ReceiveData? && s.data != [] then [s.data[0]]
    else if step.CloseData? then s.data
    else []
  }

  /** The same for the control queue; blocked producers enter it too. */
  function ControlIn(s: State, step: Step): seq<Msg> {
    if !s.controlOpen || |s.control| >= s.capacity then []
    else if step.Deliver? && step.i < |s.sending| && s.sending[step.i].route.ToWorker? && !IsDataPlane(s.sending[step.i].msg.kind)
    then [s.sending[step.i].msg]
    else if step.Unblock? && step.i < |s.blocked| then [s.blocked[step.i]]
    else []
  }

  function ControlOut(s: State, step: Step): seq<Msg> {
    if !s.controlOpen then []
    else if step.ReceiveControl? && s.control != [] then [s.control[0]]
    else if step.CloseControl? then s.control
    else []
  }

  function AllIn(s: State, steps: seq<Step>, entering: (State, Step) -> seq<Msg>): seq<Msg>
    decreases steps
  {
    if steps == [] then [] else entering(s, steps[0]) + AllIn(Next(s, steps[0]), steps[1..], entering)
  }

  lemma QueueStep(s: State, step: Step)
    requires Inv(s)
    ensures s.data + DataIn(s, step) == DataOut(s, step) + Next(s, step).data
    ensures s.control + ControlIn(s, step) == ControlOut(s, step) + Next(s, step).control
  {
    hide *;
    QueuesOf(s, step);
    if step.Deliver? {
      DeliverQueues(s, step.i);
    } else if step.Unblock? {
      UnblockQueues(s, step.i);
    } else {
      OtherQueues(s, step);
    }
  }

  lemma OtherQueues(s: State, step: Step)
    requires !step.Deliver? && !step.Unblock?
    ensures s.data + DataIn(s, step) == DataOut(s, step) + Next(s, step).data
    ensures s.control + ControlIn(s, step) == ControlOut(s, step) + Next(s, step).control
  {
    hide *;
    StepElsewhere(s, step);
    Taken(s, step);
    OtherOut(s, step);
    Split(s.data);
    Split(s.control);
  }

  lemma Split(q: seq<Msg>)
    ensures q + [] == q && [] + q == q && (q != [] ==> [q[0]] + q[1..] == q)
  {
  }

  lemma OtherOut(s: State, step: Step)
    ensures DataOut(s, step) == if !s.dataOpen then [] else if step.ReceiveData? && s.data != [] then [s.data[0]] else if step.CloseData? then s.data else []
    ensures ControlOut(s, step) ==
            if !s.controlOpen then [] else if step.ReceiveControl? && s.control != [] then [s.control[0]] else if step.CloseControl? then s.control else []
  {
  }

  lemma Taken(s: State, step: Step)
    requires !step.Deliver? && !step.Unblock?
    ensures DataIn(s, step) == ControlIn(s, step) == []
  {
  }

  lemma UnblockQueues(s: State, i: nat)
    requires forall m :: m in s.blocked ==> !IsDataPlane(m.kind)
    ensures s.data + DataIn(s, Unblock(i)) == DataOut(s, Unblock(i)) + Next(s, Unblock(i)).data
    ensures s.control + ControlIn(s, Unblock(i)) == ControlOut(s, Unblock(i)) + Next(s, Unblock(i)).control
  {
    if i < |s.blocked| {
      Noted(s.(blocked := RemoveAt(s.blocked, i)), Failure(s.blocked[i], false, true, false));
    }
    assert DataIn(s, Unblock(i)) == DataOut(s, Unblock(i)) == ControlOut(s, Unblock(i)) == [];
    hide RejectUndelivered, RemoveAt, DataIn, DataOut, ControlOut;
  }

  lemma DeliverQueues(s: State, i: nat)
    ensures s.data + DataIn(s, Deliver(i)) == DataOut(s, Deliver(i)) + Next(s, Deliver(i)).data
    ensures s.control + ControlIn(s, Deliver(i)) == ControlOut(s, Deliver(i)) + Next(s, Deliver(i)).control
  {
    assert DataOut(s, Deliver(i)) == ControlOut(s, Deliver(i)) == [];
    if i < |s.sending| {
      var call, rest := s.sending[i], s.(sending := RemoveAt(s.sending, i));
      if call.route.NoWorker? {
        Noted(rest, Failure(call.msg, true, false, false));
      } else if IsDataPlane(call.msg.kind) {
        DataSent(rest, call.msg);
      } else {
        ControlSent(rest, call.msg);
      }
    }
    hide TrySend, RejectUndelivered, RemoveAt, DataOut, ControlOut;
  }

  /** Over any run each queue gives out what came in, in the same order, and holds the rest. */
  lemma {:induction false} FirstInFirstOut(s: State, steps: seq<Step>)
    requires Inv(s)
    ensures s.data + AllIn(s, steps, DataIn) == AllIn(s, steps, DataOut) + Run(s, steps).data
    ensures s.control + AllIn(s, steps, ControlIn) == AllIn(s, steps, ControlOut) + Run(s, steps).control
    decreases steps
  {
    if steps != [] {
      var u := Next(s, steps[0]);
      QueueStep(s, steps[0]);
      StepKeeps(s, steps[0]);
      FirstInFirstOut(u, steps[1..]);
      hide Inv, Next, DataIn, DataOut, ControlIn, ControlOut;
      Shifted(s.data, DataIn(s, steps[0]), DataOut(s, steps[0]), u.data,
              AllIn(u, steps[1..], DataIn), AllIn(u, steps[1..], DataOut), Run(s, steps).data);
      Shifted(s.control, ControlIn(s, steps[0]), ControlOut(s, steps[0]), u.control,
              AllIn(u, steps[1..], ControlIn), AllIn(u, steps[1..], ControlOut), Run(s, steps).control);
    }
  }

  lemma Shifted(q: seq<Msg>, in1: seq<Msg>, out1: seq<Msg>, q1: seq<Msg>, in2: seq<Msg>, out2: seq<Msg>, q2: seq<Msg>)
    requires q + in1 == out1 + q1 && q1 + in2 == out2 + q2
    ensures q + (in1 + in2) == (out1 + out2) + q2
  {
    calc {
      q + (in1 + in2);
      (q + in1) + in2;
      (out1 + q1) + in2;
      out1 + (q1 + in2);
      out1 + (out2 + q2);
      (out1 + out2) + q2;
    }
  }

  /** What the worker takes is the oldest message, and its promise is in the worker's hands then. */
  lemma OldestTaken(s: State)
    ensures s.controlOpen && s.control != [] ==>
              Next(s, ReceiveControl) == s.(control := s.control[1..], work := s.work + [s.control[0].settler])
    ensures s.dataOpen && s.data != [] ==>
              Next(s, ReceiveData) == s.(data := s.data[1..], work := s.work + [s.data[0].settler])
  {
  }

  /** The whole from the start: reasons and order, for any steps. */
  lemma RunsInOrder(capacity: nat, steps: seq<Step>)
    ensures var s := Run(Init(capacity), steps);
            && Reasons(s)
            && AllIn(Init(capacity), steps, DataIn) == AllIn(Init(capacity), steps, DataOut) + s.data
            && AllIn(Init(capacity), steps, ControlIn) == AllIn(Init(capacity), steps, ControlOut) + s.control
  {
    StartsOk(capacity);
    RunReasons(Init(capacity), steps);
    FirstInFirstOut(Init(capacity), steps);
    hide Run, AllIn, Inv;
  }
}
