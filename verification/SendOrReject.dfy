/**
  Sending requests to a worker: a bounded channel with back-pressure by message class,
  and promises that are settled exactly once.  Producers, the worker, the JavaScript
  thread and closing interleave in any order; one step is one atomic action of one of them.

  A Deferred is a number.  Dropping a value that still holds one is an event of its own,
  so that the two destructors have something to prevent.
*/
module SendOrReject {
  import opened Wrappers

  datatype Kind =
    | Eval | SetGlobal | Memory | Gc | Close | RegisterModule | ClearModule
    | PostMessage | PostMessageTyped | PostStreamChunk | PostStreamChunkRaw | PostStreamChunkRawBin
    | PostStreamChunks | PostStreamChunksRaw | PostStreamControl

  predicate IsDataPlane(k: Kind) {
    !k.Eval? && !k.SetGlobal? && !k.Memory? && !k.Gc? && !k.Close? && !k.RegisterModule? && !k.ClearModule?
  }

  type Deferred = nat

  /** A message holds a settler, unless it is a data-plane message or an evaluation that answers otherwise. */
  datatype Msg = Msg(kind: Kind, settler: Option<Deferred>)

  /** A sender that has its channel, or the fact that there is no worker. */
  datatype Route = ToWorker | NoWorker

  datatype Sending = Sending(msg: Msg, route: Route)

  /** Why a message did not get into the queue. */
  datatype Failure = Failure(msg: Msg, noWorker: bool, closed: bool, full: bool)

  datatype State = State(
    capacity: nat,
    next: nat,                        // the number of Deferreds made so far
    worker: bool,                     // the worker is in the table
    controlOpen: bool, dataOpen: bool, // the worker still receives
    control: seq<Msg>, data: seq<Msg>,
    sending: seq<Sending>,            // producers between the table lookup and the send
    blocked: seq<Msg>,                // producers in a blocking send
    work: seq<Option<Deferred>>,      // settlers in the worker's hands
    jsOpen: bool,
    tasks: seq<Option<Deferred>>,     // scheduled settlements, each with its guard
    settled: multiset<Deferred>, leaked: multiset<Deferred>, dropped: multiset<Deferred>,
    failures: seq<Failure>)

  function Init(capacity: nat): State {
    State(capacity, 0, true, true, true, [], [], [], [], [], true, [], multiset{}, multiset{}, multiset{}, [])
  }

  // ----- destructors and settling -----

  /** The end of a field: a Deferred still in it would be dropped unsettled. */
  function FieldDrop(s: State, o: Option<Deferred>): State {
    match o
    case None => s
    case Some(d) => s.(dropped := s.dropped + multiset{d})
  }

  /** Taking a Deferred out of a field: what comes out, and what is left there. */
  function Take(field: Option<Deferred>): (Option<Deferred>, Option<Deferred>) {
    (field, None)
  }

  /** The guard's destructor: what is still there is taken out and forgotten. */
  function GuardDrop(s: State, guard: Option<Deferred>): State {
    var (taken, left) := Take(guard);
    FieldDrop(if taken.None? then s else s.(leaked := s.leaked + multiset{taken.value}), left)
  }

  /** Scheduling a task on the JavaScript thread; a task that cannot be scheduled is destroyed. */
  function Send(s: State, guard: Option<Deferred>): State {
    if s.jsOpen then s.(tasks := s.tasks + [guard]) else GuardDrop(s, guard)
  }

  /** The settler's destructor: takes out and rejects what was never settled. */
  function SettlerDrop(s: State, settler: Option<Deferred>): State {
    var (taken, left) := Take(settler);
    FieldDrop(if taken.None? then s else Send(s, taken), left)
  }

  /** Settling from a background thread: the Deferred is taken out before the destructor runs. */
  function SettleViaChannel(s: State, settler: Option<Deferred>): State {
    var (taken, left) := Take(settler);
    SettlerDrop(if taken.None? then s else Send(s, taken), left)
  }

  function Settled(s: State, taken: Option<Deferred>): State {
    if taken.None? then s else s.(settled := s.settled + multiset{taken.value})
  }

  /** Settling on the JavaScript thread. */
  function SettleInContext(s: State, settler: Option<Deferred>): State {
    var (taken, left) := Take(settler);
    SettlerDrop(Settled(s, taken), left)
  }

  /** A task runs: its guard gives the Deferred up, which is settled, and is destroyed. */
  function Perform(s: State, guard: Option<Deferred>): State {
    var (taken, left) := Take(guard);
    GuardDrop(Settled(s, taken), left)
  }

  // ----- sending -----

  /** A message that could not be delivered: its promise, if it has one, is rejected. */
  function RejectUndelivered(s: State, f: Failure): State {
    var noted := s.(failures := s.failures + [f]);
    if IsDataPlane(f.msg.kind) then noted else SettleViaChannel(noted, f.msg.settler)
  }

  function Enqueue(s: State, m: Msg): State {
    if IsDataPlane(m.kind) then s.(data := s.data + [m]) else s.(control := s.control + [m])
  }

  predicate IsOpen(s: State, m: Msg) {
    if IsDataPlane(m.kind) then s.dataOpen else s.controlOpen
  }

  predicate Full(s: State, m: Msg) {
    if IsDataPlane(m.kind) then |s.data| >= s.capacity else |s.control| >= s.capacity
  }

  /** The send with back-pressure: control messages wait where data messages are discarded. */
  function TrySend(s: State, m: Msg): State {
    if !IsOpen(s, m) then RejectUndelivered(s, Failure(m, false, true, false))
    else if !Full(s, m) then Enqueue(s, m)
    else if IsDataPlane(m.kind) then RejectUndelivered(s, Failure(m, false, false, true))
    else s.(blocked := s.blocked + [m])
  }

  /** Making the message: kinds without a settler drop the one they are given. */
  function Make(s: State, kind: Kind, keeps: bool): (State, Msg) {
    var d := s.next;
    var made := s.(next := s.next + 1);
    if IsDataPlane(kind) || (kind.Eval? && !keeps) then (SettlerDrop(made, Some(d)), Msg(kind, None))
    else (made, Msg(kind, Some(d)))
  }

  function RemoveAt<T>(s: seq<T>, i: nat): seq<T>
    requires i < |s|
  {
    s[..i] + s[i + 1..]
  }

  // ----- all steps -----

  /** How the worker ends a request. */
  datatype Outcome = ViaChannel | InContext | Forgotten

  datatype Step =
    | Request(kind: Kind, keeps: bool)   // a producer makes a message and looks the worker up
    | Deliver(i: nat)                    // a producer that has looked it up goes on
    | Unblock(i: nat)                    // a blocked producer goes on
    | ReceiveControl | ReceiveData       // the worker takes a message
    | Finish(i: nat, how: Outcome)       // the worker ends a request
    | RunTask(i: nat)                    // the JavaScript thread runs a task
    | Remove                             // the worker leaves the table
    | CloseControl | CloseData           // the worker stops receiving; what is queued is destroyed
    | CloseJs                            // the JavaScript thread ends; what is scheduled is destroyed

  function DropMessages(s: State, ms: seq<Msg>): State
    decreases ms
  {
    if ms == [] then s else DropMessages(SettlerDrop(s, ms[0].settler), ms[1..])
  }

  function DropTasks(s: State, gs: seq<Option<Deferred>>): State
    decreases gs
  {
    if gs == [] then s else DropTasks(GuardDrop(s, gs[0]), gs[1..])
  }

  function DoRequest(s: State, kind: Kind, keeps: bool): State {
    var (made, m) := Make(s, kind, keeps);
    made.(sending := made.sending + [Sending(m, if s.worker then ToWorker else NoWorker)])
  }

  function DoDeliver(s: State, i: nat): State {
    if i >= |s.sending| then s
    else
      var call := s.sending[i];
      var rest := s.(sending := RemoveAt(s.sending, i));
      if call.route.NoWorker? then RejectUndelivered(rest, Failure(call.msg, true, false, false)) else TrySend(rest, call.msg)
  }

  function DoUnblock(s: State, i: nat): State {
    if i >= |s.blocked| then s
    else
      var rest := s.(blocked := RemoveAt(s.blocked, i));
      if !s.controlOpen then RejectUndelivered(rest, Failure(s.blocked[i], false, true, false))
      else if |s.control| < s.capacity then Enqueue(rest, s.blocked[i])
      else s
  }

  function DoReceiveControl(s: State): State {
    if !s.controlOpen || s.control == [] then s else s.(control := s.control[1..], work := s.work + [s.control[0].settler])
  }

  function DoReceiveData(s: State): State {
    if !s.dataOpen || s.data == [] then s else s.(data := s.data[1..], work := s.work + [s.data[0].settler])
  }

  function EndRequest(s: State, o: Option<Deferred>, how: Outcome): State {
    match how
    case ViaChannel => SettleViaChannel(s, o)
    case InContext => SettleInContext(s, o)
    case Forgotten => SettlerDrop(s, o)
  }

  function DoFinish(s: State, i: nat, how: Outcome): State {
    if i >= |s.work| then s else EndRequest(s.(work := RemoveAt(s.work, i)), s.work[i], how)
  }

  function DoTask(s: State, i: nat): State {
    if !s.jsOpen || i >= |s.tasks| then s else Perform(s.(tasks := RemoveAt(s.tasks, i)), s.tasks[i])
  }

  function DoCloseControl(s: State): State {
    if !s.controlOpen then s else DropMessages(s.(controlOpen := false, control := []), s.control)
  }

  function DoCloseData(s: State): State {
    if !s.dataOpen then s else DropMessages(s.(dataOpen := false, data := []), s.data)
  }

  function DoCloseJs(s: State): State {
    if !s.jsOpen then s else DropTasks(s.(jsOpen := false, tasks := []), s.tasks)
  }

  function Next(s: State, step: Step): State {
    match step
    case Request(kind, keeps) => DoRequest(s, kind, keeps)
    case Deliver(i) => DoDeliver(s, i)
    case Unblock(i) => DoUnblock(s, i)
    case ReceiveControl => DoReceiveControl(s)
    case ReceiveData => DoReceiveData(s)
    case Finish(i, how) => DoFinish(s, i, how)
    case RunTask(i) => DoTask(s, i)
    case Remove => s.(worker := false)
    case CloseControl => DoCloseControl(s)
    case CloseData => DoCloseData(s)
    case CloseJs => DoCloseJs(s)
  }

  function Run(s: State, steps: seq<Step>): State
    decreases steps
  {
    if steps == [] then s else Run(Next(s, steps[0]), steps[1..])
  }

  // ----- where Deferreds are -----

  function One(o: Option<Deferred>): multiset<Deferred> {
    match o
    case None => multiset{}
    case Some(d) => multiset{d}
  }

  function Bag(s: seq<Option<Deferred>>): multiset<Deferred> {
    if s == [] then multiset{} else One(s[0]) + Bag(s[1..])
  }

  function Settlers(ms: seq<Msg>): seq<Option<Deferred>> {
    seq(|ms|, i requires 0 <= i < |ms| => ms[i].settler)
  }

  function SendingSettlers(ms: seq<Sending>): seq<Option<Deferred>> {
    seq(|ms|, i requires 0 <= i < |ms| => ms[i].msg.settler)
  }

  /** The Deferreds of requests that are still under way. */
  function Requests(control: seq<Msg>, data: seq<Msg>, sending: seq<Sending>, blocked: seq<Msg>, work: seq<Option<Deferred>>): multiset<Deferred> {
    Bag(Settlers(control)) + Bag(Settlers(data)) + Bag(SendingSettlers(sending)) + Bag(Settlers(blocked)) + Bag(work)
  }

  /** Those that are scheduled for settlement, settled, leaked or dropped. */
  function Ends(tasks: seq<Option<Deferred>>, settled: multiset<Deferred>, leaked: multiset<Deferred>, dropped: multiset<Deferred>): multiset<Deferred> {
    Bag(tasks) + settled + leaked + dropped
  }

  /** Everything that is or was a Deferred, by where it is now. */
  function Total(s: State): multiset<Deferred> {
    Requests(s.control, s.data, s.sending, s.blocked, s.work) + Ends(s.tasks, s.settled, s.leaked, s.dropped)
  }

  /** The Deferreds made so far, each once. */
  function Made(n: nat): multiset<Deferred> {
    if n == 0 then multiset{} else Made(n - 1) + multiset{n - 1}
  }

  lemma {:induction false} MadeOnce(n: nat, d: Deferred)
    ensures Made(n)[d] == if d < n then 1 else 0
  {
    if n > 0 {
      MadeOnce(n - 1, d);
    }
  }

  predicate MsgOk(m: Msg) {
    IsDataPlane(m.kind) ==> m.settler.None?
  }

  /** What holds in every reachable state. */
  ghost predicate Inv(s: State) {
    InvWith(s, multiset{})
  }

  /** The same while some Deferreds are in the middle of a step. */
  ghost predicate InvWith(s: State, extra: multiset<Deferred>) {
    && Total(s) + extra == Made(s.next) && Tidy(s)
  }

  ghost predicate Tidy(s: State) {
    && s.dropped == multiset{}
    && (s.leaked != multiset{} ==> !s.jsOpen) && (!s.jsOpen ==> s.tasks == [])
    && (!s.controlOpen ==> s.control == []) && (!s.dataOpen ==> s.data == [])
    && (forall m :: m in s.control || m in s.data || m in s.blocked ==> MsgOk(m))
    && (forall m :: m in s.control || m in s.blocked ==> !IsDataPlane(m.kind)) && (forall m :: m in s.data ==> IsDataPlane(m.kind))
    && (forall c :: c in s.sending ==> MsgOk(c.msg))
    && (forall f :: f in s.failures ==> f.noWorker || f.closed || (f.full && IsDataPlane(f.msg.kind)))
    && |s.control| <= s.capacity && |s.data| <= s.capacity
  }

  // ----- bags -----

  lemma {:induction false} BagConcat(a: seq<Option<Deferred>>, b: seq<Option<Deferred>>)
    ensures Bag(a + b) == Bag(a) + Bag(b)
  {
    if a == [] {
      assert a + b == b;
    } else {
      assert (a + b)[1..] == a[1..] + b;
      BagConcat(a[1..], b);
    }
  }

  lemma BagSnoc(a: seq<Option<Deferred>>, o: Option<Deferred>)
    ensures Bag(a + [o]) == Bag(a) + One(o)
  {
    BagConcat(a, [o]);
    assert [o][1..] == [];
  }

  lemma BagRemove(a: seq<Option<Deferred>>, i: nat)
    requires i < |a|
    ensures Bag(a) == Bag(RemoveAt(a, i)) + One(a[i])
  {
    var x, y, z := a[..i], [a[i]], a[i + 1..];
    assert Bag(y) == One(a[i]) by {
      assert y[1..] == [];
    }
    hide *;
    assert a == x + (y + z);
    BagConcat(x, y + z);
    BagConcat(y, z);
    BagConcat(x, z);
    RemovedIs(a, i);
    Glue(Bag(a), Bag(x), One(a[i]), Bag(z), Bag(RemoveAt(a, i)), Bag(y + z));
  }

  lemma Glue(all: multiset<Deferred>, x: multiset<Deferred>, o: multiset<Deferred>, z: multiset<Deferred>, rest: multiset<Deferred>, yz: multiset<Deferred>)
    requires all == x + yz && yz == o + z && rest == x + z
    ensures all == rest + o
  {
  }

  lemma RemovedIs(a: seq<Option<Deferred>>, i: nat)
    requires i < |a|
    ensures RemoveAt(a, i) == a[..i] + a[i + 1..]
  {
  }

  // ----- each action keeps every Deferred accounted for -----

  function EndsOf(s: State): multiset<Deferred> {
    Ends(s.tasks, s.settled, s.leaked, s.dropped)
  }

  lemma EndsMore(tasks: seq<Option<Deferred>>, settled: multiset<Deferred>, leaked: multiset<Deferred>, dropped: multiset<Deferred>, o: Option<Deferred>)
    ensures Ends(tasks + [o], settled, leaked, dropped) == Ends(tasks, settled, leaked, dropped) + One(o)
    ensures Ends(tasks, settled + One(o), leaked, dropped) == Ends(tasks, settled, leaked, dropped) + One(o)
    ensures Ends(tasks, settled, leaked + One(o), dropped) == Ends(tasks, settled, leaked, dropped) + One(o)
  {
    BagSnoc(tasks, o);
    hide Bag, One;
  }

  /** Deferreds that leave the middle of a step and turn up among the ends are still all there. */
  lemma Ended(s: State, u: State, o: Option<Deferred>, more: multiset<Deferred>)
    requires InvWith(s, One(o) + more) && Tidy(u) && u.next == s.next
    requires u.control == s.control && u.data == s.data && u.sending == s.sending && u.blocked == s.blocked && u.work == s.work
    requires EndsOf(u) == EndsOf(s) + One(o)
    ensures InvWith(u, more)
  {
    hide Tidy, One, Made, Requests, Ends;
    Arrange(Requests(s.control, s.data, s.sending, s.blocked, s.work), EndsOf(s), One(o), more);
  }

  lemma Arrange(r: multiset<Deferred>, e: multiset<Deferred>, o: multiset<Deferred>, more: multiset<Deferred>)
    ensures (r + e) + (o + more) == (r + (e + o)) + more
  {
  }

  lemma TidySend(s: State, guard: Option<Deferred>)
    requires Tidy(s)
    ensures Tidy(Send(s, guard)) && Tidy(s.(settled := s.settled + One(guard)))
    ensures !s.jsOpen ==> Tidy(GuardDrop(s, guard))
  {
  }

  lemma TidyOf(s: State, extra: multiset<Deferred>)
    requires InvWith(s, extra)
    ensures Tidy(s)
  {
  }

  lemma SendKeeps(s: State, guard: Option<Deferred>, more: multiset<Deferred>)
    requires InvWith(s, One(guard) + more)
    ensures InvWith(Send(s, guard), more)
  {
    TidyOf(s, One(guard) + more);
    TidySend(s, guard);
    EndsMore(s.tasks, s.settled, s.leaked, s.dropped, guard);
    hide InvWith, Tidy, Ends;
    if !s.jsOpen && guard.None? {
      assert EndsOf(s) + One(guard) == EndsOf(s);
    }
    Ended(s, Send(s, guard), guard, more);
  }

  lemma SettledKeeps(s: State, o: Option<Deferred>, more: multiset<Deferred>)
    requires InvWith(s, One(o) + more)
    ensures InvWith(s.(settled := s.settled + One(o)), more)
  {
    TidyOf(s, One(o) + more);
    TidySend(s, o);
    EndsMore(s.tasks, s.settled, s.leaked, s.dropped, o);
    hide InvWith, Tidy, Ends, One;
    Ended(s, s.(settled := s.settled + One(o)), o, more);
  }

  /** Once the JavaScript thread has ended, what is left of a task is leaked. */
  lemma GuardDropKeeps(s: State, guard: Option<Deferred>, more: multiset<Deferred>)
    requires InvWith(s, One(guard) + more) && !s.jsOpen
    ensures InvWith(GuardDrop(s, guard), more) && !GuardDrop(s, guard).jsOpen
  {
    SendKeeps(s, guard, more);
  }

  lemma NoneLeft(s: State, more: multiset<Deferred>)
    ensures InvWith(s, One(None) + more) <==> InvWith(s, more)
    ensures InvWith(s, more + multiset{}) <==> InvWith(s, more)
  {
    assert One(None) + more == more && more + multiset{} == more;
  }

  lemma SettlerDropKeeps(s: State, settler: Option<Deferred>, more: multiset<Deferred>)
    requires InvWith(s, One(settler) + more)
    ensures InvWith(SettlerDrop(s, settler), more)
  {
    NoneLeft(s, more);
    hide InvWith, Send;
    if settler.Some? {
      SendKeeps(s, settler, more);
    }
  }

  lemma SettleViaChannelKeeps(s: State, settler: Option<Deferred>, more: multiset<Deferred>)
    requires InvWith(s, One(settler) + more)
    ensures InvWith(SettleViaChannel(s, settler), more)
  {
    SettlerDropKeeps(s, settler, more);
  }

  lemma SettleInContextKeeps(s: State, settler: Option<Deferred>, more: multiset<Deferred>)
    requires InvWith(s, One(settler) + more)
    ensures InvWith(SettleInContext(s, settler), more)
  {
    NoneLeft(s, more);
    SettledKeeps(s, settler, more);
    hide InvWith;
  }

  lemma PerformKeeps(s: State, guard: Option<Deferred>, more: multiset<Deferred>)
    requires InvWith(s, One(guard) + more)
    ensures InvWith(Perform(s, guard), more)
  {
    NoneLeft(s, more);
    SettledKeeps(s, guard, more);
    hide InvWith;
  }

  lemma {:induction false} DropTasksKeeps(s: State, gs: seq<Option<Deferred>>)
    requires InvWith(s, Bag(gs)) && !s.jsOpen
    ensures Inv(DropTasks(s, gs))
    decreases gs
  {
    if gs != [] {
      assert Bag(gs) == One(gs[0]) + Bag(gs[1..]);
      hide InvWith, Bag, One;
      GuardDropKeeps(s, gs[0], Bag(gs[1..]));
      DropTasksKeeps(GuardDrop(s, gs[0]), gs[1..]);
    }
  }

  lemma SettlersHead(ms: seq<Msg>)
    requires ms != []
    ensures Bag(Settlers(ms)) == One(ms[0].settler) + Bag(Settlers(ms[1..]))
  {
    assert Settlers(ms)[1..] == Settlers(ms[1..]) && Settlers(ms)[0] == ms[0].settler;
  }

  lemma {:induction false} DropMessagesKeeps(s: State, ms: seq<Msg>)
    requires InvWith(s, Bag(Settlers(ms)))
    ensures Inv(DropMessages(s, ms))
    decreases ms
  {
    if ms != [] {
      SettlersHead(ms);
      hide InvWith, Bag, Settlers, SettlerDrop, One;
      SettlerDropKeeps(s, ms[0].settler, Bag(Settlers(ms[1..])));
      DropMessagesKeeps(SettlerDrop(s, ms[0].settler), ms[1..]);
    }
  }

  // ----- moves between the places of requests -----

  function RequestsOf(s: State): multiset<Deferred> {
    Requests(s.control, s.data, s.sending, s.blocked, s.work)
  }

  lemma Left(s: State, u: State, o: Option<Deferred>)
    requires Inv(s) && Tidy(u) && u.next == s.next && EndsOf(u) == EndsOf(s) && RequestsOf(s) == RequestsOf(u) + One(o)
    ensures InvWith(u, One(o))
  {
    hide Tidy, One, Made, Requests, Ends;
  }

  lemma Joined(s: State, u: State, o: Option<Deferred>)
    requires InvWith(s, One(o)) && Tidy(u) && u.next == s.next && EndsOf(u) == EndsOf(s) && RequestsOf(u) == RequestsOf(s) + One(o)
    ensures Inv(u)
  {
    hide Tidy, One, Made, Requests, Ends;
  }

  lemma SettlersSnoc(ms: seq<Msg>, m: Msg)
    ensures Bag(Settlers(ms + [m])) == Bag(Settlers(ms)) + One(m.settler)
  {
    assert Settlers(ms + [m]) == Settlers(ms) + [m.settler];
    BagSnoc(Settlers(ms), m.settler);
  }

  lemma SettlersRemove(ms: seq<Msg>, i: nat)
    requires i < |ms|
    ensures Bag(Settlers(ms)) == Bag(Settlers(RemoveAt(ms, i))) + One(ms[i].settler)
  {
    assert Settlers(RemoveAt(ms, i)) == RemoveAt(Settlers(ms), i);
    BagRemove(Settlers(ms), i);
  }

  lemma SettlersFirst(ms: seq<Msg>)
    requires ms != []
    ensures Bag(Settlers(ms)) == Bag(Settlers(ms[1..])) + One(ms[0].settler)
  {
    SettlersRemove(ms, 0);
    assert RemoveAt(ms, 0) == ms[1..];
  }

  lemma SendingSnoc(ms: seq<Sending>, m: Sending)
    ensures Bag(SendingSettlers(ms + [m])) == Bag(SendingSettlers(ms)) + One(m.msg.settler)
  {
    assert SendingSettlers(ms + [m]) == SendingSettlers(ms) + [m.msg.settler];
    BagSnoc(SendingSettlers(ms), m.msg.settler);
  }

  lemma SendingRemove(ms: seq<Sending>, i: nat)
    requires i < |ms|
    ensures Bag(SendingSettlers(ms)) == Bag(SendingSettlers(RemoveAt(ms, i))) + One(ms[i].msg.settler)
  {
    assert SendingSettlers(RemoveAt(ms, i)) == RemoveAt(SendingSettlers(ms), i);
    BagRemove(SendingSettlers(ms), i);
  }

  lemma Sum5(a: multiset<Deferred>, b: multiset<Deferred>, c: multiset<Deferred>, d: multiset<Deferred>, e: multiset<Deferred>, x: multiset<Deferred>)
    ensures (a + x) + b + c + d + e == a + b + c + d + e + x
    ensures a + (b + x) + c + d + e == a + b + c + d + e + x
    ensures a + b + (c + x) + d + e == a + b + c + d + e + x
    ensures a + b + c + (d + x) + e == a + b + c + d + e + x
    ensures a + b + c + d + (e + x) == a + b + c + d + e + x
  {
  }

  /** One more Deferred in one of the five places. */
  lemma RequestsMore(control: seq<Msg>, data: seq<Msg>, sending: seq<Sending>, blocked: seq<Msg>, work: seq<Option<Deferred>>, m: Msg, r: Route)
    ensures var all := Requests(control, data, sending, blocked, work) + One(m.settler);
      && Requests(control + [m], data, sending, blocked, work) == all
      && Requests(control, data + [m], sending, blocked, work) == all
      && Requests(control, data, sending + [Sending(m, r)], blocked, work) == all
      && Requests(control, data, sending, blocked + [m], work) == all
      && Requests(control, data, sending, blocked, work + [m.settler]) == all
  {
    SettlersSnoc(control, m);
    SettlersSnoc(data, m);
    SendingSnoc(sending, Sending(m, r));
    SettlersSnoc(blocked, m);
    BagSnoc(work, m.settler);
    Sum5(Bag(Settlers(control)), Bag(Settlers(data)), Bag(SendingSettlers(sending)), Bag(Settlers(blocked)), Bag(work), One(m.settler));
    hide Bag, Settlers, SendingSettlers, One;
  }

  /** One Deferred less in one of the five places. */
  lemma RequestsLess(control: seq<Msg>, data: seq<Msg>, sending: seq<Sending>, blocked: seq<Msg>, work: seq<Option<Deferred>>, i: nat)
    ensures var all := Requests(control, data, sending, blocked, work);
      && (control != [] ==> all == Requests(control[1..], data, sending, blocked, work) + One(control[0].settler))
      && (data != [] ==> all == Requests(control, data[1..], sending, blocked, work) + One(data[0].settler))
      && (i < |sending| ==> all == Requests(control, data, RemoveAt(sending, i), blocked, work) + One(sending[i].msg.settler))
      && (i < |blocked| ==> all == Requests(control, data, sending, RemoveAt(blocked, i), work) + One(blocked[i].settler))
      && (i < |work| ==> all == Requests(control, data, sending, blocked, RemoveAt(work, i)) + One(work[i]))
  {
    var a, b, c, d, e := Bag(Settlers(control)), Bag(Settlers(data)), Bag(SendingSettlers(sending)), Bag(Settlers(blocked)), Bag(work);
    if control != [] {
      SettlersFirst(control);
      Sum5(Bag(Settlers(control[1..])), b, c, d, e, One(control[0].settler));
    }
    if data != [] {
      SettlersFirst(data);
      Sum5(a, Bag(Settlers(data[1..])), c, d, e, One(data[0].settler));
    }
    if i < |sending| {
      SendingRemove(sending, i);
      Sum5(a, b, Bag(SendingSettlers(RemoveAt(sending, i))), d, e, One(sending[i].msg.settler));
    }
    if i < |blocked| {
      SettlersRemove(blocked, i);
      Sum5(a, b, c, Bag(Settlers(RemoveAt(blocked, i))), e, One(blocked[i].settler));
    }
    if i < |work| {
      BagRemove(work, i);
      Sum5(a, b, c, d, Bag(RemoveAt(work, i)), One(work[i]));
    }
    hide Bag, Settlers, SendingSettlers, One, RemoveAt;
  }

  /** Messages that are put where they belong keep the state tidy. */
  lemma TidyMore(s: State, m: Msg, r: Route, o: Option<Deferred>)
    requires Tidy(s) && MsgOk(m)
    ensures !Full(s, m) && IsOpen(s, m) ==> Tidy(Enqueue(s, m))
    ensures !IsDataPlane(m.kind) ==> Tidy(s.(blocked := s.blocked + [m]))
    ensures Tidy(s.(sending := s.sending + [Sending(m, r)])) && Tidy(s.(work := s.work + [o]))
  {
  }

  lemma EnqueueKeeps(s: State, m: Msg)
    requires InvWith(s, One(m.settler)) && MsgOk(m) && !Full(s, m) && IsOpen(s, m)
    ensures Inv(Enqueue(s, m))
  {
    var u := Enqueue(s, m);
    assert EndsOf(u) == EndsOf(s) && u.next == s.next;
    assert u == s.(data := s.data + [m]) || u == s.(control := s.control + [m]);
    hide Enqueue, Ends;
    TidyOf(s, One(m.settler));
    TidyMore(s, m, ToWorker, None);
    RequestsMore(s.control, s.data, s.sending, s.blocked, s.work, m, ToWorker);
    hide Tidy, InvWith, Requests;
    Joined(s, u, m.settler);
  }

  lemma BlockKeeps(s: State, m: Msg)
    requires InvWith(s, One(m.settler)) && !IsDataPlane(m.kind)
    ensures Inv(s.(blocked := s.blocked + [m]))
  {
    TidyOf(s, One(m.settler));
    TidyMore(s, m, ToWorker, None);
    RequestsMore(s.control, s.data, s.sending, s.blocked, s.work, m, ToWorker);
    hide Tidy, InvWith, Requests, Ends;
    Joined(s, s.(blocked := s.blocked + [m]), m.settler);
  }

  lemma NotedKeeps(s: State, f: Failure)
    requires InvWith(s, One(f.msg.settler)) && (f.noWorker || f.closed || (f.full && IsDataPlane(f.msg.kind)))
    requires MsgOk(f.msg)
    ensures Inv(RejectUndelivered(s, f))
  {
    var noted := s.(failures := s.failures + [f]);
    assert InvWith(noted, One(f.msg.settler)) by {
      hide One, Requests, Ends, Made;
    }
    hide InvWith, SettleViaChannel;
    NoneLeft(noted, multiset{});
    assert One(f.msg.settler) + multiset{} == One(f.msg.settler);
    if !IsDataPlane(f.msg.kind) {
      SettleViaChannelKeeps(noted, f.msg.settler, multiset{});
    }
  }

  /** A failed send is noted with a reason; a control message is never discarded because of a full queue. */
  lemma TrySendKeeps(s: State, m: Msg)
    requires InvWith(s, One(m.settler)) && MsgOk(m)
    ensures Inv(TrySend(s, m))
  {
    hide InvWith, RejectUndelivered, Enqueue;
    if !IsOpen(s, m) {
      NotedKeeps(s, Failure(m, false, true, false));
    } else if !Full(s, m) {
      EnqueueKeeps(s, m);
    } else if IsDataPlane(m.kind) {
      NotedKeeps(s, Failure(m, false, false, true));
    } else {
      BlockKeeps(s, m);
    }
  }

  lemma MadeMore(s: State)
    requires Inv(s)
    ensures InvWith(s.(next := s.next + 1), multiset{s.next})
  {
    TidyOf(s, multiset{});
    TidyNext(s);
    assert Made(s.next + 1) == Made(s.next) + multiset{s.next};
    hide Tidy, Requests, Ends, Made;
  }

  lemma TidyNext(s: State)
    requires Tidy(s)
    ensures Tidy(s.(next := s.next + 1)) && Tidy(s.(worker := false))
  {
  }

  lemma MakeKeeps(s: State, kind: Kind, keeps: bool)
    requires Inv(s)
    ensures var (made, m) := Make(s, kind, keeps); InvWith(made, One(m.settler)) && MsgOk(m)
  {
    hide *;
    MadeMore(s);
    Ones(s.next);
    MakeIs(s, kind, keeps);
    SettlerDropKeeps(s.(next := s.next + 1), Some(s.next), multiset{});
    NoneExtra(SettlerDrop(s.(next := s.next + 1), Some(s.next)));
  }

  lemma MakeIs(s: State, kind: Kind, keeps: bool)
    ensures var made := s.(next := s.next + 1); var r := Make(s, kind, keeps);
      (r.0 == SettlerDrop(made, Some(s.next)) && r.1 == Msg(kind, None)) || (r.0 == made && r.1 == Msg(kind, Some(s.next)))
    ensures MsgOk(Make(s, kind, keeps).1)
  {
  }

  lemma NoneExtra(s: State)
    ensures InvWith(s, multiset{}) <==> Inv(s)
  {
  }

  lemma Ones(d: Deferred)
    ensures One(Some(d)) == multiset{d} && One(Some(d)) + multiset{} == multiset{d} && One(None) == multiset{}
  {
  }

  // ----- every step keeps the invariant -----

  lemma RequestKeeps(s: State, kind: Kind, keeps: bool)
    requires Inv(s)
    ensures Inv(DoRequest(s, kind, keeps))
  {
    var (made, m) := Make(s, kind, keeps);
    var r := if s.worker then ToWorker else NoWorker;
    MakeKeeps(s, kind, keeps);
    TidyOf(made, One(m.settler));
    TidyMore(made, m, r, None);
    RequestsMore(made.control, made.data, made.sending, made.blocked, made.work, m, r);
    hide Tidy, InvWith, Requests, Ends, Make;
    Joined(made, made.(sending := made.sending + [Sending(m, r)]), m.settler);
  }

  lemma TidyLess(s: State, i: nat)
    requires Tidy(s)
    ensures i < |s.sending| ==> Tidy(s.(sending := RemoveAt(s.sending, i))) && MsgOk(s.sending[i].msg)
    ensures i < |s.blocked| ==> Tidy(s.(blocked := RemoveAt(s.blocked, i))) && MsgOk(s.blocked[i]) && !IsDataPlane(s.blocked[i].kind)
    ensures i < |s.work| ==> Tidy(s.(work := RemoveAt(s.work, i)))
    ensures i < |s.tasks| ==> Tidy(s.(tasks := RemoveAt(s.tasks, i)))
  {
    hide IsDataPlane;
  }

  lemma TidyPopped(s: State)
    requires Tidy(s)
    ensures s.control != [] ==> Tidy(s.(control := s.control[1..]))
    ensures s.data != [] ==> Tidy(s.(data := s.data[1..]))
  {
    hide IsDataPlane;
  }

  lemma DeliverKeeps(s: State, i: nat)
    requires Inv(s) && i < |s.sending|
    ensures Inv(DoDeliver(s, i))
  {
    var call := s.sending[i];
    var rest := s.(sending := RemoveAt(s.sending, i));
    TidyOf(s, multiset{});
    TidyLess(s, i);
    RequestsLess(s.control, s.data, s.sending, s.blocked, s.work, i);
    hide Tidy, InvWith, Requests, Ends, RemoveAt, TrySend, RejectUndelivered;
    Left(s, rest, call.msg.settler);
    if call.route.NoWorker? {
      NotedKeeps(rest, Failure(call.msg, true, false, false));
    } else {
      TrySendKeeps(rest, call.msg);
    }
  }

  lemma BlockedTaken(s: State, i: nat)
    requires Inv(s) && i < |s.blocked|
    ensures InvWith(s.(blocked := RemoveAt(s.blocked, i)), One(s.blocked[i].settler)) && MsgOk(s.blocked[i]) && !IsDataPlane(s.blocked[i].kind)
  {
    TidyOf(s, multiset{});
    TidyLess(s, i);
    RequestsLess(s.control, s.data, s.sending, s.blocked, s.work, i);
    hide Tidy, InvWith, Requests, Ends, RemoveAt;
    Left(s, s.(blocked := RemoveAt(s.blocked, i)), s.blocked[i].settler);
  }

  lemma UnblockKeeps(s: State, i: nat)
    requires Inv(s) && i < |s.blocked|
    ensures Inv(DoUnblock(s, i))
  {
    var m := s.blocked[i];
    var rest := s.(blocked := RemoveAt(s.blocked, i));
    BlockedTaken(s, i);
    hide InvWith, RemoveAt, Enqueue, RejectUndelivered;
    if !s.controlOpen {
      NotedKeeps(rest, Failure(m, false, true, false));
    } else if |s.control| < s.capacity {
      EnqueueKeeps(rest, m);
    }
  }

  lemma WorkKeeps(s: State, o: Option<Deferred>)
    requires InvWith(s, One(o))
    ensures Inv(s.(work := s.work + [o]))
  {
    TidyOf(s, One(o));
    TidyMore(s, Msg(Memory, o), ToWorker, o);
    RequestsMore(s.control, s.data, s.sending, s.blocked, s.work, Msg(Memory, o), ToWorker);
    hide Tidy, InvWith, Requests, Ends;
    Joined(s, s.(work := s.work + [o]), o);
  }

  lemma ReceiveControlKeeps(s: State)
    requires Inv(s) && s.controlOpen && s.control != []
    ensures Inv(DoReceiveControl(s))
  {
    var rest := s.(control := s.control[1..]);
    TidyOf(s, multiset{});
    TidyPopped(s);
    RequestsLess(s.control, s.data, s.sending, s.blocked, s.work, 0);
    hide Tidy, InvWith, Requests, Ends;
    Left(s, rest, s.control[0].settler);
    WorkKeeps(rest, s.control[0].settler);
  }

  lemma ReceiveDataKeeps(s: State)
    requires Inv(s) && s.dataOpen && s.data != []
    ensures Inv(DoReceiveData(s))
  {
    var rest := s.(data := s.data[1..]);
    TidyOf(s, multiset{});
    TidyPopped(s);
    RequestsLess(s.control, s.data, s.sending, s.blocked, s.work, 0);
    hide Tidy, InvWith, Requests, Ends;
    Left(s, rest, s.data[0].settler);
    WorkKeeps(rest, s.data[0].settler);
  }

  lemma EndKeeps(s: State, o: Option<Deferred>, how: Outcome)
    requires InvWith(s, One(o))
    ensures Inv(EndRequest(s, o, how))
  {
    assert One(o) + multiset{} == One(o);
    hide InvWith, SettleViaChannel, SettleInContext, SettlerDrop, One;
    match how
    case ViaChannel => SettleViaChannelKeeps(s, o, multiset{});
    case InContext => SettleInContextKeeps(s, o, multiset{});
    case Forgotten => SettlerDropKeeps(s, o, multiset{});
  }

  lemma FinishKeeps(s: State, i: nat, how: Outcome)
    requires Inv(s) && i < |s.work|
    ensures Inv(DoFinish(s, i, how))
  {
    var rest := s.(work := RemoveAt(s.work, i));
    TidyOf(s, multiset{});
    TidyLess(s, i);
    RequestsLess(s.control, s.data, s.sending, s.blocked, s.work, i);
    hide Tidy, InvWith, Requests, Ends, RemoveAt, EndRequest;
    Left(s, rest, s.work[i]);
    EndKeeps(rest, s.work[i], how);
  }

  lemma TaskKeeps(s: State, i: nat)
    requires Inv(s) && s.jsOpen && i < |s.tasks|
    ensures Inv(DoTask(s, i))
  {
    var o := s.tasks[i];
    var rest := s.(tasks := RemoveAt(s.tasks, i));
    TidyOf(s, multiset{});
    TidyLess(s, i);
    TaskTaken(s, i);
    MovedOut(s, rest, One(o));
    assert One(o) + multiset{} == One(o);
    hide InvWith, RemoveAt, Perform, One;
    PerformKeeps(rest, o, multiset{});
  }

  lemma TaskTaken(s: State, i: nat)
    requires i < |s.tasks|
    ensures Total(s.(tasks := RemoveAt(s.tasks, i))) + One(s.tasks[i]) == Total(s)
  {
    BagRemove(s.tasks, i);
    hide Bag, One, RemoveAt, Requests;
  }

  /** What leaves the places is in the middle of the step. */
  lemma MovedOut(s: State, u: State, b: multiset<Deferred>)
    requires Inv(s) && Tidy(u) && u.next == s.next && Total(u) + b == Total(s)
    ensures InvWith(u, b)
  {
    hide Total, Tidy, Made;
  }

  lemma Sum4(a: multiset<Deferred>, b: multiset<Deferred>, c: multiset<Deferred>, d: multiset<Deferred>, e: multiset<Deferred>, f: multiset<Deferred>)
    ensures multiset{} + b + c + d + e + f + a == a + b + c + d + e + f
    ensures a + multiset{} + c + d + e + f + b == a + b + c + d + e + f
  {
  }

  lemma ControlEmptied(s: State)
    ensures Total(s.(controlOpen := false, control := [])) + Bag(Settlers(s.control)) == Total(s)
    ensures Total(s.(dataOpen := false, data := [])) + Bag(Settlers(s.data)) == Total(s)
  {
    assert Bag(Settlers([])) == multiset{};
    Sum4(Bag(Settlers(s.control)), Bag(Settlers(s.data)), Bag(SendingSettlers(s.sending)), Bag(Settlers(s.blocked)), Bag(s.work), EndsOf(s));
    hide Bag, Settlers, SendingSettlers, Ends;
  }

  lemma TidyClosed(s: State)
    requires Tidy(s)
    ensures Tidy(s.(controlOpen := false, control := [])) && Tidy(s.(dataOpen := false, data := []))
    ensures Tidy(s.(jsOpen := false, tasks := []))
  {
    hide IsDataPlane;
  }

  lemma CloseControlKeeps(s: State)
    requires Inv(s) && s.controlOpen
    ensures Inv(DoCloseControl(s))
  {
    var u := s.(controlOpen := false, control := []);
    TidyOf(s, multiset{});
    TidyClosed(s);
    ControlEmptied(s);
    hide Total, Tidy, DropMessages, Bag, Settlers;
    MovedOut(s, u, Bag(Settlers(s.control)));
    DropMessagesKeeps(u, s.control);
  }

  lemma CloseDataKeeps(s: State)
    requires Inv(s) && s.dataOpen
    ensures Inv(DoCloseData(s))
  {
    var u := s.(dataOpen := false, data := []);
    TidyOf(s, multiset{});
    TidyClosed(s);
    ControlEmptied(s);
    hide Total, Tidy, DropMessages, Bag, Settlers;
    MovedOut(s, u, Bag(Settlers(s.data)));
    DropMessagesKeeps(u, s.data);
  }

  lemma TasksEmptied(s: State)
    ensures Total(s.(jsOpen := false, tasks := [])) + Bag(s.tasks) == Total(s)
  {
    assert Bag([]) == multiset{};
    hide Bag, Requests;
  }

  lemma CloseJsKeeps(s: State)
    requires Inv(s) && s.jsOpen
    ensures Inv(DoCloseJs(s))
  {
    var u := s.(jsOpen := false, tasks := []);
    TidyOf(s, multiset{});
    TidyClosed(s);
    TasksEmptied(s);
    hide Total, Tidy, DropTasks, Bag;
    MovedOut(s, u, Bag(s.tasks));
    DropTasksKeeps(u, s.tasks);
  }

  lemma RemoveKeeps(s: State)
    requires Inv(s)
    ensures Inv(s.(worker := false))
  {
    TidyOf(s, multiset{});
    TidyNext(s);
    hide Tidy, Made, Requests, Ends;
  }

  lemma StepKeeps(s: State, step: Step)
    requires Inv(s)
    ensures Inv(Next(s, step))
  {
    hide Inv, DoRequest;
    match step
    case Request(kind, keeps) => RequestKeeps(s, kind, keeps);
    case Deliver(i) => if i < |s.sending| { DeliverKeeps(s, i); }
    case Unblock(i) => if i < |s.blocked| { UnblockKeeps(s, i); }
    case ReceiveControl => if s.controlOpen && s.control != [] { ReceiveControlKeeps(s); }
    case ReceiveData => if s.dataOpen && s.data != [] { ReceiveDataKeeps(s); }
    case Finish(i, how) => if i < |s.work| { FinishKeeps(s, i, how); }
    case RunTask(i) => if s.jsOpen && i < |s.tasks| { TaskKeeps(s, i); }
    case Remove => RemoveKeeps(s);
    case CloseControl => if s.controlOpen { CloseControlKeeps(s); }
    case CloseData => if s.dataOpen { CloseDataKeeps(s); }
    case CloseJs => if s.jsOpen { CloseJsKeeps(s); }
  }

  lemma {:induction false} RunKeeps(s: State, steps: seq<Step>)
    requires Inv(s)
    ensures Inv(Run(s, steps))
    decreases steps
  {
    if steps != [] {
      StepKeeps(s, steps[0]);
      hide Inv, Next;
      RunKeeps(Next(s, steps[0]), steps[1..]);
    }
  }

  /**
    After any run: each promise made is in exactly one place; so it is settled at most once,
    never dropped unsettled, and leaked only after the JavaScript thread has ended.  A control
    message failed only for want of a worker or an open channel.
  */
  lemma SettledOnce(capacity: nat, steps: seq<Step>, d: Deferred)
    ensures var s := Run(Init(capacity), steps);
      && s.dropped == multiset{} && s.settled[d] + s.leaked[d] <= 1
      && (d < s.next ==> Total(s)[d] == 1)
      && (s.leaked != multiset{} ==> !s.jsOpen)
      && forall f :: f in s.failures && !IsDataPlane(f.msg.kind) ==> f.noWorker || f.closed
  {
    StartsOk(capacity);
    RunKeeps(Init(capacity), steps);
    var s := Run(Init(capacity), steps);
    MadeOnce(s.next, d);
    assert Total(s) + multiset{} == Total(s);
    hide Run, Requests;
  }

  lemma StartsOk(capacity: nat)
    ensures Inv(Init(capacity))
  {
  }

  /** When nothing is under way and the JavaScript thread still runs, every promise has been settled, once. */
  lemma QuietMeansSettled(capacity: nat, steps: seq<Step>, d: Deferred)
    requires var s := Run(Init(capacity), steps);
      d < s.next && s.jsOpen && s.tasks == [] && s.control == [] && s.data == [] && s.sending == [] && s.blocked == [] && s.work == []
    ensures Run(Init(capacity), steps).settled[d] == 1
  {
    SettledOnce(capacity, steps, d);
    StartsOk(capacity);
    RunKeeps(Init(capacity), steps);
    hide Run;
  }
}
