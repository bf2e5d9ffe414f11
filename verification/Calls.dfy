/** The calls of the message framework (lib/framework/sys_core.c, lines 61 to 306, and lib/framework/sys_msg.c)
    as programs: one step per access to memory or to a queue, so that steps of other threads can come
    between any two of them. */
module Calls {
  import opened Messages

  datatype Queue = Queue(depth: nat, items: seq<Ptr>)

  /** What all threads share: the live buffers, the queues of pointers, and the registry */
  datatype Sys = Sys(heap: map<Ptr, Msg>, queues: map<QueueId, Queue>, slots: Registry)

  function Deref(heap: map<Ptr, Msg>, p: Ptr): Msg {
    if p in heap then heap[p] else Blank(0)
  }

  // ----- the accesses -----

  datatype Action =
    | Nothing
    | Alloc(p: Ptr, msg: Msg)
    | Write(p: Ptr, msg: Msg)
    | Free(p: Ptr)
    | Put(p: Ptr, q: QueueId)
    | Get(q: QueueId)
    | Enrol(r: Option<Receiver>)

  /** Accesses through a dangling pointer are not excluded here. The thread machine counts them. */
  function Do(s: Sys, a: Action): Sys {
    match a
    case Nothing => s
    case Alloc(p, m) => s.(heap := s.heap[p := m])
    case Write(p, m) => if p in s.heap then s.(heap := s.heap[p := m]) else s
    case Free(p) => s.(heap := s.heap - {p})
    case Put(p, q) =>
      if q in s.queues then s.(queues := s.queues[q := s.queues[q].(items := s.queues[q].items + [p])]) else s
    case Get(q) =>
      if q in s.queues && s.queues[q].items != []
      then s.(queues := s.queues[q := s.queues[q].(items := s.queues[q].items[1..])])
      else s
    case Enrol(r) => s.(slots := Register(s.slots, r))
  }

  // ----- the programs -----

  /** Raw: the functions of sys_core.c, whose caller keeps the message when they fail. Wrapped: the
      functions of sys_msg.c and the timer interrupt, which free it then (deallocate_on_error). */
  datatype Mode = Raw | Wrapped

  datatype Route = Direct(rx: Byte) | Unicast | Broadcast

  /** A sysmsg_*create* call, or the timer interrupt: the message to make and how to send it */
  datatype Create = Create(msg: Msg, route: Route)

  /** Where a call stands, with its local variables. Done holds the result, the message if the caller
      gets it back, and the count of msg_flush. */
  datatype Call =
    | Done(status: Status, back: set<Ptr>, purged: nat)
    | Creating(c: Create)
    | Initialising(c: Create, p: Ptr)
    | Sending(rx: Byte, p: Ptr, mode: Mode)
    | Unicasting(p: Ptr, i: nat, mode: Mode)
    | Putting(p: Ptr, queue: Option<QueueId>, mode: Mode)
    | Failed(p: Ptr, status: Status, mode: Mode)
    | Broadcasting(p: Ptr, i: nat, last: Status, mode: Mode)
    | Copying(p: Ptr, i: nat, copy: Ptr, r: Receiver, mode: Mode)
    | PuttingCopy(p: Ptr, i: nat, copy: Ptr, r: Receiver, mode: Mode)
    | FreeingCopy(p: Ptr, i: nat, copy: Ptr, last: Status, mode: Mode)
    | Routed(p: Ptr, last: Status, mode: Mode)
    | Flushing(queue: Option<QueueId>, purged: nat)
    | FlushFreeing(queue: Option<QueueId>, p: Ptr, purged: nat)

  /** SYS_MSG_HEADER_INIT and what the create functions add to it */
  function SendCreate(tx: Byte, rx: Byte, code: Byte): Create {
    Create(Msg(code, MSG_ID_RESERVED, tx, MSG_OPTION_NONE, []), Direct(rx))
  }

  function SelfCreate(id: Byte, code: Byte): Create {
    Create(Msg(code, id, id, MSG_OPTION_NONE, []), Direct(id))
  }

  function UnicastCreate(tx: Byte, code: Byte): Create {
    Create(Msg(code, MSG_ID_RESERVED, tx, MSG_OPTION_NONE, []), Unicast)
  }

  function BroadcastCreate(tx: Byte, code: Byte): Create {
    Create(Msg(code, MSG_ID_RESERVED, tx, MSG_OPTION_NONE, []), Broadcast)
  }

  function CallbackCreate(tx: Byte, rx: Byte, code: Byte, callback: seq<Byte>): Create {
    Create(Msg(code, rx, tx, MSG_OPTION_CALLBACK, callback), if rx == MSG_ID_RESERVED then Unicast else Direct(rx))
  }

  function TimerCreate(id: Byte): Create {
    Create(Msg(SMC_PERIODIC, id, id, MSG_OPTION_NONE, []), Direct(id))
  }

  /** What sysmsg_reply makes of the header of a message */
  function ReplyTo(m: Msg, code: Byte): Msg {
    m.(code := code, rx := m.tx, tx := m.rx)
  }

  function Routing(p: Ptr, route: Route, mode: Mode): Call {
    match route
    case Direct(rx) => Sending(rx, p, mode)
    case Unicast => Unicasting(p, MSG_ID_APP_START, mode)
    case Broadcast => Broadcasting(p, MSG_ID_APP_START, Error, mode)
  }

  function Handles(slot: Slot, code: Byte): bool {
    slot.receiver.Some? && slot.receiver.value.handles.Some? && code in slot.receiver.value.handles.value
  }

  function Eligible(slot: Slot, m: Msg): bool {
    Handles(slot, m.code) && (slot.receiver.value.accepts.Some? ==> slot.receiver.value.accepts.value(m))
  }

  /** What msg_queue answers without waiting */
  function PutStatus(s: Sys, queue: Option<QueueId>, m: Msg): Status {
    if queue.None? || queue.value !in s.queues || m.code == SMC_INVALID then Error
    else if |s.queues[queue.value].items| >= s.queues[queue.value].depth then Full
    else Success
  }

  /** The pool grants a free address or nothing. */
  function Granted(s: Sys, grant: Option<Ptr>): Option<Ptr> {
    if grant.Some? && grant.value !in s.heap then grant else None
  }

  /** The next access of a call, and where the call stands after it */
  function CallStep(s: Sys, call: Call, grant: Option<Ptr>): (Action, Call) {
    match call
    case Done(_, _, _) => (Nothing, call)
    case Creating(c) =>
      (match Granted(s, grant)
       case None => (Nothing, Done(Error, {}, 0))
       case Some(p) => (Alloc(p, Blank(|c.msg.body|)), Initialising(c, p)))
    case Initialising(c, p) =>
      (Write(p, c.msg), Routing(p, c.route, Wrapped))
    case Sending(rx, p, mode) =>
      if rx < MAX_MSG_RECVS && s.slots[rx].inUse && s.slots[rx].receiver.Some?
      then (Write(p, Deref(s.heap, p).(rx := rx)), Putting(p, s.slots[rx].receiver.value.queue, mode))
      else (Nothing, Failed(p, Error, mode))
    case Unicasting(p, i, mode) =>
      if i >= MAX_MSG_RECVS then (Nothing, Failed(p, Error, mode))
      else if Handles(s.slots[i], Deref(s.heap, p).code) then
        var r := s.slots[i].receiver.value;
        (Write(p, Deref(s.heap, p).(rx := r.id)), Putting(p, r.queue, mode))
      else (Nothing, Unicasting(p, i + 1, mode))
    case Putting(p, queue, mode) =>
      var status := PutStatus(s, queue, Deref(s.heap, p));
      if status == Success then (Put(p, queue.value), Done(Success, {}, 0)) else (Nothing, Failed(p, status, mode))
    case Failed(p, status, mode) =>
      if mode == Wrapped then (Free(p), Done(status, {}, 0)) else (Nothing, Done(status, {p}, 0))
    case Broadcasting(p, i, last, mode) =>
      if i >= MAX_MSG_RECVS then (Nothing, Routed(p, last, mode))
      else if Eligible(s.slots[i], Deref(s.heap, p)) && Granted(s, grant).Some? then
        (Alloc(grant.value, Blank(|Deref(s.heap, p).body|)),
         Copying(p, i, grant.value, s.slots[i].receiver.value, mode))
      else (Nothing, Broadcasting(p, i + 1, last, mode))
    case Copying(p, i, copy, r, mode) =>
      (Write(copy, Deref(s.heap, p).(rx := r.id)), PuttingCopy(p, i, copy, r, mode))
    case PuttingCopy(p, i, copy, r, mode) =>
      var status := PutStatus(s, r.queue, Deref(s.heap, copy));
      if status == Success then (Put(copy, r.queue.value), Broadcasting(p, i + 1, Success, mode))
      else (Nothing, FreeingCopy(p, i, copy, status, mode))
    case FreeingCopy(p, i, copy, last, mode) =>
      (Free(copy), Broadcasting(p, i + 1, last, mode))
    case Routed(p, last, mode) =>
      if last == Success then (Free(p), Done(Success, {}, 0)) else (Nothing, Failed(p, last, mode))
    case Flushing(queue, purged) =>
      if queue.None? || queue.value !in s.queues || s.queues[queue.value].items == []
      then (Nothing, Done(Success, {}, purged))
      else (Get(queue.value), FlushFreeing(queue, s.queues[queue.value].items[0], purged))
    case FlushFreeing(queue, p, purged) =>
      (Free(p), Flushing(queue, purged + 1))
  }

  /** The buffers that a call holds */
  function Owned(call: Call): set<Ptr> {
    match call
    case Done(_, back, _) => back
    case Creating(_) => {}
    case Copying(p, _, copy, _, _) => {p, copy}
    case PuttingCopy(p, _, copy, _, _) => {p, copy}
    case FreeingCopy(p, _, copy, _, _) => {p, copy}
    case Flushing(_, _) => {}
    case _ => {call.p}
  }

  /** The buffers whose contents the next step reads */
  function Reads(call: Call): set<Ptr> {
    match call
    case Sending(_, p, _) => {p}
    case Unicasting(p, _, _) => {p}
    case Putting(p, _, _) => {p}
    case Broadcasting(p, _, _, _) => {p}
    case Copying(p, _, copy, _, _) => {p, copy}
    case PuttingCopy(p, _, copy, _, _) => {copy}
    case _ => {}
  }

  /** The copy of a broadcast is another buffer than the original, and made for a slot of the registry. */
  predicate CallOk(call: Call) {
    (call.Copying? || call.PuttingCopy? || call.FreeingCopy?) ==> call.copy != call.p && call.i < MAX_MSG_RECVS
  }

  // ----- what a thread may do with what it holds -----

  /** The rule of ownership: write, free and queue only what you hold. */
  predicate Legal(s: Sys, hand: set<Ptr>, a: Action) {
    match a
    case Nothing => true
    case Enrol(_) => true
    case Alloc(p, _) => p !in s.heap
    case Write(p, _) => p in hand
    case Free(p) => p in hand
    case Put(p, q) => p in hand && q in s.queues && |s.queues[q].items| < s.queues[q].depth
    case Get(q) => q in s.queues && s.queues[q].items != []
  }

  function HandAfter(s: Sys, hand: set<Ptr>, a: Action): set<Ptr> {
    match a
    case Alloc(p, _) => hand + {p}
    case Free(p) => hand - {p}
    case Put(p, _) => hand - {p}
    case Get(q) => if q in s.queues && s.queues[q].items != [] then hand + {s.queues[q].items[0]} else hand
    case _ => hand
  }

  /** Every step of every call keeps the rule and accounts for what it holds, on every path. */
  lemma CallStepLegal(s: Sys, call: Call, grant: Option<Ptr>)
    requires CallOk(call) && Owned(call) <= s.heap.Keys
    ensures var (a, next) := CallStep(s, call, grant);
            Legal(s, Owned(call), a) && CallOk(next) && Owned(next) == HandAfter(s, Owned(call), a)
    ensures Reads(call) <= Owned(call)
  {
  }

  lemma LegalMonotone(s: Sys, part: set<Ptr>, hand: set<Ptr>, a: Action)
    requires Legal(s, part, a) && part <= hand
    ensures Legal(s, hand, a)
  {
  }

  /** The registry entry of msg_flush */
  function FlushCall(s: Sys, rx: Byte): Call {
    if rx < MAX_MSG_RECVS && s.slots[rx].inUse && s.slots[rx].receiver.Some?
    then Flushing(s.slots[rx].receiver.value.queue, 0)
    else Done(Success, {}, 0)
  }
}
