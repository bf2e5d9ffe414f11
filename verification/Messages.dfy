/** Messages, receivers and the registry of lib/framework/sys_core.c and include/framework/sys_core.h. */
module Messages {
  type Ptr = nat
  type Byte = n: nat | n < 256
  type QueueId = nat

  datatype Option<+T> = None | Some(value: T)

  /** SYS_SUCCESS, SYS_ERROR, and what k_msgq_put answers when the queue is full */
  datatype Status = Success | Error | Full

  /** What a message handler answers */
  datatype DispatchResult = DISPATCH_OK | DISPATCH_ERROR | DISPATCH_DO_NOT_FREE

  const SMC_INVALID: Byte := 0
  const SMC_PERIODIC: Byte := 1
  const MSG_ID_RESERVED: Byte := 0
  const MSG_ID_APP_START := 1
  const MAX_MSG_RECVS := 32
  const MSG_OPTION_NONE: Byte := 0
  const MSG_OPTION_CALLBACK: Byte := 1

  /** A message buffer: the header, and the bytes behind it */
  datatype Msg = Msg(code: Byte, rx: Byte, tx: Byte, options: Byte, body: seq<Byte>)

  /** A buffer fresh from the pool is zeroed. */
  function Blank(bodySize: nat): Msg {
    Msg(0, 0, 0, 0, seq(bodySize, _ => 0))
  }

  /** A message receiver. handles holds the codes for which its dispatcher returns a handler; a missing
      queue, dispatcher or broadcast filter is a NULL pointer. */
  datatype Receiver = Receiver(id: Byte, queue: Option<QueueId>, handles: Option<set<Byte>>,
                               accepts: Option<Msg -> bool>)

  datatype Slot = Slot(inUse: bool, receiver: Option<Receiver>)
  type Registry = slots: seq<Slot> | |slots| == MAX_MSG_RECVS witness seq(MAX_MSG_RECVS, _ => Slot(false, None))

  const NO_RECEIVERS: Registry := seq(MAX_MSG_RECVS, _ => Slot(false, None))

  /** msg_register_receiver */
  function Register(slots: Registry, r: Option<Receiver>): Registry {
    if r.None? || r.value.id >= MAX_MSG_RECVS || slots[r.value.id].inUse then slots
    else slots[r.value.id := Slot(true, r)]
  }

  function RegisterAll(slots: Registry, rs: seq<Option<Receiver>>): Registry
    decreases |rs|
  {
    if rs == [] then slots else RegisterAll(Register(slots, rs[0]), rs[1..])
  }

  /** The first registration under id */
  function FirstFor(rs: seq<Option<Receiver>>, id: nat): Option<Receiver> {
    if rs == [] then None
    else if rs[0].Some? && rs[0].value.id == id then rs[0]
    else FirstFor(rs[1..], id)
  }

  /** in_use says whether a receiver is stored, and a stored receiver's id is its slot. */
  predicate Consistent(slots: Registry) {
    forall i :: 0 <= i < MAX_MSG_RECVS ==>
      && (slots[i].inUse <==> slots[i].receiver.Some?)
      && (slots[i].inUse ==> slots[i].receiver.value.id == i)
  }

  lemma {:induction false} RegisterAllFrom(slots: Registry, rs: seq<Option<Receiver>>, i: nat)
    requires Consistent(slots) && i < MAX_MSG_RECVS
    ensures Consistent(RegisterAll(slots, rs))
    ensures RegisterAll(slots, rs)[i]
         == if slots[i].inUse || FirstFor(rs, i).None? then slots[i] else Slot(true, FirstFor(rs, i))
    decreases |rs|
  {
    if rs != [] {
      RegisterAllFrom(Register(slots, rs[0]), rs[1..], i);
    }
  }

  /** After any sequence of registrations each slot holds the first receiver that asked for it. */
  lemma FirstRegistrationWins(rs: seq<Option<Receiver>>, i: nat)
    requires i < MAX_MSG_RECVS
    ensures Consistent(RegisterAll(NO_RECEIVERS, rs))
    ensures RegisterAll(NO_RECEIVERS, rs)[i] == Slot(FirstFor(rs, i).Some?, FirstFor(rs, i))
  {
    RegisterAllFrom(NO_RECEIVERS, rs, i);
  }
}
