/** The functions of lib/framework/sys_core.c and lib/framework/sys_msg.c on their own state: the message
    heap, the queues and the registry, all updated in place. */
module Framework {
  import opened Messages
  import opened Calls
  import opened Ownership
  import opened Outcomes
  import opened Effects

  /** The message at the head of a queue */
  function FirstIn(s: Sys, queue: Option<QueueId>): Option<Ptr> {
    if queue.Some? && Items(s, queue.value) != [] then Some(Items(s, queue.value)[0]) else None
  }

  /** One message received, dispatched, and freed unless its handler has passed it on */
  function Handled(s: Sys, r: Receiver, handler: (Sys, Ptr) -> (Sys, DispatchResult)): Sys
    requires r.handles.Some?
  {
    var p := FirstIn(s, r.queue);
    if p.None? then s
    else
      var taken := Do(s, Get(r.queue.value));
      if Deref(s.heap, p.value).code !in r.handles.value then Do(taken, Free(p.value))
      else
        var (s1, res) := handler(taken, p.value);
        if res == DISPATCH_DO_NOT_FREE then s1 else Do(s1, Free(p.value))
  }

  class MessageFramework {
    var heap: map<Ptr, Msg>
    var queues: map<QueueId, Queue>
    const registry: array<Slot>

    ghost predicate Valid() {
      registry.Length == MAX_MSG_RECVS
    }

    ghost function Now(): Sys
      reads this, registry
      requires Valid()
    {
      Sys(heap, queues, registry[..])
    }

    constructor (queues: map<QueueId, Queue>)
      ensures Valid() && fresh(registry)
      ensures Now() == Sys(map[], queues, NO_RECEIVERS)
    {
      heap, this.queues := map[], queues;
      registry := new Slot[MAX_MSG_RECVS](_ => Slot(false, None));
      new;
      assert registry[..] == NO_RECEIVERS;
    }

    method MsgRegisterReceiver(r: Option<Receiver>)
      requires Valid()
      modifies registry
      ensures Now() == old(Now()).(slots := Register(old(Now()).slots, r))
      ensures registry[..]
           == if r.Some? && r.value.id < 32 && !old(registry[r.value.id].inUse)
              then old(registry[..])[r.value.id := Slot(true, r)] else old(registry[..])
    {
      if r.None? || r.value.id >= MAX_MSG_RECVS {
        return;
      }
      if !registry[r.value.id].inUse {
        registry[r.value.id] := Slot(true, r);
      }
    }

    /** buffer_pool_try_to_take */
    method TryToTake(bodySize: nat, grant: Option<Ptr>) returns (p: Option<Ptr>)
      requires Valid()
      modifies this`heap
      ensures p == Granted(old(Now()), grant)
      ensures Now() == if p.Some? then Do(old(Now()), Alloc(p.value, Blank(bodySize))) else old(Now())
      ensures p == if grant.Some? && grant.value !in old(heap) then grant else None
      ensures heap == if p.Some? then old(heap)[p.value := Msg(0, 0, 0, 0, seq(bodySize, _ => 0))] else old(heap)
    {
      p := if grant.Some? && grant.value !in heap then grant else None;
      if p.Some? {
        heap := heap[p.value := Blank(bodySize)];
      }
    }

    /** buffer_pool_free */
    method Free(p: Ptr)
      requires Valid() && p in heap
      modifies this`heap
      ensures Now() == Do(old(Now()), Calls.Free(p))
    {
      heap := heap - {p};
    }

    method MsgQueue(queue: Option<QueueId>, p: Ptr) returns (status: Status)
      requires Valid() && p in heap
      modifies this`queues
      ensures status == PutStatus(old(Now()), queue, heap[p])
      ensures Now() == if status == Success then Queued(old(Now()), p, queue.value) else old(Now())
      ensures if queue.None? || queue.value !in old(queues) || heap[p].code == 0 then status == Error
              else
                var was := old(queues)[queue.value];
                && (status == Full <==> |was.items| >= was.depth)
                && (status == Success <==> |was.items| < was.depth)
                && (status == Success ==> queues == old(queues)[queue.value := Queue(was.depth, was.items + [p])])
    {
      if queue.None? || queue.value !in queues {
        return Error;
      }
      if heap[p].code == SMC_INVALID {
        return Error;
      }
      var q := queues[queue.value];
      if |q.items| >= q.depth {
        return Full;
      }
      queues := queues[queue.value := q.(items := q.items + [p])];
      return Success;
    }

    method MsgSend(rxId: Byte, p: Option<Ptr>, ghost grants: Grants) returns (ret: Status)
      requires Valid() && (p.Some? ==> p.value in heap)
      modifies this
      ensures p.None? ==> ret == Error && Now() == old(Now())
      ensures p.Some? ==>
                Finish(old(Now()), Sending(rxId, p.value, Raw), grants)
                == (Now(), Done(ret, if ret == Success then {} else {p.value}, 0))
    {
      hide Finish;
      ret := Error;
      if p.None? {
        return;
      }
      SendOutcome(Now(), rxId, p.value, Raw, grants);
      if rxId >= MAX_MSG_RECVS {
        return;
      }
      if !registry[rxId].inUse {
        return;
      }
      var receiver := registry[rxId].receiver;
      if receiver.Some? {
        heap := heap[p.value := heap[p.value].(rx := rxId)];
        PuttingOutcome(Now(), p.value, receiver.value.queue, Raw, grants);
        ret := MsgQueue(receiver.value.queue, p.value);
      }
    }

    method MsgUnicast(p: Option<Ptr>, ghost grants: Grants) returns (ret: Status)
      requires Valid() && (p.Some? ==> p.value in heap)
      modifies this
      ensures p.None? ==> ret == Error && Now() == old(Now())
      ensures p.Some? ==>
                Finish(old(Now()), Unicasting(p.value, 1, Raw), grants)
                == (Now(), Done(ret, if ret == Success then {} else {p.value}, 0))
    {
      hide Finish;
      ret := Error;
      if p.None? {
        return;
      }
      var i := MSG_ID_APP_START;
      while i < MAX_MSG_RECVS
        invariant MSG_ID_APP_START <= i <= MAX_MSG_RECVS
        invariant Now() == old(Now())
        invariant Finish(old(Now()), Unicasting(p.value, MSG_ID_APP_START, Raw), grants)
               == Finish(Now(), Unicasting(p.value, i, Raw), grants)
      {
        FinishStep(Now(), Unicasting(p.value, i, Raw), grants);
        var receiver := registry[i].receiver;
        if receiver.Some? && receiver.value.handles.Some? {
          if heap[p.value].code in receiver.value.handles.value {
            heap := heap[p.value := heap[p.value].(rx := receiver.value.id)];
            PuttingOutcome(Now(), p.value, receiver.value.queue, Raw, grants);
            ret := MsgQueue(receiver.value.queue, p.value);
            return;
          }
        }
        i := i + 1;
      }
      FinishStep(Now(), Unicasting(p.value, i, Raw), grants);
      FailedOutcome(Now(), p.value, Error, Raw, grants);
    }

    method MsgBroadcast(p: Option<Ptr>, grants: Grants) returns (ret: Status)
      requires Valid() && (p.Some? ==> p.value in heap)
      modifies this
      ensures p.None? ==> ret == Error && Now() == old(Now())
      ensures p.Some? ==>
                Finish(old(Now()), Broadcasting(p.value, 1, Error, Raw), grants)
                == (Now(), Done(ret, if ret == Success then {} else {p.value}, 0))
    {
      hide Finish;
      ret := Error;
      if p.None? {
        return;
      }
      var i := MSG_ID_APP_START;
      while i < MAX_MSG_RECVS
        invariant MSG_ID_APP_START <= i <= MAX_MSG_RECVS
        invariant Valid() && p.value in heap
        invariant Finish(old(Now()), Broadcasting(p.value, MSG_ID_APP_START, Error, Raw), grants)
               == Finish(Now(), Broadcasting(p.value, i, ret, Raw), grants)
      {
        TurnSteps(Now(), p.value, i, ret, Raw, grants);
        ret := BroadcastTo(i, p.value, ret, grants(i));
        i := i + 1;
      }
      FinishStep(Now(), Broadcasting(p.value, i, ret, Raw), grants);
      FinishStep(Now(), Routed(p.value, ret, Raw), grants);
      if ret == Success {
        Free(p.value);
        FinishDone(Now(), Done(Success, {}, 0), grants);
      } else {
        FailedOutcome(Now(), p.value, ret, Raw, grants);
      }
    }

    /** The body of the loop of msg_broadcast */
    method BroadcastTo(i: nat, p: Ptr, last: Status, grant: Option<Ptr>) returns (ret: Status)
      requires Valid() && p in heap && i < MAX_MSG_RECVS
      modifies this
      ensures p in heap
      ensures var (s1, now) := Turn(old(Now()), p, i, grant);
              Now() == s1 && ret == if now == [] then last else now[0].status
    {
      ret := last;
      var receiver := registry[i].receiver;
      if receiver.Some? && receiver.value.handles.Some? {
        var handled := heap[p].code in receiver.value.handles.value;
        var accept := receiver.value.accepts.None? || receiver.value.accepts.value(heap[p]);
        if handled && accept {
          var copy := TryToTake(|heap[p].body|, grant);
          if copy.Some? {
            heap := heap[copy.value := heap[p]];
            heap := heap[copy.value := heap[copy.value].(rx := receiver.value.id)];
            assert heap == old(heap)[copy.value := old(heap)[p].(rx := receiver.value.id)];
            ret := MsgQueue(receiver.value.queue, copy.value);
            if ret != Success {
              Free(copy.value);
              assert heap == old(heap);
            }
          }
        }
      }
    }

    method MsgFlush(rxId: Byte) returns (purged: nat)
      requires Valid()
      requires forall q :: NoDuplicates(Items(Now(), q)) && forall p :: p in Items(Now(), q) ==> p in heap
      modifies this
      ensures var queue := if rxId < 32 && registry[rxId].inUse && registry[rxId].receiver.Some?
                           then registry[rxId].receiver.value.queue else None;
              if queue.None? || queue.value !in old(queues) then Now() == old(Now()) && purged == 0
              else
                var was := old(queues)[queue.value];
                && purged == |was.items| && queues == old(queues)[queue.value := Queue(was.depth, [])]
                && registry[..] == old(registry[..]) && heap == old(heap) - (set r | r in was.items)
    {
      purged := 0;
      if rxId >= MAX_MSG_RECVS {
        return;
      }
      if !registry[rxId].inUse || registry[rxId].receiver.None? {
        return;
      }
      var queue := registry[rxId].receiver.value.queue;
      if queue.None? || queue.value !in queues {
        return;
      }
      var q := queue.value;
      hide Emptied;
      assert NoDuplicates(Items(Now(), q));
      while queues[q].items != []
        invariant Valid() && q in queues && Emptied(Now(), q) == Emptied(old(Now()), q)
        invariant purged + |queues[q].items| == |old(queues)[q].items|
        invariant NoDuplicates(queues[q].items) && forall p :: p in queues[q].items ==> p in heap
        decreases |queues[q].items|
      {
        EmptiedByOne(Now(), q);
        var p := queues[q].items[0];
        HeadIsElsewhere(queues[q].items);
        queues := queues[q := queues[q].(items := queues[q].items[1..])];
        Free(p);
        purged := purged + 1;
      }
      EmptiedAlready(Now(), q);
      EmptiedMeans(old(Now()), q);
    }

    /** What msg_recv takes from a queue, without waiting */
    method MsgRecv(queue: Option<QueueId>) returns (p: Option<Ptr>)
      requires Valid()
      modifies this`queues
      ensures p == FirstIn(old(Now()), queue)
      ensures Now() == if p.Some? then Do(old(Now()), Get(queue.value)) else old(Now())
    {
      if queue.None? || queue.value !in queues || queues[queue.value].items == [] {
        return None;
      }
      p := Some(queues[queue.value].items[0]);
      queues := queues[queue.value := queues[queue.value].(items := queues[queue.value].items[1..])];
    }

    /** msg_receiver. handler is what the receiver's handler makes of the system and the message; it may
        do anything but register receivers, and frees its message only if it says so. */
    method MsgReceiver(r: Receiver, handler: (Sys, Ptr) -> (Sys, DispatchResult))
      requires Valid() && r.handles.Some?
      requires var p := FirstIn(Now(), r.queue);
               p.Some? ==>
                 && p.value in heap
                 && var (s1, res) := handler(Do(Now(), Get(r.queue.value)), p.value);
                    s1.slots == registry[..] && (res != DISPATCH_DO_NOT_FREE ==> p.value in s1.heap)
      modifies this
      ensures Now() == Handled(old(Now()), r, handler)
      ensures if r.queue.None? || r.queue.value !in old(queues) || old(queues)[r.queue.value].items == []
              then Now() == old(Now())
              else
                var was := old(queues)[r.queue.value];
                var taken := old(Now()).(queues := old(queues)[r.queue.value := Queue(was.depth, was.items[1..])]);
                var p := was.items[0];
                if old(heap)[p].code !in r.handles.value then Now() == taken.(heap := old(heap) - {p})
                else
                  var (s1, res) := handler(taken, p);
                  Now() == if res == DISPATCH_DO_NOT_FREE then s1 else s1.(heap := s1.heap - {p})
    {
      var p := MsgRecv(r.queue);
      if p.Some? {
        var res := DISPATCH_ERROR;
        if heap[p.value].code in r.handles.value {
          var (s1, result) := handler(Sys(heap, queues, registry[..]), p.value);
          heap, queues, res := s1.heap, s1.queues, result;
        }
        if res != DISPATCH_DO_NOT_FREE {
          Free(p.value);
        }
      }
    }

    /** periodic_timer_callback_isr of the task id */
    method PeriodicTimerCallbackIsr(id: Byte, grants: Grants) returns (result: Status)
      requires Valid()
      modifies this
      ensures Finish(old(Now()), Creating(Create(Msg(1, id, id, 0, []), Direct(id))), grants)
           == (Now(), Done(result, {}, 0))
      ensures result == Success ==>
                && grants(0).Some? && id < 32 && registry[id].receiver.Some?
                && var p, queue := grants(0).value, registry[id].receiver.value.queue;
                   && p !in old(heap) && heap == old(heap)[p := Msg(1, id, id, 0, [])]
                   && queue.Some? && queue.value in old(queues)
                   && var was := old(queues)[queue.value];
                      queues == old(queues)[queue.value := Queue(was.depth, was.items + [p])]
      ensures result != Success ==> Now() == old(Now())
    {
      hide Finish;
      CreateEffect(Now(), TimerCreate(id), id, grants);
      result := CreateAndRoute(TimerCreate(id), grants);
    }

    // ----- lib/framework/sys_msg.c -----

    method DeallocateOnError(p: Ptr, status: Status)
      requires Valid() && (status != Success ==> p in heap)
      modifies this`heap
      ensures Now() == if status == Success then old(Now()) else Do(old(Now()), Calls.Free(p))
    {
      if status != Success {
        Free(p);
      }
    }

    /** sysmsg_send and sysmsg_try_to_send */
    method SysmsgSend(p: Ptr, ghost grants: Grants) returns (result: Status)
      requires Valid() && p in heap
      modifies this
      ensures Finish(old(Now()), Sending(old(heap)[p].rx, p, Wrapped), grants) == (Now(), Done(result, {}, 0))
    {
      result := SendAndFree(heap[p].rx, p, grants);
    }

    method SendAndFree(rx: Byte, p: Ptr, ghost grants: Grants) returns (result: Status)
      requires Valid() && p in heap
      modifies this
      ensures Finish(old(Now()), Sending(rx, p, Wrapped), grants) == (Now(), Done(result, {}, 0))
    {
      hide Finish;
      WrappedOutcome(Now(), Sending(rx, p, Raw), grants);
      result := MsgSend(rx, Some(p), grants);
      StillLive(old(Now()), Sending(rx, p, Raw), grants);
      DeallocateOnError(p, result);
    }

    method SysmsgSendto(p: Ptr, destId: Byte, ghost grants: Grants) returns (result: Status)
      requires Valid() && p in heap
      modifies this
      ensures var addressed := old(Now()).(heap := old(heap)[p := old(heap)[p].(rx := destId)]);
              Finish(addressed, Sending(destId, p, Wrapped), grants) == (Now(), Done(result, {}, 0))
    {
      heap := heap[p := heap[p].(rx := destId)];
      result := SendAndFree(heap[p].rx, p, grants);
    }

    method SysmsgUnicast(p: Ptr, ghost grants: Grants) returns (result: Status)
      requires Valid() && p in heap
      modifies this
      ensures Finish(old(Now()), Unicasting(p, 1, Wrapped), grants) == (Now(), Done(result, {}, 0))
    {
      hide Finish;
      WrappedOutcome(Now(), Unicasting(p, MSG_ID_APP_START, Raw), grants);
      result := MsgUnicast(Some(p), grants);
      StillLive(old(Now()), Unicasting(p, MSG_ID_APP_START, Raw), grants);
      DeallocateOnError(p, result);
    }

    method BroadcastAndFree(p: Ptr, grants: Grants) returns (result: Status)
      requires Valid() && p in heap
      modifies this
      ensures Finish(old(Now()), Broadcasting(p, 1, Error, Wrapped), grants)
           == (Now(), Done(result, {}, 0))
    {
      hide Finish;
      WrappedOutcome(Now(), Broadcasting(p, MSG_ID_APP_START, Error, Raw), grants);
      result := MsgBroadcast(Some(p), grants);
      StillLive(old(Now()), Broadcasting(p, MSG_ID_APP_START, Error, Raw), grants);
      DeallocateOnError(p, result);
    }

    /** The create functions: allocate, fill in the header, send by the route, free on failure. The timer
        interrupt does the same. */
    method CreateAndRoute(c: Create, grants: Grants) returns (result: Status)
      requires Valid()
      modifies this
      ensures Finish(old(Now()), Creating(c), grants) == (Now(), Done(result, {}, 0))
    {
      hide Finish, Routing;
      FinishStep(Now(), Creating(c), grants);
      var p := TryToTake(|c.msg.body|, grants(0));
      if p.None? {
        FinishDone(Now(), Done(Error, {}, 0), grants);
        return Error;
      }
      FinishStep(Now(), Initialising(c, p.value), grants);
      heap := heap[p.value := c.msg];
      result := RouteAndFree(p.value, c.route, grants);
    }

    method RouteAndFree(p: Ptr, route: Route, grants: Grants) returns (result: Status)
      requires Valid() && p in heap
      modifies this
      ensures Finish(old(Now()), Routing(p, route, Wrapped), grants) == (Now(), Done(result, {}, 0))
    {
      hide Finish;
      match route
      case Direct(rx) => result := SendAndFree(rx, p, grants);
      case Unicast => result := SysmsgUnicast(p, grants);
      case Broadcast => result := BroadcastAndFree(p, grants);
    }

    method SysmsgCreateAndSend(txId: Byte, rxId: Byte, code: Byte, grants: Grants) returns (result: Status)
      requires Valid()
      modifies this
      ensures Finish(old(Now()), Creating(Create(Msg(code, 0, txId, 0, []), Direct(rxId))), grants)
           == (Now(), Done(result, {}, 0))
      ensures result == Success ==>
                && grants(0).Some? && rxId < 32 && registry[rxId].receiver.Some?
                && var p, queue := grants(0).value, registry[rxId].receiver.value.queue;
                   && p !in old(heap) && heap == old(heap)[p := Msg(code, rxId, txId, 0, [])]
                   && queue.Some? && queue.value in old(queues)
                   && var was := old(queues)[queue.value];
                      queues == old(queues)[queue.value := Queue(was.depth, was.items + [p])]
      ensures result != Success ==> Now() == old(Now())
    {
      hide Finish;
      CreateEffect(Now(), SendCreate(txId, rxId, code), rxId, grants);
      result := CreateAndRoute(SendCreate(txId, rxId, code), grants);
    }

    method SysmsgCreateAndSendtoSelf(id: Byte, code: Byte, grants: Grants) returns (result: Status)
      requires Valid()
      modifies this
      ensures Finish(old(Now()), Creating(Create(Msg(code, id, id, 0, []), Direct(id))), grants)
           == (Now(), Done(result, {}, 0))
      ensures result == Success ==>
                && grants(0).Some? && id < 32 && registry[id].receiver.Some?
                && var p, queue := grants(0).value, registry[id].receiver.value.queue;
                   && p !in old(heap) && heap == old(heap)[p := Msg(code, id, id, 0, [])]
                   && queue.Some? && queue.value in old(queues)
                   && var was := old(queues)[queue.value];
                      queues == old(queues)[queue.value := Queue(was.depth, was.items + [p])]
      ensures result != Success ==> Now() == old(Now())
    {
      hide Finish;
      CreateEffect(Now(), SelfCreate(id, code), id, grants);
      result := CreateAndRoute(SelfCreate(id, code), grants);
    }

    method SysmsgUnicastCreateAndSend(txId: Byte, code: Byte, grants: Grants) returns (result: Status)
      requires Valid()
      modifies this
      ensures Finish(old(Now()), Creating(Create(Msg(code, 0, txId, 0, []), Unicast)), grants)
           == (Now(), Done(result, {}, 0))
    {
      hide Finish;
      result := CreateAndRoute(UnicastCreate(txId, code), grants);
    }

    method SysmsgCreateAndBroadcast(txId: Byte, code: Byte, grants: Grants) returns (result: Status)
      requires Valid()
      modifies this
      ensures Finish(old(Now()), Creating(Create(Msg(code, 0, txId, 0, []), Broadcast)), grants)
           == (Now(), Done(result, {}, 0))
    {
      hide Finish;
      result := CreateAndRoute(BroadcastCreate(txId, code), grants);
    }

    /** callback: the bytes of the callback pointer and its argument */
    method SysmsgCbCreateAndSend(txId: Byte, rxId: Byte, code: Byte, callback: seq<Byte>, grants: Grants)
      returns (result: Status)
      requires Valid()
      modifies this
      ensures Finish(old(Now()), Creating(Create(Msg(code, rxId, txId, 1, callback),
                                                 if rxId == 0 then Unicast else Direct(rxId))), grants)
           == (Now(), Done(result, {}, 0))
    {
      hide Finish;
      result := CreateAndRoute(CallbackCreate(txId, rxId, code, callback), grants);
    }

    method SysmsgReply(p: Ptr, code: Byte, ghost grants: Grants) returns (result: Status)
      requires Valid() && p in heap
      modifies this
      ensures var m := old(heap)[p];
              var answer := old(Now()).(heap := old(heap)[p := Msg(code, m.tx, m.rx, m.options, m.body)]);
              Finish(answer, Sending(m.tx, p, Wrapped), grants) == (Now(), Done(result, {}, 0))
    {
      var swap := heap[p].rx;
      heap := heap[p := heap[p].(rx := heap[p].tx)];
      heap := heap[p := heap[p].(tx := swap)];
      heap := heap[p := heap[p].(code := code)];
      var m := old(heap)[p];
      assert heap == old(heap)[p := Msg(code, m.tx, m.rx, m.options, m.body)];
      result := SendAndFree(heap[p].rx, p, grants);
    }

    method SysmsgFilteredTargetedSend(p: Ptr, target: Option<Byte>, grants: Grants) returns (result: Status)
      requires Valid() && p in heap
      modifies this
      ensures var rx := if target.Some? then target.value else 0;
              var call := if target.Some? then Sending(rx, p, Wrapped) else Broadcasting(p, 1, Error, Wrapped);
              Finish(old(Now()).(heap := old(heap)[p := old(heap)[p].(rx := rx)]), call, grants)
              == (Now(), Done(result, {}, 0))
    {
      hide Finish;
      match target
      case None =>
        heap := heap[p := heap[p].(rx := MSG_ID_RESERVED)];
        result := BroadcastAndFree(p, grants);
      case Some(id) =>
        heap := heap[p := heap[p].(rx := id)];
        result := SendAndFree(id, p, grants);
    }
  }

  /** A message that a call hands back is live. */
  lemma {:induction false} StillLive(s: Sys, call: Call, grants: Grants)
    requires OnMessage(call) && InRange(call) && CallOk(call) && !call.Done? && call.mode == Raw
    requires Owned(call) <= s.heap.Keys
    ensures var (s1, done) := Finish(s, call, grants); done.back <= s1.heap.Keys
    decreases Rank(s, call)
  {
    hide Finish, Rank;
    FinishStep(s, call, grants);
    StepRank(s, call, GrantFor(call, grants));
    var (a, next) := CallStep(s, call, GrantFor(call, grants));
    CallStepLegal(s, call, GrantFor(call, grants));
    OwnedLive(s, Owned(call), a);
    if next.Done? {
      FinishDone(Do(s, a), next, grants);
    } else {
      WrapStep(s, call, GrantFor(call, grants));
      hide CallStep, CallOk, Do, HandAfter;
      StillLive(Do(s, a), next, grants);
    }
  }

  lemma OwnedLive(s: Sys, hand: set<Ptr>, a: Action)
    requires Legal(s, hand, a) && hand <= s.heap.Keys && !a.Get?
    ensures HandAfter(s, hand, a) <= Do(s, a).heap.Keys
  {
  }
}
