/** The effects of the calls of the message framework, told by the fields of messages, slots and queues alone. */
module Effects {
  import opened Messages
  import opened Calls
  import opened Ownership
  import opened Mailboxes
  import opened Outcomes

  /** Sending to rx: the message gets rx as its rx_id and its address is appended to the queue of the receiver in
      slot rx, or no queue changes and the status says why. */
  lemma SendEffect(s: Sys, rx: Byte, p: Ptr, mode: Mode, grants: Grants)
    requires p in s.heap
    ensures var (s1, done) := Finish(s, Sending(rx, p, mode), grants);
            var m := s.heap[p];
            var queue := if rx < 32 && s.slots[rx].inUse && s.slots[rx].receiver.Some?
                         then s.slots[rx].receiver.value.queue else None;
            && s1.slots == s.slots
            && if queue.None? || queue.value !in s.queues || m.code == 0
                  || |s.queues[queue.value].items| >= s.queues[queue.value].depth
               then
                 && s1.queues == s.queues
                 && (done.status == Full <==> queue.Some? && queue.value in s.queues && m.code != 0)
                 && done.status != Success && done.back == (if mode == Raw then {p} else {})
                 && s1.heap.Keys == s.heap.Keys - (if mode == Raw then {} else {p})
                 && forall r :: r in s1.heap && r != p ==> s1.heap[r] == s.heap[r]
               else
                 var items := s.queues[queue.value].items;
                 && done.status == Success && done.back == {}
                 && s1.heap == s.heap[p := Msg(m.code, rx, m.tx, m.options, m.body)]
                 && s1.queues == s.queues[queue.value := Queue(s.queues[queue.value].depth, items + [p])]
  {
    SendOutcome(s, rx, p, mode, grants);
    hide Finish;
    if rx < MAX_MSG_RECVS && s.slots[rx].inUse && s.slots[rx].receiver.Some? {
      PuttingOutcome(Readdressed(s, p, rx), p, s.slots[rx].receiver.value.queue, mode, grants);
    }
  }

  /** A message made and sent to rx: with a buffer, a receiver, a queue with room and a code other than 0 it waits
      there with rx as its rx_id; otherwise nothing has changed. */
  lemma CreateEffect(s: Sys, c: Create, rx: Byte, grants: Grants)
    requires c.route == Direct(rx)
    ensures var (s1, done) := Finish(s, Creating(c), grants);
            var m := c.msg;
            var queue := if rx < 32 && s.slots[rx].inUse && s.slots[rx].receiver.Some?
                         then s.slots[rx].receiver.value.queue else None;
            if grants(0).None? || grants(0).value in s.heap || queue.None? || queue.value !in s.queues || m.code == 0
               || |s.queues[queue.value].items| >= s.queues[queue.value].depth
            then s1 == s && done.status != Success && done.back == {}
            else
              var items, p := s.queues[queue.value].items, grants(0).value;
              && done.status == Success && done.back == {} && s1.slots == s.slots
              && s1.heap == s.heap[p := Msg(m.code, rx, m.tx, m.options, m.body)]
              && s1.queues == s.queues[queue.value := Queue(s.queues[queue.value].depth, items + [p])]
  {
    hide Finish;
    match Granted(s, grants(0))
    case None =>
      FinishStep(s, Creating(c), grants);
      FinishDone(s, Done(Error, {}, 0), grants);
    case Some(p) =>
      CreateSteps(s, c, p, grants);
      var filled := s.(heap := s.heap[p := c.msg]);
      SendEffect(filled, rx, p, Wrapped, grants);
      var (s1, done) := Finish(filled, Sending(rx, p, Wrapped), grants);
      if done.status != Success {
        assert s1.heap == s.heap;
      }
  }

  /** A unicast is a send to the smallest id from 1 whose receiver has a handler for the code. id is 32 if there is
      none: then it fails. */
  lemma UnicastEffect(s: Sys, p: Ptr, id: nat, mode: Mode, grants: Grants)
    requires p in s.heap && Consistent(s.slots) && 1 <= id <= 32
    requires forall j :: 1 <= j < id && s.slots[j].receiver.Some? && s.slots[j].receiver.value.handles.Some? ==>
               s.heap[p].code !in s.slots[j].receiver.value.handles.value
    requires id < 32 ==> s.slots[id].receiver.Some? && s.slots[id].receiver.value.handles.Some?
                         && s.heap[p].code in s.slots[id].receiver.value.handles.value
    ensures Finish(s, Unicasting(p, 1, mode), grants)
         == if id < 32 then Finish(s, Sending(id, p, mode), grants)
            else if mode == Raw then (s, Done(Error, {p}, 0))
            else (s.(heap := s.heap - {p}), Done(Error, {}, 0))
  {
    hide Finish;
    if id < 32 {
      UnicastOutcome(s, p, Some(id), mode, grants);
    } else {
      UnicastOutcome(s, p, None, mode, grants);
    }
  }

  /** The same for a message that is made first */
  lemma {:induction false} CreateUnicastEffect(s: Sys, c: Create, id: nat, grants: Grants)
    requires c.route == Unicast && Consistent(s.slots) && 1 <= id <= 32
    requires forall j :: 1 <= j < id && s.slots[j].receiver.Some? && s.slots[j].receiver.value.handles.Some? ==>
               c.msg.code !in s.slots[j].receiver.value.handles.value
    requires id < 32 ==> s.slots[id].receiver.Some? && s.slots[id].receiver.value.handles.Some?
                         && c.msg.code in s.slots[id].receiver.value.handles.value
    ensures Finish(s, Creating(c), grants)
         == if id < 32 then Finish(s, Creating(Create(c.msg, Direct(id))), grants) else (s, Done(Error, {}, 0))
  {
    hide Finish;
    match Granted(s, grants(0))
    case None =>
      FinishStep(s, Creating(c), grants);
      FinishDone(s, Done(Error, {}, 0), grants);
      if id < 32 {
        FinishStep(s, Creating(Create(c.msg, Direct(id))), grants);
      }
    case Some(p) =>
      var filled := s.(heap := s.heap[p := c.msg]);
      CreateSteps(s, c, p, grants);
      UnicastEffect(filled, p, id, Wrapped, grants);
      assert filled.heap - {p} == s.heap;
      if id < 32 {
        CreateSteps(s, Create(c.msg, Direct(id)), p, grants);
      }
  }

  lemma EmptiedMeans(s: Sys, q: QueueId)
    requires q in s.queues
    ensures Emptied(s, q).queues == s.queues[q := Queue(s.queues[q].depth, [])] && Emptied(s, q).slots == s.slots
    ensures Emptied(s, q).heap == s.heap - (set p | p in s.queues[q].items)
  {
  }

  /** A flush empties the queue of the receiver, frees the messages that waited there and counts them. */
  lemma FlushEffect(s: Sys, rx: Byte, grants: Grants)
    ensures var (s1, done) := Finish(s, FlushCall(s, rx), grants);
            var queue := if rx < 32 && s.slots[rx].inUse && s.slots[rx].receiver.Some?
                         then s.slots[rx].receiver.value.queue else None;
            && done.status == Success && done.back == {}
            && if queue.None? || queue.value !in s.queues then s1 == s && done.purged == 0
               else
                 var q := s.queues[queue.value];
                 && done.purged == |q.items| && s1.slots == s.slots
                 && s1.queues == s.queues[queue.value := Queue(q.depth, [])]
                 && s1.heap == s.heap - (set p | p in q.items)
  {
    hide Finish;
    var call := FlushCall(s, rx);
    if call.Done? {
      FinishDone(s, call, grants);
    } else if call.queue.None? || call.queue.value !in s.queues {
      FinishStep(s, call, grants);
      FinishDone(s, Done(Success, {}, 0), grants);
    } else {
      FlushOutcome(s, call.queue.value, 0, grants);
    }
  }

  /** With a queue for each receiver, the queue of slot id gets the copy for slot id. */
  lemma {:induction false} CopiesOfSlot(slots: Registry, m: Msg, attempts: seq<Attempt>, i: nat, id: nat)
    requires SeparateQueues(slots) && TriedInOrder(slots, m, attempts, i) && id < MAX_MSG_RECVS
    requires slots[id].receiver.Some? && slots[id].receiver.value.queue.Some?
    ensures CopiesFor(slots, m, attempts, slots[id].receiver.value.queue.value)
         == if Attempt(id, Success) in attempts then [m.(rx := slots[id].receiver.value.id)] else []
    decreases |attempts|
  {
    if attempts != [] {
      var first := attempts[0];
      CopiesOfSlot(slots, m, attempts[1..], first.id + 1, id);
      assert attempts == [first] + attempts[1..];
      assert Reaches(slots, first, slots[id].receiver.value.queue.value) <==> first == Attempt(id, Success);
      hide Eligible;
      assert first.id == id ==> Attempt(id, Success) !in attempts[1..];
    }
  }

  /** A queue that no receiver from slot 1 has gets nothing. */
  lemma {:induction false} CopiesElsewhere(slots: Registry, m: Msg, attempts: seq<Attempt>, i: nat, q: QueueId)
    requires TriedInOrder(slots, m, attempts, i) && 1 <= i
    requires forall j :: 1 <= j < MAX_MSG_RECVS && slots[j].receiver.Some? ==> slots[j].receiver.value.queue != Some(q)
    ensures CopiesFor(slots, m, attempts, q) == []
    decreases |attempts|
  {
    if attempts != [] {
      CopiesElsewhere(slots, m, attempts[1..], attempts[0].id + 1, q);
    }
  }

  /** Slot id is served exactly if its receiver has a handler, accepts the message, and its copy and a place in its
      queue can be had. */
  lemma SlotServed(s: Sys, p: Ptr, grants: Grants, id: nat)
    requires p in s.heap && HonestPool(s, grants, 1) && SeparateQueues(s.slots)
    requires 1 <= id < 32 && s.slots[id].receiver.Some? && s.slots[id].receiver.value.queue.Some?
    ensures var m, r := s.heap[p], s.slots[id].receiver.value;
            var q := r.queue.value;
            Attempt(id, Success) in Turns(s, p, 1, grants).1
            <==> && r.handles.Some? && m.code in r.handles.value && m.code != 0
                 && (r.accepts.Some? ==> r.accepts.value(m)) && grants(id).Some?
                 && q in s.queues && |s.queues[q].items| < s.queues[q].depth
  {
    hide Turns, HonestPool, SeparateQueues;
    BroadcastExactly(s, p, MSG_ID_APP_START, grants, id, Success);
  }

  lemma SlotCopies(s: Sys, p: Ptr, grants: Grants, id: nat)
    requires p in s.heap && Consistent(s.slots) && HonestPool(s, grants, 1) && SeparateQueues(s.slots)
    requires 1 <= id < 32 && s.slots[id].receiver.Some? && s.slots[id].receiver.value.queue.Some?
    ensures var m, r := s.heap[p], s.slots[id].receiver.value;
            var q := r.queue.value;
            CopiesFor(s.slots, m, Turns(s, p, 1, grants).1, q)
            == if r.handles.Some? && m.code in r.handles.value && m.code != 0
                  && (r.accepts.Some? ==> r.accepts.value(m)) && grants(id).Some?
                  && q in s.queues && |s.queues[q].items| < s.queues[q].depth
               then [Msg(m.code, id, m.tx, m.options, m.body)] else []
  {
    assert s.slots[id].receiver.value.id == id;
    hide Turns, HonestPool, SeparateQueues, Consistent, CopiesFor, TriedInOrder;
    SlotServed(s, p, grants, id);
    AttemptsInOrder(s, p, MSG_ID_APP_START, grants);
    CopiesOfSlot(s.slots, s.heap[p], Turns(s, p, MSG_ID_APP_START, grants).1, MSG_ID_APP_START, id);
  }

  /** A broadcast of a message: the receiver in slot id gets one copy with its own id, exactly if it has a handler for
      the code, its filter accepts the message, its copy was granted and its queue has room. */
  lemma BroadcastEffect(w: World, t: Tid, p: Ptr, grants: Grants, id: nat)
    requires Owns(w) && p in Hand(w, t) && p in w.sys.heap && Consistent(w.sys.slots)
    requires HonestPool(w.sys, grants, 1) && SeparateQueues(w.sys.slots)
    requires 1 <= id < 32 && w.sys.slots[id].receiver.Some? && w.sys.slots[id].receiver.value.queue.Some?
    ensures var (s1, done) := Finish(w.sys, Broadcasting(p, 1, Error, Wrapped), grants);
            var m, r := w.sys.heap[p], w.sys.slots[id].receiver.value;
            var q := r.queue.value;
            && p !in s1.heap && done.back == {}
            && Mail(s1, q) == Mail(w.sys, q)
                              + if r.handles.Some? && m.code in r.handles.value && m.code != 0
                                   && (r.accepts.Some? ==> r.accepts.value(m)) && grants(id).Some?
                                   && q in w.sys.queues && |w.sys.queues[q].items| < w.sys.queues[q].depth
                                then [Msg(m.code, id, m.tx, m.options, m.body)] else []
  {
    hide Finish, Turns, Mail, Owns, Hand, CopiesFor, HonestPool, SeparateQueues, Consistent, PutStatus, Eligible;
    SlotCopies(w.sys, p, grants, id);
    WrappedBroadcast(w, t, p, grants, w.sys.slots[id].receiver.value.queue.value);
  }

  /** Whatever queue is not one of these receivers' stays as it is. */
  lemma BroadcastElsewhere(w: World, t: Tid, p: Ptr, grants: Grants, q: QueueId)
    requires Owns(w) && p in Hand(w, t) && p in w.sys.heap
    requires forall j :: 1 <= j < 32 && w.sys.slots[j].receiver.Some? ==> w.sys.slots[j].receiver.value.queue != Some(q)
    ensures Mail(Finish(w.sys, Broadcasting(p, 1, Error, Wrapped), grants).0, q) == Mail(w.sys, q)
  {
    var attempts := Turns(w.sys, p, MSG_ID_APP_START, grants).1;
    AttemptsInOrder(w.sys, p, MSG_ID_APP_START, grants);
    CopiesElsewhere(w.sys.slots, w.sys.heap[p], attempts, MSG_ID_APP_START, q);
    hide Finish, Turns, Mail, Owns, Hand, CopiesFor;
    WrappedBroadcast(w, t, p, grants, q);
  }

  /** sysmsg_create_and_broadcast, field by field */
  lemma CreateBroadcastEffect(w: World, t: Tid, tx: Byte, code: Byte, grants: Grants, id: nat)
    requires Owns(w) && Consistent(w.sys.slots) && HonestPool(w.sys, grants, 0) && SeparateQueues(w.sys.slots)
    requires 1 <= id < 32 && w.sys.slots[id].receiver.Some? && w.sys.slots[id].receiver.value.queue.Some?
    ensures var s1 := Finish(w.sys, Creating(BroadcastCreate(tx, code)), grants).0;
            var r := w.sys.slots[id].receiver.value;
            var q := r.queue.value;
            Mail(s1, q) == Mail(w.sys, q)
                           + if grants(0).Some? && r.handles.Some? && code in r.handles.value && code != 0
                                && (r.accepts.Some? ==> r.accepts.value(Msg(code, 0, tx, 0, []))) && grants(id).Some?
                                && q in w.sys.queues && |w.sys.queues[q].items| < w.sys.queues[q].depth
                             then [Msg(code, id, tx, 0, [])] else []
  {
    var q := w.sys.slots[id].receiver.value.queue.value;
    var c := BroadcastCreate(tx, code);
    match grants(0)
    case None =>
      FinishStep(w.sys, Creating(c), grants);
      hide Finish, Mail;
      FinishDone(w.sys, Done(Error, {}, 0), grants);
    case Some(p) =>
      var alloc := Alloc(p, c.msg);
      var u := Act(w, t, alloc);
      assert p !in w.sys.heap;
      CreateSteps(w.sys, c, p, grants);
      ActOwns(w, t, alloc);
      ActMail(w, t, alloc, q);
      ActHands(w, t, alloc, t);
      hide Finish, Mail, Owns, SeparateQueues, Consistent;
      assert HonestPool(u.sys, grants, 1);
      BroadcastEffect(u, t, p, grants, id);
  }
}
