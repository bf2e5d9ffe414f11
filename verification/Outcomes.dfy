/** What the calls of the message framework do when nothing comes between their steps. */
module Outcomes {
  import opened Messages
  import opened Calls
  import opened Ownership
  import opened Mailboxes

  /** The pool's answers: to the request for the copy for receiver i, and at 0 for the original */
  type Grants = nat -> Option<Ptr>

  function GrantFor(call: Call, grants: Grants): Option<Ptr> {
    if call.Broadcasting? then grants(call.i) else grants(0)
  }

  function Left(i: nat): nat {
    if i < MAX_MSG_RECVS then MAX_MSG_RECVS - i else 0
  }

  /** The steps that a call has left, at most */
  function Rank(s: Sys, call: Call): nat {
    match call
    case Done(_, _, _) => 0
    case Creating(_) => 1001
    case Initialising(_, _) => 1000
    case Sending(_, _, _) => 4
    case Unicasting(_, i, _) => 10 + Left(i)
    case Putting(_, _, _) => 3
    case Failed(_, _, _) => 1
    case Broadcasting(_, i, _, _) => 103 + 4 * Left(i)
    case Copying(_, i, _, _, _) => 102 + 4 * Left(i)
    case PuttingCopy(_, i, _, _, _) => 101 + 4 * Left(i)
    case FreeingCopy(_, i, _, _, _) => 100 + 4 * Left(i)
    case Routed(_, _, _) => 2
    case Flushing(queue, _) => 1 + 2 * (if queue.Some? then |Items(s, queue.value)| else 0)
    case FlushFreeing(queue, _, _) => 2 + 2 * (if queue.Some? then |Items(s, queue.value)| else 0)
  }

  /** Only calls that were begun by the framework's functions; a copy is made for a slot of the registry. */
  predicate InRange(call: Call) {
    (call.Copying? || call.PuttingCopy? || call.FreeingCopy?) ==> call.i < MAX_MSG_RECVS
  }

  lemma StepRank(s: Sys, call: Call, grant: Option<Ptr>)
    requires !call.Done? && InRange(call)
    ensures var (a, next) := CallStep(s, call, grant);
            InRange(next) && Rank(Do(s, a), next) < Rank(s, call)
  {
    var (a, next) := CallStep(s, call, grant);
    if call.Flushing? && a.Get? {
      ActItems(s, a, call.queue.value);
    }
    if call.FlushFreeing? && call.queue.Some? {
      ActItems(s, a, call.queue.value);
    }
  }

  /** The system and the result when the call is done */
  function Finish(s: Sys, call: Call, grants: Grants): (r: (Sys, Call))
    requires InRange(call)
    ensures r.1.Done?
    decreases Rank(s, call)
  {
    if call.Done? then (s, call)
    else
      StepRank(s, call, GrantFor(call, grants));
      var (a, next) := CallStep(s, call, GrantFor(call, grants));
      Finish(Do(s, a), next, grants)
  }

  lemma FinishStep(s: Sys, call: Call, grants: Grants)
    requires InRange(call) && !call.Done?
    ensures var (a, next) := CallStep(s, call, GrantFor(call, grants));
            InRange(next) && Finish(s, call, grants) == Finish(Do(s, a), next, grants)
  {
    hide CallStep, Do;
    StepRank(s, call, GrantFor(call, grants));
  }

  lemma FinishDone(s: Sys, call: Call, grants: Grants)
    requires call.Done?
    ensures Finish(s, call, grants) == (s, call)
  {
  }

  // ----- direct sends and unicasts -----

  /** The result for a message that was not queued: the sys_msg.c functions free it, the sys_core.c
      functions leave it to their caller. */
  function Rejected(s: Sys, p: Ptr, status: Status, mode: Mode): (Sys, Call) {
    if mode == Wrapped then (s.(heap := s.heap - {p}), Done(status, {}, 0)) else (s, Done(status, {p}, 0))
  }

  function Queued(s: Sys, p: Ptr, q: QueueId): Sys
    requires q in s.queues
  {
    s.(queues := s.queues[q := s.queues[q].(items := s.queues[q].items + [p])])
  }

  lemma PuttingOutcome(s: Sys, p: Ptr, queue: Option<QueueId>, mode: Mode, grants: Grants)
    ensures Finish(s, Putting(p, queue, mode), grants)
         == (var status := PutStatus(s, queue, Deref(s.heap, p));
             if status == Success then (Queued(s, p, queue.value), Done(Success, {}, 0))
             else Rejected(s, p, status, mode))
  {
    var status := PutStatus(s, queue, Deref(s.heap, p));
    FinishStep(s, Putting(p, queue, mode), grants);
    hide Finish, Deref;
    if status == Success {
      FinishDone(Queued(s, p, queue.value), Done(Success, {}, 0), grants);
    } else {
      FailedOutcome(s, p, status, mode, grants);
    }
  }

  lemma FailedOutcome(s: Sys, p: Ptr, status: Status, mode: Mode, grants: Grants)
    ensures Finish(s, Failed(p, status, mode), grants) == Rejected(s, p, status, mode)
  {
    FinishStep(s, Failed(p, status, mode), grants);
  }

  function Readdressed(s: Sys, p: Ptr, rx: Byte): Sys {
    s.(heap := s.heap[p := Deref(s.heap, p).(rx := rx)])
  }

  /** Sending to rx: the message is queued exactly when rx is registered with a queue that has room and
      the code is valid. Otherwise nothing is queued, and the message is freed or handed back. */
  lemma SendOutcome(s: Sys, rx: Byte, p: Ptr, mode: Mode, grants: Grants)
    requires p in s.heap
    ensures Finish(s, Sending(rx, p, mode), grants)
         == if rx < MAX_MSG_RECVS && s.slots[rx].inUse && s.slots[rx].receiver.Some?
            then Finish(Readdressed(s, p, rx), Putting(p, s.slots[rx].receiver.value.queue, mode), grants)
            else Rejected(s, p, Error, mode)
  {
    FinishStep(s, Sending(rx, p, mode), grants);
    hide Finish, Deref;
    FailedOutcome(s, p, Error, mode, grants);
  }

  /** The receiver that a unicast goes to: the one of the smallest id from 1 with a handler */
  predicate IsUnicastTarget(slots: Registry, code: Byte, i: nat) {
    && MSG_ID_APP_START <= i < MAX_MSG_RECVS
    && Handles(slots[i], code)
    && forall j :: MSG_ID_APP_START <= j < i ==> !Handles(slots[j], code)
  }

  lemma {:induction false} UnicastSearch(s: Sys, p: Ptr, i: nat, target: nat, mode: Mode, grants: Grants)
    requires p in s.heap && MSG_ID_APP_START <= i <= target && IsUnicastTarget(s.slots, s.heap[p].code, target)
    ensures Finish(s, Unicasting(p, i, mode), grants)
         == Finish(Readdressed(s, p, s.slots[target].receiver.value.id),
                   Putting(p, s.slots[target].receiver.value.queue, mode), grants)
    decreases target - i
  {
    FinishStep(s, Unicasting(p, i, mode), grants);
    hide Finish;
    if i < target {
      UnicastSearch(s, p, i + 1, target, mode, grants);
    }
  }

  lemma {:induction false} UnicastNobody(s: Sys, p: Ptr, i: nat, mode: Mode, grants: Grants)
    requires p in s.heap && MSG_ID_APP_START <= i <= MAX_MSG_RECVS
    requires forall j :: i <= j < MAX_MSG_RECVS ==> !Handles(s.slots[j], s.heap[p].code)
    ensures Finish(s, Unicasting(p, i, mode), grants) == Rejected(s, p, Error, mode)
    decreases MAX_MSG_RECVS - i
  {
    FinishStep(s, Unicasting(p, i, mode), grants);
    hide Finish;
    if i < MAX_MSG_RECVS {
      UnicastNobody(s, p, i + 1, mode, grants);
    } else {
      FailedOutcome(s, p, Error, mode, grants);
    }
  }

  /** A unicast appends to at most one queue, that of its target, and otherwise frees or returns. */
  lemma UnicastOutcome(s: Sys, p: Ptr, target: Option<nat>, mode: Mode, grants: Grants)
    requires p in s.heap && Consistent(s.slots)
    requires target.Some? ==> IsUnicastTarget(s.slots, s.heap[p].code, target.value)
    requires target.None? ==> forall i :: !IsUnicastTarget(s.slots, s.heap[p].code, i)
    ensures Finish(s, Unicasting(p, MSG_ID_APP_START, mode), grants)
         == if target.None? then Rejected(s, p, Error, mode)
            else Finish(s, Sending(target.value, p, mode), grants)
  {
    hide Finish, Rejected;
    match target
    case Some(i) =>
      UnicastSearch(s, p, MSG_ID_APP_START, i, mode, grants);
      SendOutcome(s, i, p, mode, grants);
    case None =>
      forall j | MSG_ID_APP_START <= j < MAX_MSG_RECVS ensures !Handles(s.slots[j], s.heap[p].code) {
        NoTargetNoHandler(s.slots, s.heap[p].code, j);
      }
      UnicastNobody(s, p, MSG_ID_APP_START, mode, grants);
  }

  lemma {:induction false} NoTargetNoHandler(slots: Registry, code: Byte, j: nat)
    requires forall i :: !IsUnicastTarget(slots, code, i)
    requires MSG_ID_APP_START <= j < MAX_MSG_RECVS
    ensures !Handles(slots[j], code)
    decreases j
  {
    forall k | MSG_ID_APP_START <= k < j ensures !Handles(slots[k], code) {
      NoTargetNoHandler(slots, code, k);
    }
    assert !IsUnicastTarget(slots, code, j);
  }

  // ----- flush -----

  /** The messages of q freed and its queue empty, and nothing else changed */
  function Emptied(s: Sys, q: QueueId): Sys
    requires q in s.queues
  {
    s.(heap := s.heap - (set p | p in s.queues[q].items), queues := s.queues[q := s.queues[q].(items := [])])
  }

  lemma EmptiedByOne(s: Sys, q: QueueId)
    requires q in s.queues && s.queues[q].items != []
    ensures Emptied(Do(Do(s, Get(q)), Free(s.queues[q].items[0])), q) == Emptied(s, q)
  {
    var items := s.queues[q].items;
    assert items == [items[0]] + items[1..];
    assert (set p | p in items) == {items[0]} + (set p | p in items[1..]);
    assert s.heap - {items[0]} - (set p | p in items[1..]) == s.heap - (set p | p in items);
  }

  lemma EmptiedAlready(s: Sys, q: QueueId)
    requires q in s.queues && s.queues[q].items == []
    ensures Emptied(s, q) == s
  {
    assert s.queues[q := s.queues[q].(items := [])] == s.queues;
    assert (set p | p in s.queues[q].items) == {};
    assert s.heap - {} == s.heap;
  }

  /** msg_flush frees exactly the messages of the queue, counts them, and leaves the rest alone. */
  lemma {:induction false} FlushOutcome(s: Sys, q: QueueId, purged: nat, grants: Grants)
    requires q in s.queues
    ensures Finish(s, Flushing(Some(q), purged), grants)
         == (Emptied(s, q), Done(Success, {}, purged + |s.queues[q].items|))
    decreases |s.queues[q].items|
  {
    var items := s.queues[q].items;
    FinishStep(s, Flushing(Some(q), purged), grants);
    hide Finish, Emptied;
    if items == [] {
      FinishDone(s, Done(Success, {}, purged), grants);
      EmptiedAlready(s, q);
    } else {
      var s1 := Do(s, Get(q));
      FinishStep(s1, FlushFreeing(Some(q), items[0], purged), grants);
      FlushOutcome(Do(s1, Free(items[0])), q, purged + 1, grants);
      EmptiedByOne(s, q);
    }
  }

  // ----- broadcasts -----

  /** A copy that the broadcast tried to queue for the receiver in slot id, and the answer of the queue */
  datatype Attempt = Attempt(id: nat, status: Status)

  /** One turn of the loop: the copy is in the queue, or nothing has changed. */
  function Turn(s: Sys, p: Ptr, i: nat, grant: Option<Ptr>): (Sys, seq<Attempt>)
    requires i < MAX_MSG_RECVS
  {
    var m := Deref(s.heap, p);
    if Eligible(s.slots[i], m) && Granted(s, grant).Some? then
      var r := s.slots[i].receiver.value;
      var status := PutStatus(s, r.queue, m);
      if status == Success
      then (Queued(s.(heap := s.heap[grant.value := m.(rx := r.id)]), grant.value, r.queue.value), [Attempt(i, status)])
      else (s, [Attempt(i, status)])
    else (s, [])
  }

  function Turns(s: Sys, p: Ptr, i: nat, grants: Grants): (Sys, seq<Attempt>)
    decreases MAX_MSG_RECVS - i
  {
    if i >= MAX_MSG_RECVS then (s, [])
    else
      var (s1, now) := Turn(s, p, i, grants(i));
      var (s2, later) := Turns(s1, p, i + 1, grants);
      (s2, now + later)
  }

  function LastStatus(attempts: seq<Attempt>): Status {
    if attempts == [] then Error else attempts[|attempts| - 1].status
  }

  /** Queueing a copy that is already filled */
  lemma PuttingCopySteps(s: Sys, p: Ptr, i: nat, copy: Ptr, r: Receiver, mode: Mode, grants: Grants)
    requires copy in s.heap && i < MAX_MSG_RECVS
    ensures Finish(s, PuttingCopy(p, i, copy, r, mode), grants)
         == (var status := PutStatus(s, r.queue, s.heap[copy]);
             Finish(if status == Success then Queued(s, copy, r.queue.value) else s.(heap := s.heap - {copy}),
                    Broadcasting(p, i + 1, status, mode), grants))
  {
    var status := PutStatus(s, r.queue, s.heap[copy]);
    hide Finish, PutStatus;
    FinishStep(s, PuttingCopy(p, i, copy, r, mode), grants);
    if status != Success {
      FinishStep(s, FreeingCopy(p, i, copy, status, mode), grants);
    }
  }

  /** Filling and queueing a copy that the pool granted */
  lemma CopyingSteps(s: Sys, p: Ptr, i: nat, copy: Ptr, r: Receiver, mode: Mode, grants: Grants)
    requires p in s.heap && copy !in s.heap && i < MAX_MSG_RECVS
    ensures Finish(Do(s, Alloc(copy, Blank(|s.heap[p].body|))), Copying(p, i, copy, r, mode), grants)
         == (var filled := s.(heap := s.heap[copy := s.heap[p].(rx := r.id)]);
             var status := PutStatus(s, r.queue, s.heap[p]);
             Finish(if status == Success then Queued(filled, copy, r.queue.value) else s,
                    Broadcasting(p, i + 1, status, mode), grants))
  {
    var s1 := Do(s, Alloc(copy, Blank(|s.heap[p].body|)));
    var filled := s.(heap := s.heap[copy := s.heap[p].(rx := r.id)]);
    FinishStep(s1, Copying(p, i, copy, r, mode), grants);
    hide Finish;
    assert Do(s1, Write(copy, s.heap[p].(rx := r.id))) == filled by {
      assert s1.heap[copy := s.heap[p].(rx := r.id)] == filled.heap;
    }
    PuttingCopySteps(filled, p, i, copy, r, mode, grants);
    assert filled.heap - {copy} == s.heap;
  }

  lemma TurnSteps(s: Sys, p: Ptr, i: nat, last: Status, mode: Mode, grants: Grants)
    requires p in s.heap && i < MAX_MSG_RECVS
    ensures Finish(s, Broadcasting(p, i, last, mode), grants)
         == (var (s1, now) := Turn(s, p, i, grants(i));
             Finish(s1, Broadcasting(p, i + 1, if now == [] then last else now[0].status, mode), grants))
  {
    FinishStep(s, Broadcasting(p, i, last, mode), grants);
    hide Finish, Eligible, PutStatus, Do;
    if Eligible(s.slots[i], s.heap[p]) && Granted(s, grants(i)).Some? {
      CopyingSteps(s, p, i, grants(i).value, s.slots[i].receiver.value, mode, grants);
    } else {
      NothingDone(s);
    }
  }

  lemma NothingDone(s: Sys)
    ensures Do(s, Nothing) == s
  {
  }

  lemma {:induction false} TurnsSteps(s: Sys, p: Ptr, i: nat, last: Status, mode: Mode, grants: Grants)
    requires p in s.heap && i <= MAX_MSG_RECVS
    ensures Finish(s, Broadcasting(p, i, last, mode), grants)
         == (var (s1, attempts) := Turns(s, p, i, grants);
             Finish(s1, Routed(p, if attempts == [] then last else LastStatus(attempts), mode), grants))
    decreases MAX_MSG_RECVS - i
  {
    hide Finish, Turn;
    if i >= MAX_MSG_RECVS {
      FinishStep(s, Broadcasting(p, i, last, mode), grants);
    } else {
      TurnSteps(s, p, i, last, mode, grants);
      TurnFacts(s, p, i, grants(i));
      var (s1, now) := Turn(s, p, i, grants(i));
      TurnsSteps(s1, p, i + 1, if now == [] then last else now[0].status, mode, grants);
    }
  }

  lemma TurnFacts(s: Sys, p: Ptr, i: nat, grant: Option<Ptr>)
    requires i < MAX_MSG_RECVS && p in s.heap
    ensures var (s1, now) := Turn(s, p, i, grant);
            && p in s1.heap && s1.heap[p] == s.heap[p] && s1.slots == s.slots && s1.queues.Keys == s.queues.Keys
            && |now| <= 1 && (now != [] ==> now[0].id == i && Eligible(s.slots[i], s.heap[p]))
            && (forall q :: q in s.queues ==> s1.queues[q].depth == s.queues[q].depth)
  {
  }

  /** A broadcast reports the answer to its last attempt, whatever the earlier ones were, and frees the
      original exactly when that was a success; the sys_msg.c functions free it otherwise. */
  lemma BroadcastOutcome(s: Sys, p: Ptr, mode: Mode, grants: Grants)
    requires p in s.heap
    ensures Finish(s, Broadcasting(p, MSG_ID_APP_START, Error, mode), grants)
         == (var (s1, attempts) := Turns(s, p, MSG_ID_APP_START, grants);
             var status := LastStatus(attempts);
             if status == Success then (s1.(heap := s1.heap - {p}), Done(Success, {}, 0))
             else Rejected(s1, p, status, mode))
  {
    hide Finish, Turns;
    TurnsSteps(s, p, MSG_ID_APP_START, Error, mode, grants);
    var (s1, attempts) := Turns(s, p, MSG_ID_APP_START, grants);
    FinishStep(s1, Routed(p, LastStatus(attempts), mode), grants);
    if LastStatus(attempts) == Success {
      FinishDone(s1.(heap := s1.heap - {p}), Done(Success, {}, 0), grants);
    } else {
      FailedOutcome(s1, p, LastStatus(attempts), mode, grants);
    }
  }

  /** The messages that a broadcast of m puts into q, in the order of the receivers' ids */
  function CopiesFor(slots: Registry, m: Msg, attempts: seq<Attempt>, q: QueueId): seq<Msg> {
    if attempts == [] then []
    else (if Reaches(slots, attempts[0], q) then [m.(rx := slots[attempts[0].id].receiver.value.id)] else [])
         + CopiesFor(slots, m, attempts[1..], q)
  }

  predicate Reaches(slots: Registry, a: Attempt, q: QueueId) {
    && a.status == Success && a.id < MAX_MSG_RECVS
    && slots[a.id].receiver.Some? && slots[a.id].receiver.value.queue == Some(q)
  }

  function Delivered(attempts: seq<Attempt>): nat {
    if attempts == [] then 0 else (if attempts[0].status == Success then 1 else 0) + Delivered(attempts[1..])
  }

  lemma TurnMail(w: World, t: Tid, p: Ptr, i: nat, grant: Option<Ptr>, q: QueueId) returns (v: World)
    requires Owns(w) && p in Hand(w, t) && p in w.sys.heap && i < MAX_MSG_RECVS
    ensures var (s1, now) := Turn(w.sys, p, i, grant);
            && v.sys == s1 && Owns(v) && p in Hand(v, t)
            && Mail(s1, q) == Mail(w.sys, q) + CopiesFor(w.sys.slots, w.sys.heap[p], now, q)
            && |s1.heap| == |w.sys.heap| + Delivered(now)
  {
    hide Owns, Mail, Hand;
    var (s1, now) := Turn(w.sys, p, i, grant);
    if now != [] && now[0].status == Success {
      var m, r := w.sys.heap[p], w.sys.slots[i].receiver.value;
      var fill, put := Alloc(grant.value, m.(rx := r.id)), Put(grant.value, r.queue.value);
      var u := Act(w, t, fill);
      ActOwns(w, t, fill);
      ActMail(w, t, fill, q);
      ActHands(w, t, fill, t);
      v := Act(u, t, put);
      ActOwns(u, t, put);
      ActMail(u, t, put, q);
      ActHands(u, t, put, t);
      assert v.sys == s1;
    } else {
      v := w;
    }
  }

  /** Every receiver from slot i is attempted at most once, in the order of the ids, and only if it has a
      handler for m and accepts it. */
  ghost predicate TriedInOrder(slots: Registry, m: Msg, attempts: seq<Attempt>, i: nat) {
    && (forall k :: 0 <= k < |attempts| ==>
          i <= attempts[k].id < MAX_MSG_RECVS && Eligible(slots[attempts[k].id], m))
    && (forall j, k :: 0 <= j < k < |attempts| ==> attempts[j].id < attempts[k].id)
  }

  lemma TriedInOrderAppend(slots: Registry, m: Msg, now: seq<Attempt>, later: seq<Attempt>, i: nat)
    requires TriedInOrder(slots, m, later, i + 1) && |now| <= 1 && i < MAX_MSG_RECVS
    requires now != [] ==> now[0].id == i && Eligible(slots[i], m)
    ensures TriedInOrder(slots, m, now + later, i)
  {
    hide Eligible;
  }

  lemma {:induction false} AttemptsInOrder(s: Sys, p: Ptr, i: nat, grants: Grants)
    requires p in s.heap
    ensures TriedInOrder(s.slots, s.heap[p], Turns(s, p, i, grants).1, i)
    decreases MAX_MSG_RECVS - i
  {
    hide Turn, Eligible, TriedInOrder;
    if i >= MAX_MSG_RECVS {
      NoAttempts(s.slots, s.heap[p], i);
    } else {
      var (s1, now) := Turn(s, p, i, grants(i));
      TurnFacts(s, p, i, grants(i));
      AttemptsInOrder(s1, p, i + 1, grants);
      TriedInOrderAppend(s.slots, s.heap[p], now, Turns(s1, p, i + 1, grants).1, i);
    }
  }

  lemma NoAttempts(slots: Registry, m: Msg, i: nat)
    ensures TriedInOrder(slots, m, [], i)
  {
  }

  /** Each successful attempt adds to its queue one copy that equals the original except for the
      receiver's id; nothing else in any queue changes, and the live buffers grow by the copies. */
  lemma {:induction false} BroadcastMail(w: World, t: Tid, p: Ptr, i: nat, grants: Grants, q: QueueId)
    returns (v: World)
    requires Owns(w) && p in Hand(w, t) && p in w.sys.heap
    ensures v.sys == Turns(w.sys, p, i, grants).0 && Owns(v) && p in Hand(v, t)
    ensures var (s1, attempts) := Turns(w.sys, p, i, grants);
            && p in s1.heap && s1.heap[p] == w.sys.heap[p]
            && Mail(s1, q) == Mail(w.sys, q) + CopiesFor(w.sys.slots, w.sys.heap[p], attempts, q)
            && |s1.heap| == |w.sys.heap| + Delivered(attempts)
    decreases MAX_MSG_RECVS - i
  {
    hide Owns, Mail, Hand, Turn, Eligible, CopiesFor, Delivered;
    if i >= MAX_MSG_RECVS {
      NoCopies(w.sys.slots, w.sys.heap[p], q);
      v := w;
    } else {
      var (s1, now) := Turn(w.sys, p, i, grants(i));
      var u := TurnMail(w, t, p, i, grants(i), q);
      TurnFacts(w.sys, p, i, grants(i));
      v := BroadcastMail(u, t, p, i + 1, grants, q);
      CopiesSplit(w.sys.slots, w.sys.heap[p], now, Turns(s1, p, i + 1, grants).1, q);
    }
  }

  lemma NoCopies(slots: Registry, m: Msg, q: QueueId)
    ensures CopiesFor(slots, m, [], q) == [] && Delivered([]) == 0
  {
  }

  lemma CopiesSplit(slots: Registry, m: Msg, now: seq<Attempt>, later: seq<Attempt>, q: QueueId)
    requires |now| <= 1
    ensures CopiesFor(slots, m, now + later, q) == CopiesFor(slots, m, now, q) + CopiesFor(slots, m, later, q)
    ensures Delivered(now + later) == Delivered(now) + Delivered(later)
  {
    if now == [] {
      assert now + later == later;
    } else {
      assert (now + later)[1..] == later && now[1..] == [];
    }
  }

  /** The heap's promise: it grants addresses that are free and differ from each other. */
  ghost predicate HonestPool(s: Sys, grants: Grants, i: nat) {
    && (forall k: nat :: i <= k && grants(k).Some? ==> grants(k).value !in s.heap)
    && (forall j: nat, k: nat :: i <= j < k && grants(j).Some? && grants(k).Some? ==>
          grants(j).value != grants(k).value)
  }

  ghost predicate SeparateQueues(slots: Registry) {
    forall j, k :: 0 <= j < k < MAX_MSG_RECVS && slots[j].receiver.Some? && slots[k].receiver.Some?
                   && slots[j].receiver.value.queue.Some? ==>
      slots[j].receiver.value.queue != slots[k].receiver.value.queue
  }

  /** With an honest pool and a queue for each receiver, which receivers get the broadcast depends on
      each of them alone: it is tried exactly if it is eligible and its copy was granted, and it gets it
      exactly if its own queue had room at the start. */
  lemma {:induction false} BroadcastExactly(s: Sys, p: Ptr, i: nat, grants: Grants, id: nat, status: Status)
    requires p in s.heap && i <= id < MAX_MSG_RECVS
    requires HonestPool(s, grants, i) && SeparateQueues(s.slots)
    ensures Attempt(id, status) in Turns(s, p, i, grants).1 <==>
            && Eligible(s.slots[id], s.heap[p]) && grants(id).Some?
            && status == PutStatus(s, s.slots[id].receiver.value.queue, s.heap[p])
    decreases MAX_MSG_RECVS - i
  {
    hide PutStatus, SeparateQueues, HonestPool;
    var (s1, now) := Turn(s, p, i, grants(i));
    var later := Turns(s1, p, i + 1, grants).1;
    TurnFacts(s, p, i, grants(i));
    HonestTurn(s, p, i, grants);
    assert Attempt(id, status) in now + later <==> Attempt(id, status) in now || Attempt(id, status) in later;
    if i < id {
      BroadcastExactly(s1, p, i + 1, grants, id, status);
      if Eligible(s.slots[id], s.heap[p]) {
        OtherQueue(s, p, i, grants(i), id);
      }
    } else {
      AttemptsInOrder(s1, p, i + 1, grants);
    }
  }

  lemma HonestTurn(s: Sys, p: Ptr, i: nat, grants: Grants)
    requires i < MAX_MSG_RECVS && HonestPool(s, grants, i)
    ensures HonestPool(Turn(s, p, i, grants(i)).0, grants, i + 1)
    ensures Granted(s, grants(i)) == grants(i)
  {
    hide Eligible, PutStatus;
  }

  lemma OtherQueue(s: Sys, p: Ptr, i: nat, grant: Option<Ptr>, id: nat)
    requires i < id < MAX_MSG_RECVS && SeparateQueues(s.slots) && s.slots[id].receiver.Some? && p in s.heap
    ensures PutStatus(Turn(s, p, i, grant).0, s.slots[id].receiver.value.queue, s.heap[p])
         == PutStatus(s, s.slots[id].receiver.value.queue, s.heap[p])
  {
  }

  /** A broadcast by the sys_msg.c functions: every queue gets its copies, the original is freed whatever
      the last answer was, and nothing else changes. */
  lemma WrappedBroadcast(w: World, t: Tid, p: Ptr, grants: Grants, q: QueueId)
    requires Owns(w) && p in Hand(w, t) && p in w.sys.heap
    ensures var attempts := Turns(w.sys, p, MSG_ID_APP_START, grants).1;
            var (s1, done) := Finish(w.sys, Broadcasting(p, MSG_ID_APP_START, Error, Wrapped), grants);
            && p !in s1.heap && done == Done(LastStatus(attempts), {}, 0)
            && Mail(s1, q) == Mail(w.sys, q) + CopiesFor(w.sys.slots, w.sys.heap[p], attempts, q)
            && |s1.heap| == |w.sys.heap| - 1 + Delivered(attempts)
  {
    hide Finish, Turns, Mail, Owns, Hand, CopiesFor, Delivered, LastStatus;
    BroadcastOutcome(w.sys, p, Wrapped, grants);
    var v := BroadcastMail(w, t, p, MSG_ID_APP_START, grants, q);
    FreeMail(v, t, p, q);
    FreeOne(v.sys.heap, p);
  }

  lemma FreeMail(w: World, t: Tid, p: Ptr, q: QueueId)
    requires Owns(w) && p in Hand(w, t)
    ensures Mail(w.sys.(heap := w.sys.heap - {p}), q) == Mail(w.sys, q)
  {
    ActMail(w, t, Free(p), q);
    hide Owns, Hand, Mail;
  }

  lemma FreeOne(heap: map<Ptr, Msg>, p: Ptr)
    requires p in heap
    ensures |heap - {p}| == |heap| - 1
  {
    assert (heap - {p}).Keys == heap.Keys - {p};
    assert |heap - {p}| == |(heap - {p}).Keys|;
  }

  lemma CreateSteps(s: Sys, c: Create, p: Ptr, grants: Grants)
    requires grants(0) == Some(p) && p !in s.heap
    ensures Finish(s, Creating(c), grants)
         == Finish(s.(heap := s.heap[p := c.msg]), Routing(p, c.route, Wrapped), grants)
  {
    hide Finish, Routing;
    var blank := Do(s, Alloc(p, Blank(|c.msg.body|)));
    FinishStep(s, Creating(c), grants);
    FinishStep(blank, Initialising(c, p), grants);
    assert blank.heap[p := c.msg] == s.heap[p := c.msg];
  }

  /** Whether a new message for rx is queued: a buffer was granted, rx is registered, its queue has room,
      and the code is valid */
  predicate WillQueue(s: Sys, rx: Byte, code: Byte, grant: Option<Ptr>) {
    && Granted(s, grant).Some? && rx < MAX_MSG_RECVS && s.slots[rx].inUse && s.slots[rx].receiver.Some?
    && PutStatus(s, s.slots[rx].receiver.value.queue, Msg(code, 0, 0, 0, [])) == Success
  }

  lemma CreateAndSendOutcome(s: Sys, c: Create, rx: Byte, grants: Grants)
    requires c.route == Direct(rx)
    ensures Finish(s, Creating(c), grants).0
         == (if WillQueue(s, rx, c.msg.code, grants(0))
             then Queued(s.(heap := s.heap[grants(0).value := c.msg.(rx := rx)]), grants(0).value,
                         s.slots[rx].receiver.value.queue.value)
             else s)
  {
    hide Finish;
    match Granted(s, grants(0))
    case None =>
      FinishStep(s, Creating(c), grants);
      FinishDone(s, Done(Error, {}, 0), grants);
    case Some(p) =>
      CreateSteps(s, c, p, grants);
      var s1 := s.(heap := s.heap[p := c.msg]);
      SendOutcome(s1, rx, p, Wrapped, grants);
      assert s1.heap - {p} == s.heap;
      if rx < MAX_MSG_RECVS && s.slots[rx].inUse && s.slots[rx].receiver.Some? {
        var s2 := Readdressed(s1, p, rx);
        PuttingOutcome(s2, p, s.slots[rx].receiver.value.queue, Wrapped, grants);
        assert s2.heap == s.heap[p := c.msg.(rx := rx)];
        assert s2.heap - {p} == s.heap;
      }
  }

  /** A create-and-send puts the message, with its contents of that moment, into one mailbox or changes
      nothing: a failed one leaves no buffer behind. */
  lemma CreateAndSendMail(w: World, t: Tid, c: Create, rx: Byte, grants: Grants, q: QueueId)
    requires Owns(w) && c.route == Direct(rx)
    ensures var s1, sent := Finish(w.sys, Creating(c), grants).0, WillQueue(w.sys, rx, c.msg.code, grants(0));
            && Mail(s1, q) == Mail(w.sys, q)
                              + (if sent && w.sys.slots[rx].receiver.value.queue == Some(q)
                                 then [c.msg.(rx := rx)] else [])
            && |s1.heap| == |w.sys.heap| + if sent then 1 else 0
  {
    CreateAndSendOutcome(w.sys, c, rx, grants);
    hide Finish, Owns, Mail, Hand;
    if WillQueue(w.sys, rx, c.msg.code, grants(0)) {
      var p, queue := grants(0).value, w.sys.slots[rx].receiver.value.queue.value;
      var fill, put := Alloc(p, c.msg.(rx := rx)), Put(p, queue);
      var u := Act(w, t, fill);
      ActOwns(w, t, fill);
      ActMail(w, t, fill, q);
      ActHands(w, t, fill, t);
      ActMail(u, t, put, q);
    }
  }

  /** sysmsg_create_and_broadcast: the live buffers grow by exactly the copies delivered. */
  lemma CreateAndBroadcast(w: World, t: Tid, tx: Byte, code: Byte, grants: Grants, q: QueueId)
    requires Owns(w)
    ensures var m := BroadcastCreate(tx, code).msg;
            var (s1, done) := Finish(w.sys, Creating(BroadcastCreate(tx, code)), grants);
            match Granted(w.sys, grants(0))
            case None => s1 == w.sys && done == Done(Error, {}, 0)
            case Some(p) =>
              var attempts := Turns(w.sys.(heap := w.sys.heap[p := m]), p, MSG_ID_APP_START, grants).1;
              && p !in s1.heap && done == Done(LastStatus(attempts), {}, 0)
              && Mail(s1, q) == Mail(w.sys, q) + CopiesFor(w.sys.slots, m, attempts, q)
              && |s1.heap| == |w.sys.heap| + Delivered(attempts)
  {
    hide Finish, Turns, Mail, Owns, Hand, CopiesFor, Delivered, LastStatus;
    var c := BroadcastCreate(tx, code);
    match Granted(w.sys, grants(0))
    case None =>
      FinishStep(w.sys, Creating(c), grants);
      FinishDone(w.sys, Done(Error, {}, 0), grants);
    case Some(p) =>
      CreateSteps(w.sys, c, p, grants);
      var alloc := Alloc(p, c.msg);
      ActOwns(w, t, alloc);
      ActMail(w, t, alloc, q);
      ActHands(w, t, alloc, t);
      WrappedBroadcast(Act(w, t, alloc), t, p, grants, q);
  }

  /** The result of a broadcast is the answer for the attempted receiver of the greatest id alone. */
  lemma BroadcastStatus(s: Sys, p: Ptr, grants: Grants, hi: nat)
    requires p in s.heap && HonestPool(s, grants, MSG_ID_APP_START) && SeparateQueues(s.slots)
    requires MSG_ID_APP_START <= hi < MAX_MSG_RECVS && Eligible(s.slots[hi], s.heap[p]) && grants(hi).Some?
    requires forall j :: hi < j < MAX_MSG_RECVS ==> !(Eligible(s.slots[j], s.heap[p]) && grants(j).Some?)
    ensures LastStatus(Turns(s, p, MSG_ID_APP_START, grants).1)
         == PutStatus(s, s.slots[hi].receiver.value.queue, s.heap[p])
  {
    hide Turns, PutStatus, SeparateQueues, HonestPool;
    var attempts := Turns(s, p, MSG_ID_APP_START, grants).1;
    var status := PutStatus(s, s.slots[hi].receiver.value.queue, s.heap[p]);
    BroadcastExactly(s, p, MSG_ID_APP_START, grants, hi, status);
    AttemptsInOrder(s, p, MSG_ID_APP_START, grants);
    var last := attempts[|attempts| - 1];
    BroadcastExactly(s, p, MSG_ID_APP_START, grants, last.id, last.status);
    var k :| 0 <= k < |attempts| && attempts[k] == Attempt(hi, status);
    hide Eligible;
    assert k == |attempts| - 1;
  }

  // ----- freeing on failure -----

  function Wrap(call: Call): Call {
    match call
    case Sending(rx, p, _) => Sending(rx, p, Wrapped)
    case Unicasting(p, i, _) => Unicasting(p, i, Wrapped)
    case Putting(p, queue, _) => Putting(p, queue, Wrapped)
    case Failed(p, status, _) => Failed(p, status, Wrapped)
    case Broadcasting(p, i, last, _) => Broadcasting(p, i, last, Wrapped)
    case Copying(p, i, copy, r, _) => Copying(p, i, copy, r, Wrapped)
    case PuttingCopy(p, i, copy, r, _) => PuttingCopy(p, i, copy, r, Wrapped)
    case FreeingCopy(p, i, copy, last, _) => FreeingCopy(p, i, copy, last, Wrapped)
    case Routed(p, last, _) => Routed(p, last, Wrapped)
    case _ => call
  }

  /** The calls on a message that their caller made */
  predicate OnMessage(call: Call) {
    !call.Creating? && !call.Initialising? && !call.Flushing? && !call.FlushFreeing?
  }

  lemma WrapStep(s: Sys, call: Call, grant: Option<Ptr>)
    requires OnMessage(call) && !call.Done? && !call.Failed? && call.mode == Raw
    ensures var (a, next) := CallStep(s, call, grant);
            && CallStep(s, Wrap(call), grant) == (a, Wrap(next)) && OnMessage(next)
            && (next.Done? ==> next.back == {} && next.status == Success)
            && (!next.Done? ==> next.mode == Raw && next.p == call.p)
            && (next.Failed? ==> next.status != Success)
  {
  }

  /** deallocate_on_error: the sys_msg.c functions do what the sys_core.c function does, and free the
      message exactly when that handed it back. */
  lemma {:induction false} WrappedOutcome(s: Sys, call: Call, grants: Grants)
    requires OnMessage(call) && InRange(call) && !call.Done? && call.mode == Raw
    requires call.Failed? ==> call.status != Success
    ensures var (s1, done) := Finish(s, call, grants);
            && done.back == (if done.status == Success then {} else {call.p})
            && Finish(s, Wrap(call), grants)
            == (if done.status == Success then s1 else s1.(heap := s1.heap - {call.p}),
                Done(done.status, {}, done.purged))
    decreases Rank(s, call)
  {
    hide Finish, Do;
    FinishStep(s, call, grants);
    FinishStep(s, Wrap(call), grants);
    StepRank(s, call, GrantFor(call, grants));
    hide Rank;
    if call.Failed? {
      FailedOutcome(s, call.p, call.status, Raw, grants);
      FailedOutcome(s, call.p, call.status, Wrapped, grants);
    } else {
      var (a, next) := CallStep(s, call, GrantFor(call, grants));
      WrapStep(s, call, GrantFor(call, grants));
      hide CallStep;
      if next.Done? {
        FinishDone(Do(s, a), next, grants);
      } else {
        WrappedOutcome(Do(s, a), next, grants);
      }
    }
  }
}
