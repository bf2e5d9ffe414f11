/** What the result of a broadcast says about its receivers (lib/framework/sys_core.c, lines 113 to 179). */
module Broadcasts {
  import opened Messages
  import opened Calls
  import opened Ownership
  import opened Mailboxes
  import opened Outcomes
  import opened Threads
  import opened Runs

  /** Slot id belongs to a receiver that should get message p. */
  ghost predicate Wants(s: Sys, p: Ptr, id: nat)
    requires p in s.heap
  {
    MSG_ID_APP_START <= id < MAX_MSG_RECVS && Eligible(s.slots[id], s.heap[p])
  }

  /** At the start: the pool has a buffer for its copy. */
  ghost predicate Tried(s: Sys, p: Ptr, grants: Grants, id: nat)
    requires p in s.heap
  {
    Wants(s, p, id) && grants(id).Some?
  }

  /** At the start: and its queue has room. */
  ghost predicate Ready(s: Sys, p: Ptr, grants: Grants, id: nat)
    requires p in s.heap
  {
    Tried(s, p, grants, id) && PutStatus(s, s.slots[id].receiver.value.queue, s.heap[p]) == Success
  }

  /** In the end: it got its copy. */
  ghost predicate Served(attempts: seq<Attempt>, id: nat) {
    Attempt(id, Success) in attempts
  }

  ghost predicate Separated(s: Sys, grants: Grants) {
    HonestPool(s, grants, MSG_ID_APP_START) && SeparateQueues(s.slots)
  }

  function AttemptsOf(s: Sys, p: Ptr, grants: Grants): seq<Attempt> {
    Turns(s, p, MSG_ID_APP_START, grants).1
  }

  lemma ServedIffReady(s: Sys, p: Ptr, grants: Grants, id: nat)
    requires p in s.heap && Separated(s, grants)
    ensures Served(AttemptsOf(s, p, grants), id) <==> Ready(s, p, grants, id)
  {
    hide Turns, PutStatus, HonestPool, SeparateQueues, Eligible;
    if MSG_ID_APP_START <= id < MAX_MSG_RECVS {
      BroadcastExactly(s, p, MSG_ID_APP_START, grants, id, Success);
    } else {
      AttemptsInOrder(s, p, MSG_ID_APP_START, grants);
    }
  }

  /** The receiver that is tried last */
  ghost predicate LastTried(s: Sys, p: Ptr, grants: Grants, hi: nat)
    requires p in s.heap
  {
    Tried(s, p, grants, hi) && forall j :: hi < j ==> !Tried(s, p, grants, j)
  }

  lemma {:induction false} SomeLastTried(s: Sys, p: Ptr, grants: Grants, id: nat, n: nat) returns (hi: nat)
    requires p in s.heap && Tried(s, p, grants, id) && n <= MAX_MSG_RECVS
    requires forall j :: n <= j ==> !Tried(s, p, grants, j)
    ensures LastTried(s, p, grants, hi)
    decreases n
  {
    hide Tried;
    if n > 0 && !Tried(s, p, grants, n - 1) {
      hi := SomeLastTried(s, p, grants, id, n - 1);
    } else {
      hi := n - 1;
    }
  }

  lemma StatusOfLast(s: Sys, p: Ptr, grants: Grants, hi: nat)
    requires p in s.heap && Separated(s, grants) && LastTried(s, p, grants, hi)
    ensures LastStatus(AttemptsOf(s, p, grants)) == Success <==> Ready(s, p, grants, hi)
  {
    hide Turns, PutStatus, HonestPool, SeparateQueues, Eligible, LastStatus;
    forall j | hi < j < MAX_MSG_RECVS ensures !(Eligible(s.slots[j], s.heap[p]) && grants(j).Some?) {
      assert !Tried(s, p, grants, j);
    }
    BroadcastStatus(s, p, grants, hi);
  }

  lemma NobodyTried(s: Sys, p: Ptr, grants: Grants)
    requires p in s.heap && Separated(s, grants) && forall id :: !Tried(s, p, grants, id)
    ensures LastStatus(AttemptsOf(s, p, grants)) == Error
  {
    hide Turns, PutStatus, HonestPool, SeparateQueues, Eligible;
    var attempts := AttemptsOf(s, p, grants);
    AttemptsInOrder(s, p, MSG_ID_APP_START, grants);
    if attempts != [] {
      var last := attempts[|attempts| - 1];
      assert !Tried(s, p, grants, last.id) && last in attempts;
      BroadcastExactly(s, p, MSG_ID_APP_START, grants, last.id, last.status);
    }
  }

  /** A broadcast succeeds exactly if the receiver that is tried last is ready. */
  lemma SuccessIff(s: Sys, p: Ptr, grants: Grants)
    requires p in s.heap && Separated(s, grants)
    ensures LastStatus(AttemptsOf(s, p, grants)) == Success
       <==> exists hi :: LastTried(s, p, grants, hi) && Ready(s, p, grants, hi)
  {
    hide Turns, PutStatus, HonestPool, SeparateQueues, Eligible, LastStatus, Tried, Ready;
    if id :| Tried(s, p, grants, id) {
      TriedIsBelow(s, p, grants);
      var hi := SomeLastTried(s, p, grants, id, MAX_MSG_RECVS);
      StatusOfLast(s, p, grants, hi);
      forall h | LastTried(s, p, grants, h) ensures h == hi {
        OneLastTried(s, p, grants, h, hi);
      }
    } else {
      NobodyTried(s, p, grants);
    }
  }

  lemma OneLastTried(s: Sys, p: Ptr, grants: Grants, h: nat, hi: nat)
    requires p in s.heap && LastTried(s, p, grants, h) && LastTried(s, p, grants, hi)
    ensures h == hi
  {
    hide Tried;
  }

  lemma TriedIsBelow(s: Sys, p: Ptr, grants: Grants)
    requires p in s.heap
    ensures forall j :: MAX_MSG_RECVS <= j ==> !Tried(s, p, grants, j)
  {
  }

  /** All that want the message are served exactly if all of them are ready when the broadcast begins, ... */
  lemma AllRoutedIff(s: Sys, p: Ptr, grants: Grants)
    requires p in s.heap && Separated(s, grants)
    ensures (forall id :: Wants(s, p, id) ==> Served(AttemptsOf(s, p, grants), id))
       <==> (forall id :: Wants(s, p, id) ==> Ready(s, p, grants, id))
  {
    hide Wants, Served, Ready, Separated, AttemptsOf;
    forall id ensures Served(AttemptsOf(s, p, grants), id) <==> Ready(s, p, grants, id) {
      ServedIffReady(s, p, grants, id);
    }
  }

  /** ... and nobody exactly if nobody is. */
  lemma NoneRoutedIff(s: Sys, p: Ptr, grants: Grants)
    requires p in s.heap && Separated(s, grants)
    ensures (forall id :: !Served(AttemptsOf(s, p, grants), id)) <==> (forall id :: !Ready(s, p, grants, id))
  {
    hide Served, Ready, Separated, AttemptsOf;
    forall id ensures Served(AttemptsOf(s, p, grants), id) <==> Ready(s, p, grants, id) {
      ServedIffReady(s, p, grants, id);
    }
  }

  /** For which inputs "all messages were routed" (lib/framework/sys_core.c, line 170) is true of a success:
      exactly those in which all that want the message are ready as soon as the one tried last is. */
  lemma CommentHoldsIff(s: Sys, p: Ptr, grants: Grants)
    requires p in s.heap && Separated(s, grants)
    ensures (LastStatus(AttemptsOf(s, p, grants)) == Success ==>
               forall id :: Wants(s, p, id) ==> Served(AttemptsOf(s, p, grants), id))
       <==> (forall hi :: LastTried(s, p, grants, hi) && Ready(s, p, grants, hi) ==>
               forall id :: Wants(s, p, id) ==> Ready(s, p, grants, id))
  {
    hide Wants, Served, Ready, Separated, AttemptsOf, LastStatus, LastTried;
    SuccessIff(s, p, grants);
    AllRoutedIff(s, p, grants);
  }

  /** For which inputs a failure means that nobody was served: exactly those in which nobody is ready unless
      the one tried last is. */
  lemma FailureMeansNoneIff(s: Sys, p: Ptr, grants: Grants)
    requires p in s.heap && Separated(s, grants)
    ensures (LastStatus(AttemptsOf(s, p, grants)) != Success ==> forall id :: !Served(AttemptsOf(s, p, grants), id))
       <==> ((forall hi :: LastTried(s, p, grants, hi) ==> !Ready(s, p, grants, hi)) ==>
               forall id :: !Ready(s, p, grants, id))
  {
    hide Served, Ready, Separated, AttemptsOf, LastStatus, LastTried;
    SuccessIff(s, p, grants);
    NoneRoutedIff(s, p, grants);
  }

  // ----- partial broadcasts happen -----

  const DEPTH := 32
  const CODE: Byte := 5
  const SENDER: Byte := 9

  function Server(id: Byte): Receiver {
    Receiver(id, Some(id), Some({CODE}), None)
  }

  /** Two receivers for one code in slots 1 and 2, with queues of the depth that all queues of the node have */
  ghost predicate TwoServers(s: Sys) {
    && (forall i :: 0 <= i < MAX_MSG_RECVS ==>
          s.slots[i] == if i == 1 || i == 2 then Slot(true, Some(Server(i))) else Slot(false, None))
    && s.queues.Keys == {1, 2} && s.queues[1].depth == s.queues[2].depth == DEPTH
  }

  /** n messages wait for k, and there is nothing else. */
  ghost predicate Stocked(s: Sys, k: Byte, n: nat) {
    && TwoServers(s) && k in {1, 2}
    && (forall p: Ptr :: p in s.heap <==> p < n)
    && |Items(s, k)| == n && Items(s, 3 - k) == []
  }

  /** Thread t is in its own code then. */
  ghost predicate Filled(s: State, t: Tid, k: Byte, n: nat) {
    Stocked(s.sys, k, n) && t in s.threads && InOwnCode(s.threads[t])
  }

  lemma {:induction false} AloneIsRun(s: State, t: Tid, grants: Grants) returns (schedule: Schedule)
    requires t in s.threads && InRange(s.threads[t].call)
    ensures Alone(s, t, grants) == Run(s, schedule)
    decreases Rank(s.sys, s.threads[t].call)
  {
    var call := s.threads[t].call;
    hide CallStep, Step, Rank;
    if call.Done? {
      schedule := [];
    } else {
      var c := Continue(GrantFor(call, grants));
      StepInside(s, t, GrantFor(call, grants));
      StepRank(s.sys, call, GrantFor(call, grants));
      SettleKeeps(s.threads[t], CallStep(s.sys, call, GrantFor(call, grants)).1);
      var rest := AloneIsRun(Step(s, t, c), t, grants);
      schedule := [(t, c)] + rest;
      RunCons(s, t, c, rest);
    }
  }

  lemma StockedOneMore(s: Sys, k: Byte, n: nat, grants: Grants)
    requires Stocked(s, k, n) && n < DEPTH && grants(0) == Some(n)
    ensures Stocked(Finish(s, Creating(SendCreate(SENDER, k, CODE)), grants).0, k, n + 1)
  {
    CreateAndSendOutcome(s, SendCreate(SENDER, k, CODE), k, grants);
    var sys := Finish(s, Creating(SendCreate(SENDER, k, CODE)), grants).0;
    hide Finish;
    assert sys.queues[3 - k] == s.queues[3 - k];
  }

  /** Thread t sends one message to k. */
  lemma FillOne(s: State, t: Tid, k: Byte, n: nat) returns (schedule: Schedule)
    requires Filled(s, t, k, n) && n < DEPTH
    ensures Filled(Run(s, schedule), t, k, n + 1)
  {
    var c: Create := SendCreate(SENDER, k, CODE);
    var s1, grants: Grants := Step(s, t, Make(c)), (i: nat) => Some(n);
    MakeStep(s, t, c);
    StockedOneMore(s.sys, k, n, grants);
    hide Finish, Step, Run, Alone, Stocked;
    var rest := AloneIsRun(s1, t, grants);
    schedule := [(t, Make(c))] + rest;
    RunCons(s, t, Make(c), rest);
    AloneIsFinish(s1, t, grants);
  }

  lemma MakeStep(s: State, t: Tid, c: Create)
    requires t in s.threads && InOwnCode(s.threads[t])
    ensures var s1 := Step(s, t, Make(c));
            s1.sys == s.sys && s1.threads == s.threads[t := s.threads[t].(call := Creating(c))]
  {
  }

  lemma {:induction false} Fill(s: State, t: Tid, k: Byte, n: nat) returns (schedule: Schedule)
    requires Filled(s, t, k, 0) && n <= DEPTH
    ensures Filled(Run(s, schedule), t, k, n)
  {
    hide Filled;
    if n == 0 {
      schedule := [];
    } else {
      var first := Fill(s, t, k, n - 1);
      var last := FillOne(Run(s, first), t, k, n - 1);
      schedule := first + last;
      RunConcat(s, first, last);
    }
  }

  /** The addresses that the pool grants to the broadcast */
  const FRESH: Grants := (i: nat) => Some(100 + i)

  /** From power-up, any thread can fill the queue of either server with 32 messages, all live. A broadcast
      then succeeds though server 1 is missed, or fails though it is served. */
  lemma PartialBroadcast(s: State, t: Tid, k: Byte) returns (schedule: Schedule)
    requires Start(s) && TwoServers(s.sys) && t in s.threads && k in {1, 2}
    ensures var now := Run(s, schedule);
            var attempts := AttemptsOf(InTheAir(now.sys), 100, FRESH);
            && t in now.threads && InOwnCode(now.threads[t])
            && |Items(now.sys, k)| == DEPTH && (forall p :: p in Items(now.sys, k) ==> p in now.sys.heap)
            && Finish(now.sys, Creating(BroadcastCreate(SENDER, CODE)), FRESH).1.status == LastStatus(attempts)
            && (k == 1 ==> LastStatus(attempts) == Success && !Served(attempts, 1))
            && (k == 2 ==> LastStatus(attempts) != Success && Served(attempts, 1))
  {
    StartFilled(s, t, k);
    schedule := Fill(s, t, k, DEPTH);
    var now := Run(s, schedule);
    StartGood(s);
    RunGood(s, schedule);
    hide Run, Good, Start;
    forall p | p in Items(now.sys, k) ensures p in now.sys.heap {
      WaitingIsLive(now, k, p);
    }
    FullQueue(now, t, k);
    assert 100 !in now.sys.heap;
    BroadcastNow(now);
    hide Filled;
  }

  lemma StartFilled(s: State, t: Tid, k: Byte)
    requires Start(s) && TwoServers(s.sys) && t in s.threads && k in {1, 2}
    ensures Filled(s, t, k, 0)
  {
  }

  lemma WaitingIsLive(s: State, k: Byte, p: Ptr)
    requires Good(s) && p in Items(s.sys, k)
    ensures p in s.sys.heap
  {
    OwnsMeans(WorldOf(s), p, 0, 0, k, k);
    hide Items, Hand, Owns;
    assert WorldOf(s).sys == s.sys;
  }

  /** The system in which the broadcast goes round, with its original at 100 */
  function InTheAir(s: Sys): Sys {
    s.(heap := s.heap[100 := BroadcastCreate(SENDER, CODE).msg])
  }

  lemma FullQueue(s: State, t: Tid, k: Byte)
    requires Filled(s, t, k, DEPTH)
    ensures var attempts := AttemptsOf(InTheAir(s.sys), 100, FRESH);
            && (k == 1 ==> LastStatus(attempts) == Success && !Served(attempts, 1))
            && (k == 2 ==> LastStatus(attempts) != Success && Served(attempts, 1))
  {
    var sys := InTheAir(s.sys);
    FullServers(s, t, k);
    hide Filled, Ready, Served, Separated, AttemptsOf, LastTried, LastStatus;
    StatusOfLast(sys, 100, FRESH, 2);
    ServedIffReady(sys, 100, FRESH, 1);
  }

  /** Of the two servers the one with the full queue is not ready, and server 2 is tried last. */
  lemma FullServers(s: State, t: Tid, k: Byte)
    requires Filled(s, t, k, DEPTH)
    ensures var sys := InTheAir(s.sys);
            && Separated(sys, FRESH) && LastTried(sys, 100, FRESH, 2)
            && (Ready(sys, 100, FRESH, 1) <==> k == 2) && (Ready(sys, 100, FRESH, 2) <==> k == 1)
  {
    var sys := InTheAir(s.sys);
    forall j ensures Tried(sys, 100, FRESH, j) <==> j == 1 || j == 2 {
    }
  }

  /** What the thread is told */
  lemma BroadcastNow(s: State)
    requires Good(s) && 100 !in s.sys.heap
    ensures Finish(s.sys, Creating(BroadcastCreate(SENDER, CODE)), FRESH).1.status
         == LastStatus(AttemptsOf(InTheAir(s.sys), 100, FRESH))
  {
    var w := WorldOf(s);
    assert Granted(w.sys, FRESH(0)) == Some(100) && w.sys == s.sys;
    assert Owns(w);
    hide Finish, Turns, LastStatus, Good, Owns, Mail, CopiesFor, Delivered, WorldOf, Granted, BroadcastCreate;
    CreateAndBroadcast(w, 0, SENDER, CODE, FRESH, 1);
  }

  /** There is such a power-up. */
  lemma ServersStart() returns (s: State)
    ensures Start(s) && TwoServers(s.sys) && 0 in s.threads
  {
    var slots := RegisterAll(NO_RECEIVERS, [Some(Server(1)), Some(Server(2))]);
    var queues := map[1 := Queue(DEPTH, []), 2 := Queue(DEPTH, [])];
    forall i: nat | i < MAX_MSG_RECVS
      ensures slots[i] == if i == 1 || i == 2 then Slot(true, Some(Server(i))) else Slot(false, None)
    {
      FirstRegistrationWins([Some(Server(1)), Some(Server(2))], i);
      assert [Some(Server(1)), Some(Server(2))][1..] == [Some(Server(2))];
    }
    s := State(Sys(map[], queues, slots), map[0 := Thread({}, NoFrame, IDLE)], {}, 0, 0);
  }
}
