/** Any number of threads and interrupt handlers, interleaved access by access, that use the calls of the
    message framework and the receive loop (lib/framework/sys_core.c, lines 240 to 270). */
module Threads {
  import opened Messages
  import opened Calls
  import opened Ownership
  import opened Mailboxes

  /** Where msg_receiver stands: not in it, before the dispatcher, in the handler, before reading the
      options, before freeing. */
  datatype Frame =
    | NoFrame
    | Received(p: Ptr, r: Receiver)
    | Handling(p: Ptr)
    | Returned(p: Ptr, res: DispatchResult)
    | Disposing(p: Ptr, res: DispatchResult)

  /** held: the buffers that the thread's own code, handlers included, may use */
  datatype Thread = Thread(held: set<Ptr>, frame: Frame, call: Call)

  /** freed: the threads in msg_receiver whose message was freed since they took it out of its queue. Its
      address may have been granted again by then. faults counts the accesses of the framework to dead
      buffers; stale counts, apart from them, the reads of the options of a message that was freed. */
  datatype State = State(sys: Sys, threads: map<Tid, Thread>, freed: set<Tid>, faults: nat, stale: nat)

  const IDLE: Call := Done(Success, {}, 0)

  /** What a thread does next: go on inside the framework, or one step of its own code */
  datatype Choice =
    | Continue(grant: Option<Ptr>)
    | Send(p: Ptr, mode: Mode)                    // sysmsg_send, sysmsg_try_to_send
    | SendTo(p: Ptr, rx: Byte, mode: Mode)        // msg_send, sysmsg_sendto
    | UnicastMsg(p: Ptr, mode: Mode)              // msg_unicast, sysmsg_unicast
    | BroadcastMsg(p: Ptr, mode: Mode)            // msg_broadcast
    | Targeted(p: Ptr, target: Option<Byte>)      // sysmsg_filtered_targeted_send
    | Reply(p: Ptr, code: Byte)                   // sysmsg_reply
    | Make(c: Create)                             // sysmsg_*create*, the timer interrupt
    | Flush(rx: Byte)                             // msg_flush
    | Take(p: Ptr, bodySize: nat)                 // buffer_pool_take
    | Edit(p: Ptr, msg: Msg)
    | Release(p: Ptr)                             // buffer_pool_free
    | Receive(r: Receiver)                        // msg_receiver
    | Return(res: DispatchResult)                 // from a handler
    | Enlist(rxer: Option<Receiver>)              // msg_register_receiver

  function FrameOwned(f: Frame): set<Ptr> {
    match f
    case Received(p, _) => {p}
    case Returned(p, res) => if res == DISPATCH_DO_NOT_FREE then {} else {p}
    case Disposing(p, res) => if res == DISPATCH_DO_NOT_FREE then {} else {p}
    case _ => {}
  }

  function HandOf(th: Thread): set<Ptr> {
    th.held + Owned(th.call) + FrameOwned(th.frame)
  }

  predicate ThreadOk(th: Thread) {
    && th.held !! Owned(th.call)
    && th.held !! FrameOwned(th.frame)
    && Owned(th.call) !! FrameOwned(th.frame)
    && CallOk(th.call)
    && (th.call.Done? ==> th.call.back == {})
  }

  /** A finished call hands back what the caller keeps. */
  function Settle(th: Thread, call: Call): Thread {
    if call.Done? then th.(held := th.held + call.back, call := Done(call.status, {}, call.purged))
    else th.(call := call)
  }

  function Begin(th: Thread, p: Ptr, call: Call): Thread {
    th.(held := th.held - {p}, call := call)
  }

  /** Inside the framework */
  function NextInside(s: Sys, th: Thread, grant: Option<Ptr>): (Action, Thread) {
    if !th.call.Done? then
      var (a, call) := CallStep(s, th.call, grant);
      (a, Settle(th, call))
    else
      match th.frame
      case NoFrame => (Nothing, th)
      case Handling(_) => (Nothing, th)
      case Received(p, r) =>
        if r.handles.Some? && Deref(s.heap, p).code in r.handles.value
        then (Nothing, th.(frame := Handling(p), held := th.held + {p}))
        else (Nothing, th.(frame := Disposing(p, DISPATCH_ERROR)))
      case Returned(p, res) => (Nothing, th.(frame := Disposing(p, res)))
      case Disposing(p, res) =>
        (if res == DISPATCH_DO_NOT_FREE then Nothing else Free(p), th.(frame := NoFrame))
  }

  predicate InOwnCode(th: Thread) {
    th.call.Done? && (th.frame.NoFrame? || th.frame.Handling?)
  }

  /** The contract of the framework's users: they pass on only what they hold, and a handler that lets
      its message be freed still holds it. */
  predicate MayDo(s: Sys, th: Thread, c: Choice) {
    match c
    case Continue(_) => true
    case Make(_) => InOwnCode(th)
    case Flush(_) => InOwnCode(th)
    case Enlist(_) => InOwnCode(th)
    case Take(p, _) => InOwnCode(th) && p !in s.heap
    case Edit(p, m) => InOwnCode(th) && p in th.held && |m.body| == |Deref(s.heap, p).body|
    case Receive(r) => InOwnCode(th) && th.frame.NoFrame?
    case Return(res) => InOwnCode(th) && th.frame.Handling? && (res == DISPATCH_DO_NOT_FREE || th.frame.p in th.held)
    case _ => InOwnCode(th) && c.p in th.held
  }

  /** The next access of a thread, and the thread after it */
  function Next(s: Sys, th: Thread, c: Choice): (Action, Thread)
    requires MayDo(s, th, c)
  {
    match c
    case Continue(grant) => NextInside(s, th, grant)
    case Send(p, mode) => (Nothing, Begin(th, p, Sending(Deref(s.heap, p).rx, p, mode)))
    case SendTo(p, rx, mode) =>
      (if mode == Wrapped then Write(p, Deref(s.heap, p).(rx := rx)) else Nothing, Begin(th, p, Sending(rx, p, mode)))
    case UnicastMsg(p, mode) => (Nothing, Begin(th, p, Unicasting(p, MSG_ID_APP_START, mode)))
    case BroadcastMsg(p, mode) => (Nothing, Begin(th, p, Broadcasting(p, MSG_ID_APP_START, Error, mode)))
    case Targeted(p, target) =>
      (match target
       case None => (Write(p, Deref(s.heap, p).(rx := MSG_ID_RESERVED)),
                     Begin(th, p, Broadcasting(p, MSG_ID_APP_START, Error, Wrapped)))
       case Some(id) => (Write(p, Deref(s.heap, p).(rx := id)), Begin(th, p, Sending(id, p, Wrapped))))
    case Reply(p, code) =>
      var m := Deref(s.heap, p);
      (Write(p, ReplyTo(m, code)), Begin(th, p, Sending(m.tx, p, Wrapped)))
    case Make(create) => (Nothing, th.(call := Creating(create)))
    case Flush(rx) => (Nothing, th.(call := FlushCall(s, rx)))
    case Take(p, size) => (Alloc(p, Blank(size)), th.(held := th.held + {p}))
    case Edit(p, m) => (Write(p, m), th)
    case Release(p) => (Free(p), th.(held := th.held - {p}))
    case Receive(r) =>
      if r.queue.Some? && Items(s, r.queue.value) != []
      then (Get(r.queue.value), th.(frame := Received(Items(s, r.queue.value)[0], r)))
      else (Nothing, th)
    case Return(res) =>
      (Nothing, th.(frame := Returned(th.frame.p, res),
                    held := if res == DISPATCH_DO_NOT_FREE then th.held else th.held - {th.frame.p}))
    case Enlist(r) => (Enrol(r), th)
  }

  /** The buffers that the next step reads; the options of a message are read only after its handler. */
  function ReadsOf(th: Thread, c: Choice): set<Ptr> {
    if !c.Continue? then {}
    else if !th.call.Done? then Reads(th.call)
    else if th.frame.Received? then {th.frame.p}
    else {}
  }

  predicate IsFault(s: Sys, a: Action, read: set<Ptr>) {
    !(read <= s.heap.Keys) || ((a.Write? || a.Free? || a.Put?) && a.p !in s.heap)
  }

  /** msg_receiver reads the options of a message, and it is not the buffer that was received. */
  predicate IsStale(s: State, t: Tid, c: Choice) {
    && t in s.threads && c.Continue? && s.threads[t].call.Done? && s.threads[t].frame.Returned?
    && t in s.freed
  }

  predicate FrameOf(th: Thread, p: Ptr) {
    !th.frame.NoFrame? && th.frame.p == p
  }

  /** Whose message was freed, after thread t has done a. A thread that receives begins anew. */
  function FreedAfter(freed: set<Tid>, threads: map<Tid, Thread>, t: Tid, c: Choice, a: Action): set<Tid> {
    (if c.Receive? then freed - {t} else freed)
    + (if a.Free? then set u | u in threads && FrameOf(threads[u], a.p) else {})
  }

  predicate Happens(s: State, t: Tid, c: Choice) {
    t in s.threads && MayDo(s.sys, s.threads[t], c)
  }

  function Step(s: State, t: Tid, c: Choice): State {
    if !Happens(s, t, c) then s
    else
      var th := s.threads[t];
      var (a, next) := Next(s.sys, th, c);
      State(Do(s.sys, a), s.threads[t := next], FreedAfter(s.freed, s.threads[t := next], t, c, a),
            s.faults + if IsFault(s.sys, a, ReadsOf(th, c)) then 1 else 0,
            s.stale + if IsStale(s, t, c) then 1 else 0)
  }

  type Schedule = seq<(Tid, Choice)>

  function Run(s: State, schedule: Schedule): State
    decreases |schedule|
  {
    if schedule == [] then s
    else
      var n := |schedule| - 1;
      Step(Run(s, schedule[..n]), schedule[n].0, schedule[n].1)
  }

  /** The access that a step performs */
  function AccessOf(s: State, t: Tid, c: Choice): Trace {
    if Happens(s, t, c) then [(t, Next(s.sys, s.threads[t], c).0)] else []
  }

  function TraceOf(s: State, schedule: Schedule): Trace
    decreases |schedule|
  {
    if schedule == [] then []
    else
      var n := |schedule| - 1;
      TraceOf(s, schedule[..n]) + AccessOf(Run(s, schedule[..n]), schedule[n].0, schedule[n].1)
  }

  // ----- the threads play by the rule -----

  function WorldOf(s: State): World {
    World(s.sys, map t | t in s.threads :: HandOf(s.threads[t]))
  }

  ghost predicate Good(s: State) {
    Owns(WorldOf(s)) && forall t :: t in s.threads ==> ThreadOk(s.threads[t])
  }

  lemma ThreadHand(s: State, t: Tid)
    requires Good(s) && t in s.threads
    ensures Hand(WorldOf(s), t) == HandOf(s.threads[t]) <= s.sys.heap.Keys
  {
    forall p | p in Hand(WorldOf(s), t) ensures p in s.sys.heap {
      OwnsMeans(WorldOf(s), p, t, t, 0, 0);
    }
  }

  lemma HeadNotInHand(s: State, t: Tid, q: QueueId)
    requires Good(s) && t in s.threads && Items(s.sys, q) != []
    ensures Items(s.sys, q)[0] !in HandOf(s.threads[t])
  {
    ThreadHand(s, t);
    OwnsMeans(WorldOf(s), Items(s.sys, q)[0], t, t, q, q);
  }

  /** A thread inside a call */
  lemma CallingLegal(s: Sys, th: Thread, grant: Option<Ptr>)
    requires ThreadOk(th) && HandOf(th) <= s.heap.Keys && !th.call.Done?
    requires forall q :: Items(s, q) != [] ==> Items(s, q)[0] !in HandOf(th)
    ensures var (a, next) := NextInside(s, th, grant);
            Legal(s, HandOf(th), a) && ThreadOk(next) && HandOf(next) == HandAfter(s, HandOf(th), a)
    ensures Reads(th.call) <= HandOf(th)
  {
    var (a, call) := CallStep(s, th.call, grant);
    CallStepLegal(s, th.call, grant);
    LegalMonotone(s, Owned(th.call), HandOf(th), a);
    hide CallStep, CallOk, Reads;
    if a.Get? {
      assert Items(s, a.q)[0] !in HandOf(th);
    }
    SettleHand(th, call);
    hide Owned, FrameOwned, Settle;
    match a
    case Nothing =>
    case Enrol(_) =>
    case Alloc(p, _) =>
    case Write(p, _) =>
    case Free(p) =>
    case Put(p, _) =>
    case Get(q) =>
  }

  lemma SettleHand(th: Thread, call: Call)
    requires th.held !! Owned(call) && Owned(call) !! FrameOwned(th.frame) && th.held !! FrameOwned(th.frame)
    requires CallOk(call)
    ensures ThreadOk(Settle(th, call)) && HandOf(Settle(th, call)) == th.held + Owned(call) + FrameOwned(th.frame)
  {
  }

  /** A thread between the calls: in msg_receiver, or in its own code */
  lemma OtherStepLegal(s: Sys, th: Thread, c: Choice)
    requires ThreadOk(th) && HandOf(th) <= s.heap.Keys && MayDo(s, th, c) && (c.Continue? ==> th.call.Done?)
    requires forall q :: Items(s, q) != [] ==> Items(s, q)[0] !in HandOf(th)
    ensures var (a, next) := Next(s, th, c);
            Legal(s, HandOf(th), a) && ThreadOk(next) && HandOf(next) == HandAfter(s, HandOf(th), a)
    ensures ReadsOf(th, c) <= HandOf(th)
  {
    var (a, next) := Next(s, th, c);
    if c.Receive? && a.Get? {
      assert Items(s, a.q)[0] !in HandOf(th);
    }
    match c
    case Continue(_) =>
    case Receive(_) =>
    case Return(_) =>
    case _ =>
  }

  lemma NextLegal(s: State, t: Tid, c: Choice)
    requires Good(s) && t in s.threads && MayDo(s.sys, s.threads[t], c)
    ensures var th := s.threads[t];
            var (a, next) := Next(s.sys, th, c);
            Legal(s.sys, HandOf(th), a) && ThreadOk(next) && HandOf(next) == HandAfter(s.sys, HandOf(th), a)
            && ReadsOf(th, c) <= HandOf(th) <= s.sys.heap.Keys
  {
    ThreadHand(s, t);
    forall q | Items(s.sys, q) != [] ensures Items(s.sys, q)[0] !in HandOf(s.threads[t]) {
      HeadNotInHand(s, t, q);
    }
    var th := s.threads[t];
    hide CallStep, HandOf, ThreadOk, Legal, HandAfter, Items, Settle, MayDo;
    if c.Continue? && !th.call.Done? {
      CallingLegal(s.sys, th, c.grant);
    } else {
      OtherStepLegal(s.sys, th, c);
    }
  }

  lemma NoFault(s: State, t: Tid, c: Choice)
    requires Good(s) && Happens(s, t, c)
    ensures !IsFault(s.sys, Next(s.sys, s.threads[t], c).0, ReadsOf(s.threads[t], c))
  {
    NextLegal(s, t, c);
    hide Good, Next, MayDo, HandOf, ReadsOf, HandAfter;
  }

  lemma StepWorld(s: State, t: Tid, c: Choice, hand: set<Ptr>)
    requires Happens(s, t, c) && Hand(WorldOf(s), t) == hand
    requires HandOf(Next(s.sys, s.threads[t], c).1) == HandAfter(s.sys, hand, Next(s.sys, s.threads[t], c).0)
    ensures WorldOf(Step(s, t, c)) == Act(WorldOf(s), t, Next(s.sys, s.threads[t], c).0)
  {
    hide Next, HandOf, MayDo, HandAfter, Hand, Do, IsFault, IsStale, ReadsOf, FreedAfter;
    assert WorldOf(Step(s, t, c)).hands == WorldOf(s).hands[t := HandOf(Next(s.sys, s.threads[t], c).1)];
  }

  /** Each step of a thread is an access by the rule of ownership, and no fault. */
  lemma StepGood(s: State, t: Tid, c: Choice)
    requires Good(s) && Happens(s, t, c)
    ensures Good(Step(s, t, c)) && Step(s, t, c).faults == s.faults
    ensures var a := Next(s.sys, s.threads[t], c).0;
            Legal(WorldOf(s).sys, Hand(WorldOf(s), t), a) && WorldOf(Step(s, t, c)) == Act(WorldOf(s), t, a)
  {
    NextLegal(s, t, c);
    NoFault(s, t, c);
    ThreadHand(s, t);
    var (a, next) := Next(s.sys, s.threads[t], c);
    hide Next, HandOf, ThreadOk, MayDo, Owns, HandAfter, ReadsOf, Do, Act, Hand, IsFault, IsStale, Legal, FreedAfter;
    assert WorldOf(s).sys == s.sys;
    StepWorld(s, t, c, HandOf(s.threads[t]));
    ActOwns(WorldOf(s), t, a);
  }

  /** For every schedule of any number of threads and interrupts: no access to a dead buffer, the live
      buffers are exactly those queued and those in hand, and the run is one of accesses by the rule. */
  lemma {:induction false} RunGood(s: State, schedule: Schedule)
    requires Good(s)
    ensures Good(Run(s, schedule)) && Run(s, schedule).faults == s.faults
    ensures AllLegal(WorldOf(s), TraceOf(s, schedule))
    ensures ActAll(WorldOf(s), TraceOf(s, schedule)) == WorldOf(Run(s, schedule))
    decreases |schedule|
  {
    hide Good, Step, WorldOf, Act, Legal, Next, Hand, MayDo, ActAll, AllLegal;
    if schedule == [] {
      NoTrace(WorldOf(s));
    } else {
      var n := |schedule| - 1;
      var before, t, c := Run(s, schedule[..n]), schedule[n].0, schedule[n].1;
      RunGood(s, schedule[..n]);
      var trace, access := TraceOf(s, schedule[..n]), AccessOf(before, t, c);
      if Happens(before, t, c) {
        StepGood(before, t, c);
        TraceAppend(WorldOf(s), trace, t, Next(before.sys, before.threads[t], c).0);
      } else {
        NoStep(before, t, c);
        assert access == [];
        assert trace + access == trace;
      }
    }
  }

  lemma NoTrace(w: World)
    ensures AllLegal(w, []) && ActAll(w, []) == w
  {
  }

  lemma TraceAppend(w: World, trace: Trace, t: Tid, a: Action)
    requires AllLegal(w, trace) && Legal(ActAll(w, trace).sys, Hand(ActAll(w, trace), t), a)
    ensures AllLegal(w, trace + [(t, a)])
    ensures ActAll(w, trace + [(t, a)]) == Act(ActAll(w, trace), t, a)
  {
    hide Legal, Act, Hand;
    assert (trace + [(t, a)])[..|trace|] == trace;
  }

  lemma NoStep(s: State, t: Tid, c: Choice)
    requires !Happens(s, t, c)
    ensures Step(s, t, c) == s
  {
  }

  /** At the start nothing is allocated and every thread is in its own code. */
  ghost predicate Start(s: State) {
    && s.sys.heap == map[] && s.freed == {} && s.faults == 0
    && (forall q :: q in s.sys.queues ==> s.sys.queues[q].items == [])
    && (forall t :: t in s.threads ==> s.threads[t] == Thread({}, NoFrame, IDLE))
  }

  lemma StartGood(s: State)
    requires Start(s)
    ensures Good(s)
  {
    assert Assigns(WorldOf(s), map[]);
  }

  /** Ownership over every run */
  lemma OwnershipHolds(s: State, schedule: Schedule, p: Ptr, t: Tid, u: Tid, q: QueueId, r: QueueId)
    requires Start(s)
    ensures var w := WorldOf(Run(s, schedule));
            && Run(s, schedule).faults == 0
            && (p in w.sys.heap <==> (exists t' :: p in Hand(w, t')) || (exists q' :: p in Items(w.sys, q')))
            && (p in Hand(w, t) && p in Hand(w, u) ==> t == u)
            && (p in Items(w.sys, q) && p in Items(w.sys, r) ==> q == r)
            && (p in Hand(w, t) ==> p !in Items(w.sys, q))
            && NoDuplicates(Items(w.sys, q))
  {
    hide Run, WorldOf, Hand, Items, NoDuplicates;
    StartGood(s);
    RunGood(s, schedule);
    OwnsMeans(WorldOf(Run(s, schedule)), p, t, u, q, r);
  }

  /** Delivery over every run: what was taken from a queue, followed by what waits in it, is what was
      accepted for it: in order, with the contents of the time of sending. No queue is ever overfull. */
  lemma DeliveryHolds(s: State, schedule: Schedule, q: QueueId)
    requires Start(s)
    ensures var w, trace := WorldOf(s), TraceOf(s, schedule);
            Taken(w, trace, q) + Mail(Run(s, schedule).sys, q) == Accepted(w, trace, q)
    ensures Bounded(Run(s, schedule).sys)
  {
    hide Run, Taken, Accepted, TraceOf, Good, AllLegal, ActAll;
    StartGood(s);
    RunGood(s, schedule);
    AllBounded(WorldOf(s), TraceOf(s, schedule));
    DeliveredAsSent(WorldOf(s), TraceOf(s, schedule), q);
    assert Mail(s.sys, q) == [];
  }
}
