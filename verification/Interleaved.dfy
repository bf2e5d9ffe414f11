/** What a call does to queues and buffers while other threads and interrupts run between its steps. */
module Interleaved {
  import opened Messages
  import opened Calls
  import opened Ownership
  import opened Outcomes
  import opened Threads
  import opened Runs
  import opened Passing

  /** A message that a call puts into a queue. id and receiver tell for whom, for the copies of a broadcast. */
  datatype Posting = Posting(q: QueueId, msg: Msg, id: nat, receiver: Option<Receiver>)

  /** What a call has done so far: the messages queued, the answers of the queues, the buffers freed */
  datatype Deeds = Deeds(postings: seq<Posting>, answers: seq<Status>, frees: seq<Ptr>)

  const NOTHING: Deeds := Deeds([], [], [])

  function Both(d: Deeds, e: Deeds): Deeds {
    Deeds(d.postings + e.postings, d.answers + e.answers, d.frees + e.frees)
  }

  /** What the next access of a call puts into a queue */
  function PostingBy(s: Sys, call: Call, a: Action): seq<Posting> {
    if a.Put? then
      var copies := call.PuttingCopy?;
      [Posting(a.q, Deref(s.heap, a.p), if copies then call.i else 0, if copies then Some(call.r) else None)]
    else []
  }

  function DeedsBy(s: Sys, call: Call, a: Action): Deeds {
    Deeds(PostingBy(s, call, a),
          if call.Putting? then [PutStatus(s, call.queue, Deref(s.heap, call.p))]
          else if call.PuttingCopy? then [PutStatus(s, call.r.queue, Deref(s.heap, call.copy))]
          else [],
          if a.Free? then [a.p] else [])
  }

  /** What one step does for the call of thread t */
  function DeedsOf(s: State, t: Tid, u: Tid, c: Choice): Deeds {
    if u == t && t in s.threads && c.Continue? && !s.threads[t].call.Done?
    then DeedsBy(s.sys, s.threads[t].call, CallStep(s.sys, s.threads[t].call, c.grant).0)
    else NOTHING
  }

  /** What the call of thread t does during a schedule */
  function AllDeeds(s: State, t: Tid, work: Schedule): Deeds
    decreases |work|
  {
    if work == [] then NOTHING
    else
      var n := |work| - 1;
      Both(AllDeeds(s, t, work[..n]), DeedsOf(Run(s, work[..n]), t, work[n].0, work[n].1))
  }

  function LastAnswer(answers: seq<Status>): Status {
    if answers == [] then Error else answers[|answers| - 1]
  }

  lemma BothNothing(d: Deeds)
    ensures Both(d, NOTHING) == d
  {
  }

  lemma AnswersEnd(answers: seq<Status>, answer: Status)
    ensures LastAnswer(answers + [answer]) == answer
  {
  }

  lemma ActSpares(s: Sys, hand: set<Ptr>, a: Action, p: Ptr)
    requires Legal(s, hand, a) && p !in hand && p in s.heap
    ensures p in Do(s, a).heap && Do(s, a).heap[p] == s.heap[p]
  {
  }

  /** What a thread holds keeps its contents under the steps of the others. */
  lemma OthersCannotWrite(s: State, t: Tid, u: Tid, c: Choice, p: Ptr)
    requires Good(s) && t in s.threads && t != u && p in HandOf(s.threads[t])
    ensures p in s.sys.heap && p in Step(s, u, c).sys.heap && Step(s, u, c).sys.heap[p] == s.sys.heap[p]
  {
    ThreadHand(s, t);
    hide Step, Next, MayDo, Hand, HandOf, Owns, Items, Legal, Do;
    if Happens(s, u, c) {
      StepGood(s, u, c);
      StepFrame(s, u, c);
      OwnsMeans(WorldOf(s), p, t, u, 0, 0);
      ActSpares(s.sys, Hand(WorldOf(s), u), Next(s.sys, s.threads[u], c).0, p);
    } else {
      NoStep(s, u, c);
    }
  }

  /** Not inside msg_receiver: a call is made from a thread's own code. */
  predicate InOwn(th: Thread) {
    th.frame.NoFrame? || th.frame.Handling?
  }

  /** A step of t inside the framework */
  lemma GoesOn(s: State, t: Tid, grant: Option<Ptr>)
    requires t in s.threads && InOwn(s.threads[t])
    ensures var s1 := Step(s, t, Continue(grant));
            && t in s1.threads && InOwn(s1.threads[t])
            && (s.threads[t].call.Done? ==> s1.threads == s.threads && s1.sys == s.sys)
            && (!s.threads[t].call.Done? ==>
                  var (a, call) := CallStep(s.sys, s.threads[t].call, grant);
                  s1.sys == Do(s.sys, a) && s1.threads == s.threads[t := Settle(s.threads[t], call)])
  {
    if !s.threads[t].call.Done? {
      StepInside(s, t, grant);
    }
    hide CallStep, Do;
  }

  /** Registering fills free slots only. */
  lemma SlotsStay(s: State, u: Tid, c: Choice)
    ensures Consistent(s.sys.slots) ==> Consistent(Step(s, u, c).sys.slots)
    ensures forall i :: 0 <= i < MAX_MSG_RECVS && s.sys.slots[i].inUse ==> Step(s, u, c).sys.slots[i] == s.sys.slots[i]
  {
    hide Next, MayDo, IsFault, IsStale, ReadsOf, FreedAfter;
  }

  // ----- one message -----

  /** Whom a send is for: the receiver rx, or one that has a handler */
  datatype Aim = ToReceiver(rx: Byte) | ToHandler

  ghost predicate Hits(slots: Registry, m: Msg, aim: Aim, id: nat) {
    && id < MAX_MSG_RECVS && slots[id].inUse && slots[id].receiver.Some?
    && match aim
       case ToReceiver(rx) => id == rx
       case ToHandler => MSG_ID_APP_START <= id && Handles(slots[id], m.code)
  }

  /** m is in the queue of one registered receiver, addressed to it and as it was sent otherwise. */
  ghost predicate Reached(slots: Registry, m: Msg, aim: Aim, id: nat, postings: seq<Posting>) {
    && Hits(slots, m, aim, id) && slots[id].receiver.value.queue.Some?
    && postings == [Posting(slots[id].receiver.value.queue.value, m.(rx := id), 0, None)]
  }

  function Toward(route: Route): Aim
    requires !route.Broadcast?
  {
    if route.Direct? then ToReceiver(route.rx) else ToHandler
  }

  predicate IsCreate(c: Create, m: Msg, aim: Aim) {
    !c.route.Broadcast? && Toward(c.route) == aim && c.msg == m
  }

  /** The message p of the call, with contents m, has not been dealt with. */
  ghost predicate Untouched(s: Sys, p: Ptr, m: Msg, origin: Option<Ptr>, d: Deeds) {
    d == NOTHING && p in s.heap && s.heap[p] == m && (origin.Some? ==> origin.value == p)
  }

  /** The answer is that of the queue asked, if any. */
  ghost predicate SendOver(slots: Registry, status: Status, m: Msg, aim: Aim, mode: Mode, origin: Option<Ptr>,
                           d: Deeds)
  {
    && status == LastAnswer(d.answers)
    && (status == Success ==> d.frees == [] && exists id :: Reached(slots, m, aim, id, d.postings))
    && (status != Success ==>
          && d.postings == []
          && (mode == Raw ==> d.frees == [])
          && (mode == Wrapped ==> if origin.Some? then d.frees == [origin.value] else |d.frees| <= 1))
  }

  /** Where a call that sends m stands, after what it has done. origin is its message, None for a create. */
  ghost predicate SendStands(s: Sys, call: Call, m: Msg, aim: Aim, mode: Mode, origin: Option<Ptr>, d: Deeds) {
    (aim.ToHandler? ==> Consistent(s.slots)) &&
    match call
    case Creating(c) => IsCreate(c, m, aim) && mode == Wrapped && origin.None? && d == NOTHING
    case Initialising(c, _) => IsCreate(c, m, aim) && mode == Wrapped && origin.None? && d == NOTHING
    case Sending(rx, p, mode') => mode' == mode && aim == ToReceiver(rx) && Untouched(s, p, m, origin, d)
    case Unicasting(p, i, mode') =>
      mode' == mode && aim == ToHandler && i >= MSG_ID_APP_START && Untouched(s, p, m, origin, d)
    case Putting(p, queue, mode') =>
      mode' == mode && exists id: Byte ::
        && Hits(s.slots, m, aim, id) && s.slots[id].receiver.value.queue == queue
        && Untouched(s, p, m.(rx := id), origin, d)
    case Failed(p, status, mode') =>
      && mode' == mode && status != Success && status == LastAnswer(d.answers) && d.postings == [] && d.frees == []
      && (origin.Some? ==> origin.value == p)
    case Done(status, _, _) => SendOver(s.slots, status, m, aim, mode, origin, d)
    case _ => false
  }

  /** The message of a call has been addressed to receiver id. */
  lemma Addressed(s: Sys, p: Ptr, m: Msg, aim: Aim, mode: Mode, origin: Option<Ptr>, id: Byte, d: Deeds)
    requires p in s.heap && Untouched(s, p, m, origin, d) && Hits(s.slots, m, aim, id)
    requires aim.ToHandler? ==> Consistent(s.slots)
    ensures var s1 := Do(s, Write(p, s.heap[p].(rx := id)));
            SendStands(s1, Putting(p, s.slots[id].receiver.value.queue, mode), m, aim, mode, origin, d)
  {
    var s1 := Do(s, Write(p, s.heap[p].(rx := id)));
    assert Hits(s1.slots, m, aim, id) && Untouched(s1, p, m.(rx := id), origin, d);
  }

  lemma SearchStep(s: Sys, call: Call, m: Msg, aim: Aim, mode: Mode, origin: Option<Ptr>, grant: Option<Ptr>, d: Deeds)
    requires SendStands(s, call, m, aim, mode, origin, d) && (call.Sending? || call.Unicasting?)
    ensures var (a, next) := CallStep(s, call, grant);
            SendStands(Do(s, a), next, m, aim, mode, origin, Both(d, DeedsBy(s, call, a)))
  {
    var (a, next) := CallStep(s, call, grant);
    BothNothing(d);
    if next.Putting? {
      var id: Byte := if call.Sending? then call.rx else call.i;
      Addressed(s, call.p, m, aim, mode, origin, id, d);
    }
  }

  lemma PutStep(s: Sys, call: Call, m: Msg, aim: Aim, mode: Mode, origin: Option<Ptr>, grant: Option<Ptr>, d: Deeds)
    requires SendStands(s, call, m, aim, mode, origin, d) && call.Putting?
    ensures var (a, next) := CallStep(s, call, grant);
            SendStands(Do(s, a), next, m, aim, mode, origin, Both(d, DeedsBy(s, call, a)))
  {
    var (a, next) := CallStep(s, call, grant);
    var id: Byte :| Hits(s.slots, m, aim, id) && s.slots[id].receiver.value.queue == call.queue
                    && Untouched(s, call.p, m.(rx := id), origin, d);
    var e := Both(d, DeedsBy(s, call, a));
    if a.Put? {
      assert Reached(Do(s, a).slots, m, aim, id, e.postings);
    }
  }

  lemma FailStep(s: Sys, call: Call, m: Msg, aim: Aim, mode: Mode, origin: Option<Ptr>, grant: Option<Ptr>, d: Deeds)
    requires SendStands(s, call, m, aim, mode, origin, d) && call.Failed?
    ensures var (a, next) := CallStep(s, call, grant);
            SendStands(Do(s, a), next, m, aim, mode, origin, Both(d, DeedsBy(s, call, a)))
  {
    hide Hits;
    assert d.answers + [] == d.answers;
  }

  lemma CreateStep(s: Sys, call: Call, m: Msg, aim: Aim, mode: Mode, origin: Option<Ptr>, grant: Option<Ptr>, d: Deeds)
    requires SendStands(s, call, m, aim, mode, origin, d) && (call.Creating? || call.Initialising?)
    requires Owned(call) <= s.heap.Keys
    ensures var (a, next) := CallStep(s, call, grant);
            SendStands(Do(s, a), next, m, aim, mode, origin, Both(d, DeedsBy(s, call, a)))
  {
    hide Hits;
    BothNothing(d);
  }

  lemma SendCallStep(s: Sys, call: Call, m: Msg, aim: Aim, mode: Mode, origin: Option<Ptr>, grant: Option<Ptr>,
                     d: Deeds)
    requires SendStands(s, call, m, aim, mode, origin, d) && Owned(call) <= s.heap.Keys && !call.Done?
    ensures var (a, next) := CallStep(s, call, grant);
            SendStands(Do(s, a), next, m, aim, mode, origin, Both(d, DeedsBy(s, call, a)))
  {
    if call.Sending? || call.Unicasting? {
      SearchStep(s, call, m, aim, mode, origin, grant, d);
    } else if call.Putting? {
      PutStep(s, call, m, aim, mode, origin, grant, d);
    } else if call.Failed? {
      FailStep(s, call, m, aim, mode, origin, grant, d);
    } else {
      CreateStep(s, call, m, aim, mode, origin, grant, d);
    }
    hide CallStep, Do, DeedsBy, Hits, Untouched, SendOver;
  }

  lemma SendSettles(s: Sys, th: Thread, call: Call, m: Msg, aim: Aim, mode: Mode, origin: Option<Ptr>, d: Deeds)
    requires SendStands(s, call, m, aim, mode, origin, d)
    ensures SendStands(s, Settle(th, call).call, m, aim, mode, origin, d)
  {
    hide Consistent, Hits, Untouched;
  }

  lemma SendOwn(s: State, t: Tid, m: Msg, aim: Aim, mode: Mode, origin: Option<Ptr>, grant: Option<Ptr>, d: Deeds)
    requires Good(s) && t in s.threads && InOwn(s.threads[t])
    requires SendStands(s.sys, s.threads[t].call, m, aim, mode, origin, d)
    ensures var s1, e := Step(s, t, Continue(grant)), Both(d, DeedsOf(s, t, t, Continue(grant)));
            && t in s1.threads && InOwn(s1.threads[t])
            && SendStands(s1.sys, s1.threads[t].call, m, aim, mode, origin, e)
  {
    var call := s.threads[t].call;
    ThreadHand(s, t);
    GoesOn(s, t, grant);
    BothNothing(d);
    assert Owned(call) <= HandOf(s.threads[t]);
    hide Step, WorldOf, Hand, HandOf, Do, DeedsBy, CallStep, SendStands, Both;
    if !call.Done? {
      var (a, next) := CallStep(s.sys, call, grant);
      SendCallStep(s.sys, call, m, aim, mode, origin, grant, d);
      SendSettles(Do(s.sys, a), s.threads[t], next, m, aim, mode, origin, Both(d, DeedsBy(s.sys, call, a)));
    }
  }

  lemma SlotsKeep(slots: Registry, later: Registry, m: Msg, aim: Aim, id: nat)
    requires Hits(slots, m, aim, id)
    requires forall i :: 0 <= i < MAX_MSG_RECVS && slots[i].inUse ==> later[i] == slots[i]
    ensures Hits(later, m, aim, id) && later[id] == slots[id]
  {
  }

  /** The steps of others do not matter to a send. */
  lemma SendStays(s: Sys, later: Sys, call: Call, m: Msg, aim: Aim, mode: Mode, origin: Option<Ptr>, d: Deeds)
    requires SendStands(s, call, m, aim, mode, origin, d)
    requires Consistent(s.slots) ==> Consistent(later.slots)
    requires forall i :: 0 <= i < MAX_MSG_RECVS && s.slots[i].inUse ==> later.slots[i] == s.slots[i]
    requires forall p :: p in Owned(call) ==> p in s.heap && p in later.heap && later.heap[p] == s.heap[p]
    ensures SendStands(later, call, m, aim, mode, origin, d)
  {
    hide Consistent;
    if call.Putting? {
      var id: Byte :| Hits(s.slots, m, aim, id) && s.slots[id].receiver.value.queue == call.queue
                      && Untouched(s, call.p, m.(rx := id), origin, d);
      SlotsKeep(s.slots, later.slots, m, aim, id);
      assert Untouched(later, call.p, m.(rx := id), origin, d);
    } else if call.Done? && call.status == Success {
      var id :| Reached(s.slots, m, aim, id, d.postings);
      SlotsKeep(s.slots, later.slots, m, aim, id);
      assert Reached(later.slots, m, aim, id, d.postings);
    }
  }

  /** What a call holds stays what it was while others run. */
  lemma OwnedStays(s: State, t: Tid, u: Tid, c: Choice)
    requires Good(s) && t in s.threads && u != t
    ensures var s1 := Step(s, u, c);
            && t in s1.threads && s1.threads[t] == s.threads[t]
            && (forall p :: p in Owned(s.threads[t].call) ==>
                  p in s.sys.heap && p in s1.sys.heap && s1.sys.heap[p] == s.sys.heap[p])
  {
    OtherStep(s, t, u, c);
    hide Step, Good, Owned;
    forall p | p in Owned(s.threads[t].call)
      ensures p in s.sys.heap && p in Step(s, u, c).sys.heap && Step(s, u, c).sys.heap[p] == s.sys.heap[p]
    {
      OthersCannotWrite(s, t, u, c, p);
    }
  }

  lemma {:induction false} SendRun(s: State, t: Tid, m: Msg, aim: Aim, mode: Mode, origin: Option<Ptr>, work: Schedule)
    requires Good(s) && t in s.threads && InOwn(s.threads[t]) && OnlyGoesOn(work, t)
    requires SendStands(s.sys, s.threads[t].call, m, aim, mode, origin, NOTHING)
    ensures var now := Run(s, work);
            && t in now.threads && InOwn(now.threads[t])
            && SendStands(now.sys, now.threads[t].call, m, aim, mode, origin, AllDeeds(s, t, work))
    decreases |work|
  {
    hide Good, Step, SendStands, DeedsOf, InOwn, Both, Owned, Consistent;
    if work != [] {
      var n := |work| - 1;
      var before, u, c := Run(s, work[..n]), work[n].0, work[n].1;
      var d := AllDeeds(s, t, work[..n]);
      SendRun(s, t, m, aim, mode, origin, work[..n]);
      RunGood(s, work[..n]);
      if u == t {
        SendOwn(before, t, m, aim, mode, origin, c.grant, d);
      } else {
        OwnedStays(before, t, u, c);
        SlotsStay(before, u, c);
        SendStays(before.sys, Step(before, u, c).sys, before.threads[t].call, m, aim, mode, origin, d);
        NoDeeds(before, t, u, c, d);
      }
    }
  }

  lemma NoDeeds(s: State, t: Tid, u: Tid, c: Choice, d: Deeds)
    requires u != t
    ensures Both(d, DeedsOf(s, t, u, c)) == d
  {
    BothNothing(d);
  }

  /** c begins a send of m, whose message is origin. */
  ghost predicate BeginsSend(s: Sys, c: Choice, m: Msg, aim: Aim, mode: Mode, origin: Option<Ptr>) {
    match c
    case Send(p, mode') => mode == mode' && origin == Some(p) && m == Deref(s.heap, p) && aim == ToReceiver(m.rx)
    case SendTo(p, rx, mode') =>
      && mode == mode' && origin == Some(p) && aim == ToReceiver(rx)
      && m == if mode == Wrapped then Deref(s.heap, p).(rx := rx) else Deref(s.heap, p)
    case UnicastMsg(p, mode') => mode == mode' && origin == Some(p) && m == Deref(s.heap, p) && aim == ToHandler
    case Targeted(p, target) =>
      && mode == Wrapped && origin == Some(p) && target.Some? && aim == ToReceiver(target.value)
      && m == Deref(s.heap, p).(rx := target.value)
    case Reply(p, code) =>
      && mode == Wrapped && origin == Some(p) && aim == ToReceiver(m.rx)
      && var was := Deref(s.heap, p);
         m == Msg(code, was.tx, was.rx, was.options, was.body)
    case Make(create) =>
      mode == Wrapped && origin == None && !create.route.Broadcast? && m == create.msg && aim == Toward(create.route)
    case _ => false
  }

  lemma SendBegun(s: Sys, th: Thread, c: Choice, m: Msg, aim: Aim, mode: Mode, origin: Option<Ptr>)
    requires MayDo(s, th, c) && BeginsSend(s, c, m, aim, mode, origin) && (origin.Some? ==> origin.value in s.heap)
    requires aim.ToHandler? ==> Consistent(s.slots)
    ensures var (a, next) := Next(s, th, c);
            InOwn(next) && SendStands(Do(s, a), next.call, m, aim, mode, origin, NOTHING)
  {
    hide Consistent, Hits, NextInside, Handles;
  }

  lemma OriginLive(s: State, t: Tid, p: Ptr)
    requires Good(s) && t in s.threads && p in s.threads[t].held
    ensures p in s.sys.heap
  {
    ThreadHand(s, t);
    hide Good;
  }

  lemma SendBegins(s: State, t: Tid, c: Choice, m: Msg, aim: Aim, mode: Mode, origin: Option<Ptr>)
    requires Good(s) && Happens(s, t, c) && BeginsSend(s.sys, c, m, aim, mode, origin)
    requires aim.ToHandler? ==> Consistent(s.sys.slots)
    ensures var s1 := Step(s, t, c);
            && t in s1.threads && InOwn(s1.threads[t])
            && SendStands(s1.sys, s1.threads[t].call, m, aim, mode, origin, NOTHING)
  {
    if origin.Some? {
      OriginLive(s, t, origin.value);
    }
    StepFrame(s, t, c);
    hide Good, Step, Next, MayDo, BeginsSend, SendStands, Consistent;
    SendBegun(s.sys, s.threads[t], c, m, aim, mode, origin);
  }

  /** A send by msg_send, msg_unicast, any sysmsg form of them, a reply, a targeted send or a create function,
      cut into its steps and interleaved with any steps of others. If it answers success, it has put its
      message into one queue, that of the receiver it is for or of one that has a handler, with the contents
      of the call and the receiver's id, and has freed nothing. Otherwise it has queued nothing, and the
      message is freed once by the sysmsg forms and not by the others. The answer is that of the queue. */
  lemma SendInterleaved(s: State, t: Tid, c: Choice, m: Msg, aim: Aim, mode: Mode, origin: Option<Ptr>, work: Schedule)
    requires Good(s) && Happens(s, t, c) && BeginsSend(s.sys, c, m, aim, mode, origin) && OnlyGoesOn(work, t)
    requires aim.ToHandler? ==> Consistent(s.sys.slots)
    requires var now := Run(Step(s, t, c), work); t in now.threads && now.threads[t].call.Done?
    ensures var s1 := Step(s, t, c);
            var now := Run(s1, work);
            SendOver(now.sys.slots, now.threads[t].call.status, m, aim, mode, origin, AllDeeds(s1, t, work))
  {
    StepKeepsGood(s, t, c);
    SendBegins(s, t, c, m, aim, mode, origin);
    hide Step, Run, Good, AllDeeds, Happens, SendOver, Hits, Untouched, Consistent, InOwn;
    SendRun(Step(s, t, c), t, m, aim, mode, origin, work);
  }

  lemma StepKeepsGood(s: State, t: Tid, c: Choice)
    requires Good(s) && Happens(s, t, c)
    ensures Good(Step(s, t, c))
  {
    hide Good, Step, Happens;
    StepGood(s, t, c);
  }

  // ----- one copy per receiver -----

  /** The copy posted for a receiver equals m except for the receiver's id, and goes into its queue. */
  predicate IsCopy(m: Msg, copy: Posting) {
    && MSG_ID_APP_START <= copy.id < MAX_MSG_RECVS && copy.receiver.Some?
    && Eligible(Slot(true, copy.receiver), m)
    && copy.receiver.value.queue == Some(copy.q) && copy.msg == m.(rx := copy.receiver.value.id)
  }

  /** Copies for slots below i, in the order of the slots, none twice */
  ghost predicate CopiesBelow(m: Msg, i: nat, copies: seq<Posting>) {
    && (forall k :: 0 <= k < |copies| ==> IsCopy(m, copies[k]) && copies[k].id < i)
    && (forall j, k :: 0 <= j < k < |copies| ==> copies[j].id < copies[k].id)
  }

  /** Every copy was made for the receiver that is registered in its slot. */
  ghost predicate ForReceivers(slots: Registry, copies: seq<Posting>) {
    forall k :: 0 <= k < |copies| && copies[k].id < MAX_MSG_RECVS ==>
      slots[copies[k].id] == Slot(true, copies[k].receiver)
  }

  ghost predicate CopiesRight(slots: Registry, m: Msg, i: nat, d: Deeds) {
    Consistent(slots) && ForReceivers(slots, d.postings) && CopiesBelow(m, i, d.postings)
  }

  /** The original p with contents m is untouched, and of the copies tried so far all but open are queued or
      freed. */
  ghost predicate Going(s: Sys, p: Ptr, m: Msg, origin: Option<Ptr>, i: nat, d: Deeds, open: nat) {
    && CopiesRight(s.slots, m, i, d)
    && p in s.heap && s.heap[p] == m && p !in d.frees && (origin.Some? ==> origin.value == p)
    && |d.answers| == |d.postings| + |d.frees| + open
  }

  ghost predicate FreedLast(frees: seq<Ptr>, p: Ptr) {
    frees != [] && frees[|frees| - 1] == p && p !in frees[..|frees| - 1]
  }

  /** The answer is that of the last queue asked. The original is freed exactly once, at the end, if the call
      succeeds or is a sysmsg form, and otherwise never; every copy is queued or freed. */
  ghost predicate BroadcastOver(status: Status, mode: Mode, origin: Option<Ptr>, d: Deeds) {
    var frees := status == Success || mode == Wrapped;
    && status == LastAnswer(d.answers)
    && (origin.Some? ==> if frees then FreedLast(d.frees, origin.value) else origin.value !in d.frees)
    && (|d.answers| + (if frees then 1 else 0) == |d.postings| + |d.frees| || (origin.None? && d == NOTHING))
  }

  /** Where a broadcast of m stands, after what it has done. origin is its message, None for a create. */
  ghost predicate BroadcastStands(s: Sys, call: Call, m: Msg, mode: Mode, origin: Option<Ptr>, d: Deeds) {
    match call
    case Creating(c) =>
      mode == Wrapped && origin.None? && c.route.Broadcast? && c.msg == m && d == NOTHING && Consistent(s.slots)
    case Initialising(c, p) =>
      mode == Wrapped && origin.None? && c.route.Broadcast? && c.msg == m && d == NOTHING && Consistent(s.slots)
    case Broadcasting(p, i, last, mode') =>
      mode' == mode && i > 0 && last == LastAnswer(d.answers) && Going(s, p, m, origin, i, d, 0)
    case Copying(p, i, copy, r, mode') =>
      && mode' == mode && 0 < i < MAX_MSG_RECVS && Going(s, p, m, origin, i, d, 0)
      && s.slots[i] == Slot(true, Some(r)) && Eligible(s.slots[i], m)
    case PuttingCopy(p, i, copy, r, mode') =>
      && mode' == mode && 0 < i < MAX_MSG_RECVS && Going(s, p, m, origin, i, d, 0)
      && s.slots[i] == Slot(true, Some(r)) && Eligible(s.slots[i], m)
      && copy in s.heap && s.heap[copy] == m.(rx := r.id)
    case FreeingCopy(p, i, copy, last, mode') =>
      mode' == mode && i > 0 && last == LastAnswer(d.answers) && Going(s, p, m, origin, i, d, 1)
    case Routed(p, last, mode') =>
      mode' == mode && last == LastAnswer(d.answers) && Going(s, p, m, origin, MAX_MSG_RECVS, d, 0)
    case Failed(p, status, mode') =>
      && mode' == mode && status != Success && status == LastAnswer(d.answers)
      && Going(s, p, m, origin, MAX_MSG_RECVS, d, 0)
    case Done(status, _, _) => BroadcastOver(status, mode, origin, d) && CopiesRight(s.slots, m, MAX_MSG_RECVS, d)
    case _ => false
  }

  lemma CopiesGrow(slots: Registry, m: Msg, i: nat, d: Deeds, copy: Posting, e: Deeds)
    requires CopiesRight(slots, m, i, d) && IsCopy(m, copy) && copy.id == i && i < MAX_MSG_RECVS
    requires slots[i] == Slot(true, copy.receiver) && e.postings == d.postings + [copy]
    ensures CopiesRight(slots, m, i + 1, e)
  {
    hide IsCopy, Consistent;
  }

  lemma CopiesStay(slots: Registry, m: Msg, i: nat, d: Deeds, j: nat, e: Deeds)
    requires CopiesRight(slots, m, i, d) && (i <= j || MAX_MSG_RECVS <= j) && e.postings == d.postings
    ensures CopiesRight(slots, m, j, e)
  {
    hide Consistent, Eligible;
  }

  // the steps of a broadcast

  lemma CopyBegins(s: Sys, call: Call, m: Msg, mode: Mode, origin: Option<Ptr>, grant: Option<Ptr>, d: Deeds)
    requires BroadcastStands(s, call, m, mode, origin, d) && call.Broadcasting?
    ensures var (a, next) := CallStep(s, call, grant);
            BroadcastStands(Do(s, a), next, m, mode, origin, Both(d, DeedsBy(s, call, a)))
  {
    BothNothing(d);
    CopiesStay(s.slots, m, call.i, d, call.i + 1, d);
    CopiesStay(s.slots, m, call.i, d, MAX_MSG_RECVS, d);
    assert Consistent(s.slots);
    hide CopiesRight, PutStatus;
  }

  lemma CopyFilled(s: Sys, call: Call, m: Msg, mode: Mode, origin: Option<Ptr>, grant: Option<Ptr>, d: Deeds)
    requires BroadcastStands(s, call, m, mode, origin, d) && call.Copying? && CallOk(call) && Owned(call) <= s.heap.Keys
    ensures var (a, next) := CallStep(s, call, grant);
            BroadcastStands(Do(s, a), next, m, mode, origin, Both(d, DeedsBy(s, call, a)))
  {
    BothNothing(d);
    hide CopiesRight, PutStatus, Eligible;
  }

  /** What the put of a copy leads to */
  lemma CopyAnswered(s: Sys, call: Call, m: Msg, mode: Mode, origin: Option<Ptr>, grant: Option<Ptr>, d: Deeds)
    requires BroadcastStands(s, call, m, mode, origin, d) && call.PuttingCopy? && CallOk(call)
    ensures var (a, next) := CallStep(s, call, grant);
            var e, status := DeedsBy(s, call, a), PutStatus(s, call.r.queue, s.heap[call.copy]);
            && e.answers == [status] && e.frees == []
            && Do(s, a).heap == s.heap && Do(s, a).slots == s.slots
            && (status == Success ==>
                  && next == Broadcasting(call.p, call.i + 1, Success, mode)
                  && |e.postings| == 1 && IsCopy(m, e.postings[0])
                  && e.postings[0].id == call.i && e.postings[0].receiver == Some(call.r))
            && (status != Success ==>
                  next == FreeingCopy(call.p, call.i, call.copy, status, mode) && e.postings == [])
  {
    hide CopiesRight;
  }

  lemma CopyPut(s: Sys, call: Call, m: Msg, mode: Mode, origin: Option<Ptr>, grant: Option<Ptr>, d: Deeds)
    requires BroadcastStands(s, call, m, mode, origin, d) && call.PuttingCopy? && CallOk(call)
    ensures var (a, next) := CallStep(s, call, grant);
            BroadcastStands(Do(s, a), next, m, mode, origin, Both(d, DeedsBy(s, call, a)))
  {
    var (a, next) := CallStep(s, call, grant);
    var now := DeedsBy(s, call, a);
    var e, status := Both(d, now), PutStatus(s, call.r.queue, s.heap[call.copy]);
    CopyAnswered(s, call, m, mode, origin, grant, d);
    AnswersEnd(d.answers, status);
    assert e.frees == d.frees;
    hide CallStep, Do, DeedsBy, PutStatus, CopiesRight, Eligible, IsCopy, LastAnswer;
    if status == Success {
      assert e.postings == d.postings + [now.postings[0]];
      CopiesGrow(s.slots, m, call.i, d, now.postings[0], e);
    } else {
      assert e.postings == d.postings;
      CopiesStay(s.slots, m, call.i, d, call.i, e);
    }
  }

  lemma CopyFreed(s: Sys, call: Call, m: Msg, mode: Mode, origin: Option<Ptr>, grant: Option<Ptr>, d: Deeds)
    requires BroadcastStands(s, call, m, mode, origin, d) && call.FreeingCopy? && CallOk(call)
    ensures var (a, next) := CallStep(s, call, grant);
            BroadcastStands(Do(s, a), next, m, mode, origin, Both(d, DeedsBy(s, call, a)))
  {
    var (a, next) := CallStep(s, call, grant);
    var e := Both(d, DeedsBy(s, call, a));
    assert e.postings == d.postings && e.answers == d.answers;
    CopiesStay(s.slots, m, call.i, d, call.i + 1, e);
    hide CopiesRight, PutStatus;
  }

  lemma OriginalFreed(s: Sys, call: Call, m: Msg, mode: Mode, origin: Option<Ptr>, grant: Option<Ptr>, d: Deeds)
    requires BroadcastStands(s, call, m, mode, origin, d) && (call.Routed? || call.Failed?)
    ensures var (a, next) := CallStep(s, call, grant);
            BroadcastStands(Do(s, a), next, m, mode, origin, Both(d, DeedsBy(s, call, a)))
  {
    var (a, next) := CallStep(s, call, grant);
    var e := Both(d, DeedsBy(s, call, a));
    BothNothing(d);
    assert e.postings == d.postings && e.answers == d.answers;
    CopiesStay(s.slots, m, MAX_MSG_RECVS, d, MAX_MSG_RECVS, e);
    hide CopiesRight, PutStatus;
  }

  lemma BroadcastCreated(s: Sys, call: Call, m: Msg, mode: Mode, origin: Option<Ptr>, grant: Option<Ptr>, d: Deeds)
    requires BroadcastStands(s, call, m, mode, origin, d) && (call.Creating? || call.Initialising?)
    requires Owned(call) <= s.heap.Keys
    ensures var (a, next) := CallStep(s, call, grant);
            BroadcastStands(Do(s, a), next, m, mode, origin, Both(d, DeedsBy(s, call, a)))
  {
    BothNothing(d);
    hide Consistent, PutStatus, IsCopy;
  }

  lemma BroadcastCallStep(s: Sys, call: Call, m: Msg, mode: Mode, origin: Option<Ptr>, grant: Option<Ptr>, d: Deeds)
    requires BroadcastStands(s, call, m, mode, origin, d) && CallOk(call) && Owned(call) <= s.heap.Keys && !call.Done?
    ensures var (a, next) := CallStep(s, call, grant);
            BroadcastStands(Do(s, a), next, m, mode, origin, Both(d, DeedsBy(s, call, a)))
  {
    if call.Broadcasting? {
      CopyBegins(s, call, m, mode, origin, grant, d);
    } else if call.Copying? {
      CopyFilled(s, call, m, mode, origin, grant, d);
    } else if call.PuttingCopy? {
      CopyPut(s, call, m, mode, origin, grant, d);
    } else if call.FreeingCopy? {
      CopyFreed(s, call, m, mode, origin, grant, d);
    } else if call.Routed? || call.Failed? {
      OriginalFreed(s, call, m, mode, origin, grant, d);
    } else {
      BroadcastCreated(s, call, m, mode, origin, grant, d);
    }
    hide CallStep, Do, DeedsBy, Going, CopiesRight, BroadcastOver;
  }

  lemma BroadcastSettles(s: Sys, th: Thread, call: Call, m: Msg, mode: Mode, origin: Option<Ptr>, d: Deeds)
    requires BroadcastStands(s, call, m, mode, origin, d)
    ensures BroadcastStands(s, Settle(th, call).call, m, mode, origin, d)
  {
    hide CopiesRight, Going, BroadcastOver;
  }

  lemma BroadcastOwn(s: State, t: Tid, m: Msg, mode: Mode, origin: Option<Ptr>, grant: Option<Ptr>, d: Deeds)
    requires Good(s) && t in s.threads && InOwn(s.threads[t])
    requires BroadcastStands(s.sys, s.threads[t].call, m, mode, origin, d)
    ensures var s1, e := Step(s, t, Continue(grant)), Both(d, DeedsOf(s, t, t, Continue(grant)));
            && t in s1.threads && InOwn(s1.threads[t])
            && BroadcastStands(s1.sys, s1.threads[t].call, m, mode, origin, e)
  {
    var call := s.threads[t].call;
    assert ThreadOk(s.threads[t]);
    ThreadHand(s, t);
    GoesOn(s, t, grant);
    BothNothing(d);
    assert Owned(call) <= HandOf(s.threads[t]);
    hide Step, WorldOf, Hand, HandOf, Do, DeedsBy, CallStep, BroadcastStands, Both;
    if !call.Done? {
      var (a, next) := CallStep(s.sys, call, grant);
      BroadcastCallStep(s.sys, call, m, mode, origin, grant, d);
      BroadcastSettles(Do(s.sys, a), s.threads[t], next, m, mode, origin, Both(d, DeedsBy(s.sys, call, a)));
    }
  }

  lemma CopiesKeep(slots: Registry, later: Registry, m: Msg, i: nat, d: Deeds)
    requires CopiesRight(slots, m, i, d) && Consistent(later)
    requires forall j :: 0 <= j < MAX_MSG_RECVS && slots[j].inUse ==> later[j] == slots[j]
    ensures CopiesRight(later, m, i, d)
  {
    hide CopiesBelow, Consistent;
  }

  /** The steps of others do not matter to a broadcast. */
  lemma BroadcastStays(s: Sys, later: Sys, call: Call, m: Msg, mode: Mode, origin: Option<Ptr>, d: Deeds)
    requires BroadcastStands(s, call, m, mode, origin, d)
    requires Consistent(s.slots) ==> Consistent(later.slots)
    requires forall i :: 0 <= i < MAX_MSG_RECVS && s.slots[i].inUse ==> later.slots[i] == s.slots[i]
    requires forall p :: p in Owned(call) ==> p in s.heap && p in later.heap && later.heap[p] == s.heap[p]
    ensures BroadcastStands(later, call, m, mode, origin, d)
  {
    if !call.Creating? && !call.Initialising? {
      var i: nat := if call.Routed? || call.Failed? || call.Done? then MAX_MSG_RECVS else call.i;
      CopiesKeep(s.slots, later.slots, m, i, d);
    }
    hide CopiesRight, Eligible, BroadcastOver, Consistent;
  }

  lemma {:induction false} BroadcastRun(s: State, t: Tid, m: Msg, mode: Mode, origin: Option<Ptr>, work: Schedule)
    requires Good(s) && t in s.threads && InOwn(s.threads[t]) && OnlyGoesOn(work, t)
    requires BroadcastStands(s.sys, s.threads[t].call, m, mode, origin, NOTHING)
    ensures var now := Run(s, work);
            && t in now.threads && InOwn(now.threads[t])
            && BroadcastStands(now.sys, now.threads[t].call, m, mode, origin, AllDeeds(s, t, work))
    decreases |work|
  {
    hide Good, Step, BroadcastStands, DeedsOf, InOwn, Both, Owned, Consistent;
    if work != [] {
      var n := |work| - 1;
      var before, u, c := Run(s, work[..n]), work[n].0, work[n].1;
      var d := AllDeeds(s, t, work[..n]);
      BroadcastRun(s, t, m, mode, origin, work[..n]);
      RunGood(s, work[..n]);
      if u == t {
        BroadcastOwn(before, t, m, mode, origin, c.grant, d);
      } else {
        OwnedStays(before, t, u, c);
        SlotsStay(before, u, c);
        BroadcastStays(before.sys, Step(before, u, c).sys, before.threads[t].call, m, mode, origin, d);
        NoDeeds(before, t, u, c, d);
      }
    }
  }

  /** c begins a broadcast of m, whose message is origin. */
  ghost predicate BeginsBroadcast(s: Sys, c: Choice, m: Msg, mode: Mode, origin: Option<Ptr>) {
    match c
    case BroadcastMsg(p, mode') => mode == mode' && origin == Some(p) && m == Deref(s.heap, p)
    case Targeted(p, target) =>
      mode == Wrapped && origin == Some(p) && target.None? && m == Deref(s.heap, p).(rx := MSG_ID_RESERVED)
    case Make(create) => mode == Wrapped && origin == None && create.route.Broadcast? && m == create.msg
    case _ => false
  }

  lemma BroadcastBegun(s: Sys, th: Thread, c: Choice, m: Msg, mode: Mode, origin: Option<Ptr>)
    requires MayDo(s, th, c) && BeginsBroadcast(s, c, m, mode, origin) && (origin.Some? ==> origin.value in s.heap)
    requires Consistent(s.slots)
    ensures var (a, next) := Next(s, th, c);
            InOwn(next) && BroadcastStands(Do(s, a), next.call, m, mode, origin, NOTHING)
  {
    hide Consistent, NextInside, Eligible;
  }

  lemma BroadcastBegins(s: State, t: Tid, c: Choice, m: Msg, mode: Mode, origin: Option<Ptr>)
    requires Good(s) && Happens(s, t, c) && BeginsBroadcast(s.sys, c, m, mode, origin) && Consistent(s.sys.slots)
    ensures var s1 := Step(s, t, c);
            && t in s1.threads && InOwn(s1.threads[t])
            && BroadcastStands(s1.sys, s1.threads[t].call, m, mode, origin, NOTHING)
  {
    if origin.Some? {
      OriginLive(s, t, origin.value);
    }
    StepFrame(s, t, c);
    hide Good, Step, Next, MayDo, BeginsBroadcast, BroadcastStands, Consistent;
    BroadcastBegun(s.sys, s.threads[t], c, m, mode, origin);
  }

  /** A broadcast, cut into its steps and interleaved with any steps of others, registrations included. At
      every time the copies that it has put into queues are in the order of the slots, at most one for each
      and each for the receiver registered there, and each equals the original of the call except for its
      receiver's id. When it is over, the answer is that of the last queue asked, every copy is queued or
      freed, and the original is freed exactly once or not at all, as the answer and the form of the call
      demand. */
  lemma BroadcastInterleaved(s: State, t: Tid, c: Choice, m: Msg, mode: Mode, origin: Option<Ptr>, work: Schedule)
    requires Good(s) && Happens(s, t, c) && BeginsBroadcast(s.sys, c, m, mode, origin)
    requires Consistent(s.sys.slots) && OnlyGoesOn(work, t)
    ensures var s1 := Step(s, t, c);
            var now, d := Run(s1, work), AllDeeds(s1, t, work);
            && t in now.threads
            && CopiesBelow(m, MAX_MSG_RECVS, d.postings) && ForReceivers(now.sys.slots, d.postings)
            && (now.threads[t].call.Done? ==> BroadcastOver(now.threads[t].call.status, mode, origin, d))
  {
    StepKeepsGood(s, t, c);
    BroadcastBegins(s, t, c, m, mode, origin);
    hide Step, Run, Good, AllDeeds, Happens, BroadcastOver, Consistent, InOwn;
    hide BroadcastStands, CopiesBelow, ForReceivers;
    BroadcastRun(Step(s, t, c), t, m, mode, origin, work);
    var now := Run(Step(s, t, c), work);
    StandsBelow(now.sys, now.threads[t].call, m, mode, origin, AllDeeds(Step(s, t, c), t, work));
  }

  lemma StandsBelow(s: Sys, call: Call, m: Msg, mode: Mode, origin: Option<Ptr>, d: Deeds)
    requires BroadcastStands(s, call, m, mode, origin, d)
    ensures CopiesBelow(m, MAX_MSG_RECVS, d.postings) && ForReceivers(s.slots, d.postings)
    ensures call.Done? ==> BroadcastOver(call.status, mode, origin, d)
  {
    hide Eligible, BroadcastOver, Consistent;
  }
}
