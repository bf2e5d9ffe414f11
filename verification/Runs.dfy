/** Particular runs of the thread machine: a call that nothing interrupts, and a pass through msg_receiver. */
module Runs {
  import opened Messages
  import opened Calls
  import opened Ownership
  import opened Outcomes
  import opened Threads
  import opened Framework

  lemma RunAppend(s: State, schedule: Schedule, t: Tid, c: Choice)
    ensures Run(s, schedule + [(t, c)]) == Step(Run(s, schedule), t, c)
  {
    hide Step;
    assert (schedule + [(t, c)])[..|schedule|] == schedule;
  }

  lemma {:induction false} RunConcat(s: State, before: Schedule, after: Schedule)
    ensures Run(s, before + after) == Run(Run(s, before), after)
    decreases |after|
  {
    hide Step;
    if after == [] {
      assert before + after == before;
    } else {
      var n := |after| - 1;
      RunConcat(s, before, after[..n]);
      RunAppend(s, before + after[..n], after[n].0, after[n].1);
      RunAppend(Run(s, before), after[..n], after[n].0, after[n].1);
      assert before + after[..n] + [after[n]] == before + after && after[..n] + [after[n]] == after;
    }
  }

  lemma RunOne(s: State, t: Tid, c: Choice)
    ensures Run(s, [(t, c)]) == Step(s, t, c)
  {
    hide Step;
    assert [(t, c)][..0] == [];
    assert Run(s, []) == s;
  }

  lemma RunCons(s: State, t: Tid, c: Choice, after: Schedule)
    ensures Run(s, [(t, c)] + after) == Run(Step(s, t, c), after)
  {
    hide Step, Run;
    RunConcat(s, [(t, c)], after);
    RunOne(s, t, c);
  }

  // ----- no interruption -----

  /** What is left of a call when its thread alone runs, with the pool's answers from grants */
  function Alone(s: State, t: Tid, grants: Grants): State
    requires t in s.threads && InRange(s.threads[t].call)
    decreases Rank(s.sys, s.threads[t].call)
  {
    var call := s.threads[t].call;
    if call.Done? then s
    else
      StepRank(s.sys, call, GrantFor(call, grants));
      SettleKeeps(s.threads[t], CallStep(s.sys, call, GrantFor(call, grants)).1);
      Alone(Step(s, t, Continue(GrantFor(call, grants))), t, grants)
  }

  lemma SettleKeeps(th: Thread, call: Call)
    ensures InRange(call) ==> InRange(Settle(th, call).call)
    ensures forall s :: Rank(s, Settle(th, call).call) == Rank(s, call)
  {
  }

  lemma StepInside(s: State, t: Tid, grant: Option<Ptr>)
    requires t in s.threads && !s.threads[t].call.Done?
    ensures var (a, next) := CallStep(s.sys, s.threads[t].call, grant);
            var s1 := Step(s, t, Continue(grant));
            s1.sys == Do(s.sys, a) && s1.threads == s.threads[t := Settle(s.threads[t], next)]
  {
    hide CallStep, Do;
  }

  /** Uninterrupted, the steps of a call have the outcome of the function: the threads machine and the
      functions of the framework are the same program. */
  lemma {:induction false} AloneIsFinish(s: State, t: Tid, grants: Grants)
    requires t in s.threads && InRange(s.threads[t].call)
    ensures Alone(s, t, grants).sys == Finish(s.sys, s.threads[t].call, grants).0
    ensures Alone(s, t, grants).threads
         == if s.threads[t].call.Done? then s.threads
            else s.threads[t := Settle(s.threads[t], Finish(s.sys, s.threads[t].call, grants).1)]
    decreases Rank(s.sys, s.threads[t].call)
  {
    hide Finish, CallStep, Do, Step;
    var call := s.threads[t].call;
    if call.Done? {
      FinishDone(s.sys, call, grants);
    } else {
      var grant := GrantFor(call, grants);
      var (a, next) := CallStep(s.sys, call, grant);
      FinishStep(s.sys, call, grants);
      StepRank(s.sys, call, grant);
      StepInside(s, t, grant);
      SettleKeeps(s.threads[t], next);
      AloneIsFinish(Step(s, t, Continue(grant)), t, grants);
      if next.Done? {
        FinishDone(Do(s.sys, a), next, grants);
        FinishDone(Do(s.sys, a), Settle(s.threads[t], next).call, grants);
      }
    }
  }

  lemma BeginsInRange(s: State, t: Tid, c: Choice)
    requires Happens(s, t, c) && InOwnCode(s.threads[t])
    ensures t in Step(s, t, c).threads && InRange(Step(s, t, c).threads[t].call)
  {
  }

  /** The system after a thread has begun a call and nothing has interrupted it */
  function CallNow(s: State, t: Tid, c: Choice, grants: Grants): Sys
    requires Happens(s, t, c) && InOwnCode(s.threads[t])
  {
    BeginsInRange(s, t, c);
    Alone(Step(s, t, c), t, grants).sys
  }

  /** A call that begins as the method does ends as it does. */
  lemma Begun(s: State, t: Tid, c: Choice, sys: Sys, call: Call, grants: Grants)
    requires Happens(s, t, c) && InOwnCode(s.threads[t]) && InRange(call) && !call.Done?
    requires var (a, next) := Next(s.sys, s.threads[t], c); Do(s.sys, a) == sys && next.call == call
    ensures CallNow(s, t, c, grants) == Finish(sys, call, grants).0
  {
    var s1 := Step(s, t, c);
    assert t in s1.threads && s1.threads[t].call == call && s1.sys == sys;
    hide Step, Next, Finish, Alone, InRange;
    AloneIsFinish(s1, t, grants);
  }

  /** A thread in its own code that holds the live message p */
  ghost predicate HasInHand(s: State, t: Tid, p: Ptr) {
    t in s.threads && InOwnCode(s.threads[t]) && p in s.threads[t].held && p in s.sys.heap
  }

  /** Uninterrupted, the calls of a thread do what the methods of the framework are proved to do: the sends, ... */
  lemma SendsAreMethods(s: State, t: Tid, p: Ptr, rx: Byte, grants: Grants)
    requires HasInHand(s, t, p)
    ensures CallNow(s, t, Send(p, Wrapped), grants) == Finish(s.sys, Sending(s.sys.heap[p].rx, p, Wrapped), grants).0
    ensures CallNow(s, t, SendTo(p, rx, Raw), grants) == Finish(s.sys, Sending(rx, p, Raw), grants).0
    ensures CallNow(s, t, SendTo(p, rx, Wrapped), grants)
         == Finish(s.sys.(heap := s.sys.heap[p := s.sys.heap[p].(rx := rx)]), Sending(rx, p, Wrapped), grants).0
    ensures CallNow(s, t, UnicastMsg(p, Wrapped), grants) == Finish(s.sys, Unicasting(p, 1, Wrapped), grants).0
  {
    hide Finish, CallNow;
    Begun(s, t, Send(p, Wrapped), s.sys, Sending(s.sys.heap[p].rx, p, Wrapped), grants);
    Begun(s, t, SendTo(p, rx, Raw), s.sys, Sending(rx, p, Raw), grants);
    Begun(s, t, SendTo(p, rx, Wrapped), Readdressed(s.sys, p, rx), Sending(rx, p, Wrapped), grants);
    Begun(s, t, UnicastMsg(p, Wrapped), s.sys, Unicasting(p, MSG_ID_APP_START, Wrapped), grants);
  }

  /** ... the broadcast and the targeted send, the reply, ... */
  lemma ForwardsAreMethods(s: State, t: Tid, p: Ptr, code: Byte, target: Option<Byte>, grants: Grants)
    requires HasInHand(s, t, p)
    ensures CallNow(s, t, BroadcastMsg(p, Raw), grants)
         == Finish(s.sys, Broadcasting(p, 1, Error, Raw), grants).0
    ensures var sys := s.sys.(heap := s.sys.heap[p := s.sys.heap[p].(rx := if target.Some? then target.value else 0)]);
            CallNow(s, t, Targeted(p, target), grants)
            == match target
               case None => Finish(sys, Broadcasting(p, 1, Error, Wrapped), grants).0
               case Some(rx) => Finish(sys, Sending(rx, p, Wrapped), grants).0
    ensures var m := s.sys.heap[p];
            CallNow(s, t, Reply(p, code), grants)
            == Finish(s.sys.(heap := s.sys.heap[p := Msg(code, m.tx, m.rx, m.options, m.body)]),
                      Sending(m.tx, p, Wrapped), grants).0
  {
    hide Finish, CallNow;
    var m := s.sys.heap[p];
    Begun(s, t, BroadcastMsg(p, Raw), s.sys, Broadcasting(p, MSG_ID_APP_START, Error, Raw), grants);
    match target {
      case None =>
        Begun(s, t, Targeted(p, None), Readdressed(s.sys, p, MSG_ID_RESERVED), Routing(p, Broadcast, Wrapped), grants);
      case Some(rx) =>
        Begun(s, t, Targeted(p, Some(rx)), Readdressed(s.sys, p, rx), Routing(p, Direct(rx), Wrapped), grants);
    }
    Begun(s, t, Reply(p, code), s.sys.(heap := s.sys.heap[p := ReplyTo(m, code)]), Sending(m.tx, p, Wrapped), grants);
  }

  /** ... and the create functions and the timer interrupt. */
  lemma CreatesAreMethods(s: State, t: Tid, c: Create, grants: Grants)
    requires t in s.threads && InOwnCode(s.threads[t])
    ensures CallNow(s, t, Make(c), grants) == Finish(s.sys, Creating(c), grants).0
  {
    hide Finish, CallNow;
    Begun(s, t, Make(c), s.sys, Creating(c), grants);
  }

  lemma FlushIsMethod(s: State, t: Tid, rx: Byte, grants: Grants)
    requires t in s.threads && InOwnCode(s.threads[t])
    ensures CallNow(s, t, Flush(rx), grants) == Finish(s.sys, FlushCall(s.sys, rx), grants).0
  {
    hide Finish, CallStep;
    var s1 := Step(s, t, Flush(rx));
    assert t in s1.threads && s1.sys == s.sys && s1.threads[t].call == FlushCall(s.sys, rx);
    hide Step, Alone, FlushCall;
    AloneIsFinish(s1, t, grants);
  }

  /** What a thread in its own code does to a buffer of its own, ... */
  lemma OwnBuffers(s: State, t: Tid, p: Ptr, m: Msg, size: nat)
    requires t in s.threads && InOwnCode(s.threads[t])
    ensures p !in s.sys.heap ==>
              Step(s, t, Take(p, size)).sys == s.sys.(heap := s.sys.heap[p := Msg(0, 0, 0, 0, seq(size, _ => 0))])
    ensures HasInHand(s, t, p) ==> Step(s, t, Release(p)).sys == s.sys.(heap := s.sys.heap - {p})
    ensures HasInHand(s, t, p) && |m.body| == |s.sys.heap[p].body| ==>
              Step(s, t, Edit(p, m)).sys == s.sys.(heap := s.sys.heap[p := m])
  {
    hide IsFault, ReadsOf, FreedAfter, IsStale;
  }

  /** ... and its registration of a receiver */
  lemma OwnReceiver(s: State, t: Tid, r: Option<Receiver>)
    requires t in s.threads && InOwnCode(s.threads[t])
    ensures Step(s, t, Enlist(r)).sys
         == s.sys.(slots := if r.None? || r.value.id >= 32 || s.sys.slots[r.value.id].inUse then s.sys.slots
                            else s.sys.slots[r.value.id := Slot(true, r)])
  {
    hide IsFault, ReadsOf, FreedAfter, IsStale;
  }

  // ----- one pass through msg_receiver -----

  const GO: Choice := Continue(None)

  /** Between two messages */
  ghost predicate IdleReceiver(s: State, t: Tid, r: Receiver) {
    t in s.threads && InOwnCode(s.threads[t]) && s.threads[t].frame.NoFrame? && r.handles.Some?
    && (FirstIn(s.sys, r.queue).Some? ==> FirstIn(s.sys, r.queue).value in s.sys.heap)
  }

  lemma ReceivedNow(s: State, t: Tid, r: Receiver)
    requires IdleReceiver(s, t, r) && FirstIn(s.sys, r.queue).Some?
    ensures var p, s1 := FirstIn(s.sys, r.queue).value, Step(s, t, Receive(r));
            && s1.sys == Do(s.sys, Get(r.queue.value)) && t in s1.threads
            && s1.threads[t] == s.threads[t].(frame := Received(p, r))
  {
  }

  lemma DispatchedNow(s: State, t: Tid, p: Ptr, r: Receiver)
    requires t in s.threads && s.threads[t].call.Done? && s.threads[t].frame == Received(p, r)
    ensures var s1 := Step(s, t, GO);
            && s1.sys == s.sys && t in s1.threads && s1.threads[t].call.Done?
            && s1.threads[t].frame == if r.handles.Some?
            && Deref(s.sys.heap, p).code in r.handles.value then Handling(p)
                                      else Disposing(p, DISPATCH_ERROR)
  {
  }

  lemma DisposedNow(s: State, t: Tid, p: Ptr, res: DispatchResult)
    requires t in s.threads && s.threads[t].call.Done? && s.threads[t].frame == Disposing(p, res)
    ensures Step(s, t, GO).sys == if res == DISPATCH_DO_NOT_FREE then s.sys else Do(s.sys, Free(p))
  {
  }

  lemma ReturnedNow(s: State, t: Tid, p: Ptr, res: DispatchResult)
    requires t in s.threads && s.threads[t].call.Done? && s.threads[t].frame == Handling(p)
    requires res == DISPATCH_DO_NOT_FREE || p in s.threads[t].held
    ensures var s1 := Step(Step(s, t, Return(res)), t, GO);
            && s1.sys == s.sys && t in s1.threads && s1.threads[t].call.Done?
            && s1.threads[t].frame == Disposing(p, res)
  {
  }

  /** The receive loop of the thread machine is the method msg_receiver: whatever happens while the
      handler works, by its own steps and by those of other threads, is the handler's function. */
  lemma PassIsHandled(s: State, t: Tid, r: Receiver, work: Schedule, res: DispatchResult)
    requires IdleReceiver(s, t, r) && FirstIn(s.sys, r.queue).Some?
    requires var p, s2 := FirstIn(s.sys, r.queue).value, Run(Step(Step(s, t, Receive(r)), t, GO), work);
             s.sys.heap[p].code in r.handles.value ==>
               && t in s2.threads && s2.threads[t].call.Done? && s2.threads[t].frame == Handling(p)
               && (res == DISPATCH_DO_NOT_FREE || p in s2.threads[t].held)
    ensures var s1 := Step(Step(s, t, Receive(r)), t, GO);
            var s2 := Run(s1, work);
            var handled := s.sys.heap[FirstIn(s.sys, r.queue).value].code in r.handles.value;
            Handled(s.sys, r, (now, p) => (s2.sys, res))
            == if handled then Step(Step(Step(s2, t, Return(res)), t, GO), t, GO).sys else Step(s1, t, GO).sys
  {
    hide Step, Run, Do;
    var p := FirstIn(s.sys, r.queue).value;
    var s0 := Step(s, t, Receive(r));
    var s1 := Step(s0, t, GO);
    var s2 := Run(s1, work);
    ReceivedNow(s, t, r);
    DispatchedNow(s0, t, p, r);
    GetKeepsHeap(s.sys, r.queue.value);
    if s.sys.heap[p].code in r.handles.value {
      ReturnedNow(s2, t, p, res);
      DisposedNow(Step(Step(s2, t, Return(res)), t, GO), t, p, res);
    } else {
      DisposedNow(s1, t, p, DISPATCH_ERROR);
    }
  }

  lemma GetKeepsHeap(s: Sys, q: QueueId)
    ensures Do(s, Get(q)).heap == s.heap
  {
  }
}
