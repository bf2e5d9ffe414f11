/** What a handler that passes its message on may rely on: msg_receiver reads the options of the message
    after the handler has returned (lib/framework/sys_core.c, line 255). */
module Passing {
  import opened Messages
  import opened Calls
  import opened Ownership
  import opened Outcomes
  import opened Threads
  import opened Runs

  /** A message in msg_receiver is live as long as it was not freed. So its address, which is granted only
      when it is free, has not been granted to anybody else either. */
  ghost predicate Tracked(s: State) {
    forall u :: u in s.threads && !s.threads[u].frame.NoFrame? && u !in s.freed ==> s.threads[u].frame.p in s.sys.heap
  }

  lemma NextFrame(s: Sys, th: Thread, c: Choice)
    requires MayDo(s, th, c)
    ensures var (a, next) := Next(s, th, c);
            !next.frame.NoFrame? ==>
              if c.Receive? then a.Get? && Items(s, a.q) != [] && next.frame.p == Items(s, a.q)[0]
              else FrameOf(th, next.frame.p)
  {
    hide CallStep;
  }

  /** What a step leaves alone, and what it does to the live buffers */
  lemma StepFrame(s: State, t: Tid, c: Choice)
    requires Happens(s, t, c)
    ensures var s1 := Step(s, t, c);
            var (a, next) := Next(s.sys, s.threads[t], c);
            && s1.sys == Do(s.sys, a) && s1.threads == s.threads[t := next]
            && (forall u :: u in s1.freed <==>
                  || (u in s.freed && !(c.Receive? && u == t))
                  || (a.Free? && u in s1.threads && FrameOf(s1.threads[u], a.p)))
            && (forall p :: p in s.sys.heap && !(a.Free? && a.p == p) ==> p in s1.sys.heap)
  {
    hide Next, MayDo, IsFault, IsStale, ReadsOf, FrameOf, Items;
  }

  lemma StepTracked(s: State, t: Tid, c: Choice)
    requires Good(s) && Tracked(s) && Happens(s, t, c)
    ensures Tracked(Step(s, t, c))
  {
    var s1 := Step(s, t, c);
    var (a, next) := Next(s.sys, s.threads[t], c);
    StepFrame(s, t, c);
    NextFrame(s.sys, s.threads[t], c);
    if c.Receive? && a.Get? && Items(s.sys, a.q) != [] {
      OwnsMeans(WorldOf(s), Items(s.sys, a.q)[0], t, t, a.q, a.q);
    }
    hide Next, Step, MayDo, Items, Owns, Hand;
    forall u | u in s1.threads && !s1.threads[u].frame.NoFrame? && u !in s1.freed
      ensures s1.threads[u].frame.p in s1.sys.heap
    {
      if u == t && !c.Receive? {
        assert FrameOf(s.threads[t], next.frame.p);
      }
      assert FrameOf(s1.threads[u], s1.threads[u].frame.p);
    }
  }

  /** As long as a message in msg_receiver was not freed, its address belongs to it: no step grants it. */
  lemma NotGrantedAgain(s: State, t: Tid, u: Tid, c: Choice)
    requires Good(s) && Tracked(s) && t in s.threads && !s.threads[t].frame.NoFrame? && t !in s.freed
    requires Happens(s, u, c)
    ensures var a := Next(s.sys, s.threads[u], c).0; !(a.Alloc? && a.p == s.threads[t].frame.p)
  {
    StepGood(s, u, c);
    hide Next, Good, Step, MayDo;
  }

  /** All that is known of a state of a run */
  ghost predicate Sound(s: State) {
    Good(s) && Tracked(s)
  }

  lemma StepSound(s: State, t: Tid, c: Choice)
    requires Sound(s)
    ensures Sound(Step(s, t, c))
  {
    hide Good, Tracked, Step, Happens;
    if Happens(s, t, c) {
      StepGood(s, t, c);
      StepTracked(s, t, c);
    } else {
      NoStep(s, t, c);
    }
  }

  lemma {:induction false} RunSound(s: State, schedule: Schedule)
    requires Sound(s)
    ensures Sound(Run(s, schedule))
    decreases |schedule|
  {
    hide Sound, Step;
    if schedule != [] {
      var n := |schedule| - 1;
      RunSound(s, schedule[..n]);
      StepSound(Run(s, schedule[..n]), schedule[n].0, schedule[n].1);
    }
  }

  lemma StartSound(s: State)
    requires Start(s)
    ensures Sound(s)
  {
    hide Good;
    StartGood(s);
  }

  // ----- as long as the message is held -----

  /** A schedule in which t does nothing */
  ghost predicate Without(schedule: Schedule, t: Tid) {
    forall i :: 0 <= i < |schedule| ==> schedule[i].0 != t
  }

  predicate HoldsMessage(th: Thread) {
    !th.frame.NoFrame? && th.frame.p in HandOf(th)
  }

  /** The steps of the others leave a thread alone, and cannot free what it holds. */
  lemma OtherStep(s: State, t: Tid, u: Tid, c: Choice)
    requires Good(s) && t in s.threads && t != u
    ensures var s1 := Step(s, u, c);
            && t in s1.threads && s1.threads[t] == s.threads[t] && s1.threads.Keys == s.threads.Keys
            && (t in s.freed ==> t in s1.freed)
            && (HoldsMessage(s.threads[t]) && t !in s.freed ==> t !in s1.freed)
  {
    if Happens(s, u, c) {
      StepFrame(s, u, c);
      StepGood(s, u, c);
      ThreadHand(s, t);
      ThreadHand(s, u);
      var a := Next(s.sys, s.threads[u], c).0;
      if a.Free? {
        OwnsMeans(WorldOf(s), a.p, t, u, 0, 0);
      }
      hide Step, Next, MayDo, Hand, HandOf, Owns;
    } else {
      hide Happens;
      NoStep(s, u, c);
    }
  }

  lemma {:induction false} OthersKeep(s: State, t: Tid, work: Schedule)
    requires Good(s) && t in s.threads && Without(work, t)
    ensures var s1 := Run(s, work);
            && t in s1.threads && s1.threads[t] == s.threads[t] && s1.threads.Keys == s.threads.Keys
            && (t in s.freed ==> t in s1.freed)
            && (HoldsMessage(s.threads[t]) && t !in s.freed ==> t !in s1.freed)
    decreases |work|
  {
    hide Good, Step, HandOf;
    if work != [] {
      var n := |work| - 1;
      OthersKeep(s, t, work[..n]);
      RunGood(s, work[..n]);
      OtherStep(Run(s, work[..n]), t, work[n].0, work[n].1);
    }
  }

  // ----- once the message is passed on -----

  /** t has returned DISPATCH_DO_NOT_FREE for message p, which it does not hold. */
  ghost predicate Passed(s: State, t: Tid, p: Ptr) {
    && t in s.threads && s.threads[t].call.Done? && s.threads[t].frame == Returned(p, DISPATCH_DO_NOT_FREE)
    && p !in s.threads[t].held
  }

  /** Nobody but u holds p. */
  ghost predicate OnlyWith(s: State, u: Tid, p: Ptr) {
    forall x :: x in s.threads && x != u ==> p !in HandOf(s.threads[x])
  }

  /** Thread u is about to see to it that message p, passed on by t, is freed. */
  ghost predicate Chase(s: State, t: Tid, u: Tid, p: Ptr) {
    Sound(s) && Passed(s, t, p) && u in s.threads && u != t && OnlyWith(s, u, p)
  }

  lemma ChaseStep(s: State, t: Tid, u: Tid, p: Ptr, c: Choice)
    requires Chase(s, t, u, p)
    ensures Chase(Step(s, u, c), t, u, p) && (t in s.freed ==> t in Step(s, u, c).freed)
  {
    OtherStep(s, t, u, c);
    StepSound(s, u, c);
    var s1 := Step(s, u, c);
    forall x | x in s1.threads && x != u ensures s1.threads[x] == s.threads[x] {
      OtherStep(s, x, u, c);
    }
    hide Step, HandOf, Good, Tracked;
  }

  predicate IdleThread(th: Thread) {
    th.call.Done? && th.frame.NoFrame?
  }

  function FrameStage(frame: Frame): nat {
    match frame
    case NoFrame => 0
    case Disposing(_, _) => 1
    case Returned(_, _) => 2
    case Handling(_) => 3
    case Received(_, _) => 4
  }

  /** A thread finishes what it is doing. */
  function Finishing(th: Thread): Choice {
    if th.call.Done? && th.frame.Handling? then Return(DISPATCH_DO_NOT_FREE) else Continue(None)
  }

  lemma FinishingGoesOn(s: State, u: Tid)
    requires Good(s) && u in s.threads && !IdleThread(s.threads[u])
    ensures var s1, th := Step(s, u, Finishing(s.threads[u])), s.threads[u];
            && u in s1.threads
            && (FrameStage(s1.threads[u].frame) < FrameStage(th.frame)
                || (s1.threads[u].frame == th.frame && Rank(s1.sys, s1.threads[u].call) < Rank(s.sys, th.call)))
  {
    var th := s.threads[u];
    if !th.call.Done? {
      StepInside(s, u, None);
      StepRank(s.sys, th.call, None);
      SettleKeeps(th, CallStep(s.sys, th.call, None).1);
      hide CallStep, Rank, Step, Do;
    } else {
      hide Do, IsFault, IsStale, ReadsOf, FreedAfter;
    }
  }

  /** Any thread other than t can finish what it is doing, while t waits. */
  lemma {:induction false} FinishUp(s: State, t: Tid, u: Tid, p: Ptr) returns (work: Schedule)
    requires Chase(s, t, u, p)
    ensures Without(work, t)
    ensures var s1 := Run(s, work); Chase(s1, t, u, p) && IdleThread(s1.threads[u]) && (t in s.freed ==> t in s1.freed)
    decreases FrameStage(s.threads[u].frame), Rank(s.sys, s.threads[u].call)
  {
    hide Good, Tracked, Step, Rank, HandOf, Passed, OnlyWith;
    if IdleThread(s.threads[u]) {
      work := [];
    } else {
      var c := Finishing(s.threads[u]);
      FinishingGoesOn(s, u);
      ChaseStep(s, t, u, p, c);
      var rest := FinishUp(Step(s, u, c), t, u, p);
      work := [(u, c)] + rest;
      RunCons(s, u, c, rest);
    }
  }

  /** An idle thread takes the head of a queue and, finding no handler, frees it. */
  lemma RefuseOne(s: State, t: Tid, u: Tid, p: Ptr, q: QueueId) returns (work: Schedule)
    requires Chase(s, t, u, p) && IdleThread(s.threads[u]) && Items(s.sys, q) != []
    ensures Without(work, t)
    ensures var s1 := Run(s, work);
            && Chase(s1, t, u, p) && IdleThread(s1.threads[u]) && Items(s1.sys, q) == Items(s.sys, q)[1..]
            && (Items(s.sys, q)[0] == p ==> t in s1.freed)
  {
    var c := Receive(Receiver(0, Some(q), None, None));
    var s1 := Step(s, u, c);
    var s2 := Step(s1, u, GO);
    RefuseSteps(s, u, q);
    ChaseStep(s, t, u, p, c);
    ChaseStep(s1, t, u, p, GO);
    ChaseStep(s2, t, u, p, GO);
    work := RefuseSchedule(s, t, u, c);
    if Items(s.sys, q)[0] == p {
      ChasedFrame(s2, t, u, p);
      hide Step, Chase, Happens, Next, FrameOf, Items, IdleThread;
      FreeMarks(s2, t, u, GO, p);
    }
  }

  lemma RefuseSchedule(s: State, t: Tid, u: Tid, c: Choice) returns (work: Schedule)
    requires u != t
    ensures Without(work, t) && Run(s, work) == Step(Step(Step(s, u, c), u, GO), u, GO)
  {
    hide Step;
    var one: Schedule := [(u, GO)];
    work := [(u, c)] + ([(u, GO)] + one);
    RunCons(s, u, c, [(u, GO)] + one);
    RunCons(Step(s, u, c), u, GO, one);
    RunOne(Step(Step(s, u, c), u, GO), u, GO);
  }

  lemma ChasedFrame(s: State, t: Tid, u: Tid, p: Ptr)
    requires Chase(s, t, u, p)
    ensures t in s.threads && FrameOf(s.threads[t], p)
  {
    hide Sound, OnlyWith;
  }

  lemma RefuseSteps(s: State, u: Tid, q: QueueId)
    requires u in s.threads && IdleThread(s.threads[u]) && Items(s.sys, q) != []
    ensures var s1 := Step(s, u, Receive(Receiver(0, Some(q), None, None)));
            var s2 := Step(s1, u, GO);
            var s3 := Step(s2, u, GO);
            && u in s2.threads && Happens(s2, u, GO) && Next(s2.sys, s2.threads[u], GO).0 == Free(Items(s.sys, q)[0])
            && u in s3.threads && IdleThread(s3.threads[u]) && Items(s3.sys, q) == Items(s.sys, q)[1..]
  {
    var s1 := Step(s, u, Receive(Receiver(0, Some(q), None, None)));
    ReceivedBare(s, u, q);
    DispatchedNow(s1, u, Items(s.sys, q)[0], Receiver(0, Some(q), None, None));
    DisposedNow(Step(s1, u, GO), u, Items(s.sys, q)[0], DISPATCH_ERROR);
    var s2 := Step(s1, u, GO);
    StepFrame(s2, u, GO);
    ActItems(s.sys, Get(q), q);
    ActItems(s2.sys, Free(Items(s.sys, q)[0]), q);
    hide Step, Items;
  }

  lemma ReceivedBare(s: State, u: Tid, q: QueueId)
    requires u in s.threads && IdleThread(s.threads[u]) && Items(s.sys, q) != []
    ensures var r := Receiver(0, Some(q), None, None);
            var s1 := Step(s, u, Receive(r));
            && s1.sys == Do(s.sys, Get(q)) && u in s1.threads && s1.threads[u].call.Done?
            && s1.threads[u].frame == Received(Items(s.sys, q)[0], r)
  {
  }

  /** Freeing the message of t is noticed. */
  lemma FreeMarks(s: State, t: Tid, u: Tid, c: Choice, p: Ptr)
    requires Happens(s, u, c) && Next(s.sys, s.threads[u], c).0 == Free(p)
    requires t in s.threads && t != u && FrameOf(s.threads[t], p)
    ensures t in Step(s, u, c).freed
  {
    StepFrame(s, u, c);
    hide Step, Next, MayDo;
  }

  lemma {:induction false} Drain(s: State, t: Tid, u: Tid, p: Ptr, q: QueueId) returns (work: Schedule)
    requires Chase(s, t, u, p) && IdleThread(s.threads[u]) && p in Items(s.sys, q)
    ensures Without(work, t) && t in Run(s, work).freed
    decreases |Items(s.sys, q)|
  {
    hide Sound, Passed, OnlyWith, Items, IdleThread;
    var first := RefuseOne(s, t, u, p, q);
    if Items(s.sys, q)[0] == p {
      work := first;
    } else {
      var rest := Drain(Run(s, first), t, u, p, q);
      work := first + rest;
      RunConcat(s, first, rest);
    }
  }

  /** Where a live message that its handler does not hold can be */
  lemma Whereabouts(s: State, t: Tid, p: Ptr) returns (w: Owner)
    requires Sound(s) && Passed(s, t, p) && t !in s.freed
    ensures match w
            case InHand(u) => u in s.threads && u != t && p in HandOf(s.threads[u]) && OnlyWith(s, u, p)
            case InQueue(q) => p in Items(s.sys, q) && forall u :: OnlyWith(s, u, p)
  {
    var owner :| Assigns(WorldOf(s), owner);
    w := owner[p];
    hide Hand, Items, NoDuplicates, HandOf;
    forall x | x in s.threads ensures p in HandOf(s.threads[x]) <==> owner[p] == InHand(x) {
      ThreadHand(s, x);
      assert HandIs(WorldOf(s), owner, x, p);
    }
    match w
    case InHand(u) =>
      assert HandIs(WorldOf(s), owner, u, p);
      assert p in Hand(WorldOf(s), u);
      HandMeans(s, u, p);
      NotMine(s, t, p);
    case InQueue(q) =>
      assert QueueIs(WorldOf(s), owner, q, p);
  }

  lemma HandMeans(s: State, u: Tid, p: Ptr)
    requires p in Hand(WorldOf(s), u)
    ensures u in s.threads
  {
  }

  lemma NotMine(s: State, t: Tid, p: Ptr)
    requires Good(s) && Passed(s, t, p)
    ensures p !in HandOf(s.threads[t])
  {
  }

  /** A message that was passed on can be freed before its options are read, if anybody else runs. */
  lemma FreedInTime(s: State, t: Tid, p: Ptr, other: Tid) returns (work: Schedule)
    requires Sound(s) && Passed(s, t, p) && other in s.threads && other != t
    ensures Without(work, t) && t in Run(s, work).freed
  {
    hide Good, Tracked, HandOf, Items, Step;
    if t in s.freed {
      work := [];
    } else {
      var w := Whereabouts(s, t, p);
      var u := if w.InHand? then w.t else other;
      var first := FinishUp(s, t, u, p);
      var s1 := Run(s, first);
      if t in s1.freed {
        work := first;
      } else {
        var rest := FreedByIdle(s1, t, u, p);
        work := first + rest;
        RunConcat(s, first, rest);
      }
    }
  }

  lemma FreedByIdle(s: State, t: Tid, u: Tid, p: Ptr) returns (work: Schedule)
    requires Chase(s, t, u, p) && IdleThread(s.threads[u]) && t !in s.freed
    ensures Without(work, t) && t in Run(s, work).freed
  {
    var w := Whereabouts(s, t, p);
    match w
    case InHand(x) =>
      assert x == u;
      IdleHand(s, u, p);
      ReleaseFrees(s, u, p);
      FreeMarks(s, t, u, Release(p), p);
      work := [(u, Release(p))];
      RunOne(s, u, Release(p));
    case InQueue(q) =>
      work := Drain(s, t, u, p, q);
  }

  lemma IdleHand(s: State, u: Tid, p: Ptr)
    requires Good(s) && u in s.threads && IdleThread(s.threads[u]) && p in HandOf(s.threads[u])
    ensures p in s.threads[u].held
  {
  }

  lemma ReleaseFrees(s: State, u: Tid, p: Ptr)
    requires u in s.threads && IdleThread(s.threads[u]) && p in s.threads[u].held
    ensures Happens(s, u, Release(p)) && Next(s.sys, s.threads[u], Release(p)).0 == Free(p)
  {
  }

  // ----- the exact rule -----

  /** The handler of t returns res now. Whatever the others do until msg_receiver goes on, the options that
      it reads then are those of the message that it received. */
  ghost predicate ReadIsSafe(s: State, t: Tid, res: DispatchResult) {
    forall work :: Without(work, t) ==> !IsStale(Run(Step(s, t, Return(res)), work), t, GO)
  }

  /** Nobody has freed the message, and the handler holds it. */
  predicate StillHolds(s: State, t: Tid) {
    t in s.threads && s.threads[t].frame.Handling? && t !in s.freed && s.threads[t].frame.p in s.threads[t].held
  }

  lemma ReturnStep(s: State, t: Tid, res: DispatchResult)
    requires Good(s) && Happens(s, t, Return(res))
    ensures var s1, th := Step(s, t, Return(res)), s.threads[t];
            && s1.freed == s.freed && s1.threads.Keys == s.threads.Keys
            && th.frame.Handling? && th.call.Done? && s1.threads[t].call.Done?
            && s1.threads[t].frame == Returned(th.frame.p, res)
            && (th.frame.p in th.held <==> th.frame.p in HandOf(s1.threads[t]))
            && (res != DISPATCH_DO_NOT_FREE ==> th.frame.p in th.held)
  {
    assert ThreadOk(s.threads[t]);
  }

  /** A handler may return exactly if it still holds its message, unless nobody else runs at all: then it
      is enough that the message has not been freed. */
  lemma SafeExactlyIfHeld(s: State, t: Tid, res: DispatchResult)
    requires Sound(s) && Happens(s, t, Return(res))
    ensures ReadIsSafe(s, t, res) <==> StillHolds(s, t) || (t !in s.freed && s.threads.Keys == {t})
  {
    var s1, p := Step(s, t, Return(res)), s.threads[t].frame.p;
    ReturnStep(s, t, res);
    StepSound(s, t, Return(res));
    hide Step, Good, Tracked, MayDo;
    if t in s.freed {
      assert Without([], t) && Run(s1, []) == s1;
    } else if StillHolds(s, t) {
      HeldIsSafe(s, t, res);
    } else if s.threads.Keys == {t} {
      AloneIsSafe(s, t, res);
    } else {
      var other :| other in s.threads && other != t;
      var work := FreedInTime(s1, t, p, other);
      StillReturned(s1, t, work);
    }
  }

  lemma StillReturned(s: State, t: Tid, work: Schedule)
    requires Sound(s) && t in s.threads && Without(work, t)
    ensures t in Run(s, work).threads && Run(s, work).threads[t] == s.threads[t]
  {
    hide Good, Run;
    OthersKeep(s, t, work);
  }

  lemma HeldIsSafe(s: State, t: Tid, res: DispatchResult)
    requires Sound(s) && Happens(s, t, Return(res)) && StillHolds(s, t)
    ensures ReadIsSafe(s, t, res)
  {
    var s1 := Step(s, t, Return(res));
    ReturnStep(s, t, res);
    StepSound(s, t, Return(res));
    hide Step, Good, Tracked, Run, HandOf;
    forall work | Without(work, t) ensures !IsStale(Run(s1, work), t, GO) {
      OthersKeep(s1, t, work);
    }
  }

  lemma {:induction false} NobodyElse(s: State, t: Tid, work: Schedule)
    requires s.threads.Keys == {t} && Without(work, t)
    ensures Run(s, work) == s
    decreases |work|
  {
    hide Step, MayDo;
    if work != [] {
      NobodyElse(s, t, work[..|work| - 1]);
      NoStep(s, work[|work| - 1].0, work[|work| - 1].1);
    }
  }

  lemma AloneIsSafe(s: State, t: Tid, res: DispatchResult)
    requires Good(s) && Happens(s, t, Return(res)) && t !in s.freed && s.threads.Keys == {t}
    ensures ReadIsSafe(s, t, res)
  {
    var s1 := Step(s, t, Return(res));
    ReturnStep(s, t, res);
    hide Step, Run, Good;
    forall work | Without(work, t) ensures !IsStale(Run(s1, work), t, GO) {
      NobodyElse(s1, t, work);
    }
  }

  /** The address of a freed message may be granted again, to anybody and with any contents. The read of the
      options is stale all the same, although the address is live. */
  lemma RegrantedIsStale(s: State, t: Tid, u: Tid, p: Ptr, size: nat)
    requires Passed(s, t, p) && t in s.freed && p !in s.sys.heap && u in s.threads && u != t && InOwnCode(s.threads[u])
    ensures var s1 := Step(s, u, Take(p, size));
            p in s1.sys.heap && p in s1.threads[u].held && IsStale(s1, t, GO)
  {
  }

  /** The rule for every run from power-up: what msg_receiver reads after the handler has returned is, in
      every continuation, the message that it received, exactly if the handler holds it when it returns. */
  lemma StaleIff(s: State, schedule: Schedule, t: Tid, res: DispatchResult)
    requires Start(s) && Happens(Run(s, schedule), t, Return(res))
    ensures var now := Run(s, schedule);
            ReadIsSafe(now, t, res) <==> StillHolds(now, t) || (t !in now.freed && now.threads.Keys == {t})
  {
    StartSound(s);
    RunSound(s, schedule);
    hide Run, Start, Sound, Happens, StillHolds;
    SafeExactlyIfHeld(Run(s, schedule), t, res);
  }

  // ----- handlers that keep the rule -----

  /** Every handler that returns still holds its message. */
  predicate KeepsMessages(s: State, schedule: Schedule)
    decreases |schedule|
  {
    schedule == [] ||
    var n := |schedule| - 1;
    KeepsMessages(s, schedule[..n]) && KeepsMessage(Run(s, schedule[..n]), schedule[n].0, schedule[n].1)
  }

  predicate KeepsMessage(s: State, t: Tid, c: Choice) {
    Happens(s, t, c) && c.Return? ==> StillHolds(s, t)
  }

  /** Until its options have been read, the message is in hand and has not been freed. */
  predicate KeptBy(s: State, t: Tid)
    requires t in s.threads
  {
    var th := s.threads[t];
    th.frame.Returned? ==> th.call.Done? && t !in s.freed && th.frame.p in HandOf(th)
  }

  ghost predicate Kept(s: State) {
    forall t :: t in s.threads ==> KeptBy(s, t)
  }

  lemma OwnStepKeeps(s: State, t: Tid, c: Choice)
    requires Good(s) && Happens(s, t, c) && KeptBy(s, t) && KeepsMessage(s, t, c)
    ensures t in Step(s, t, c).threads && KeptBy(Step(s, t, c), t) && Step(s, t, c).stale == s.stale
  {
    if c.Return? {
      ReturnStep(s, t, c.res);
      hide Step, Good, HandOf, MayDo;
      NoStaleRead(s, t, c);
    } else {
      OnlyReturns(s, t, c);
      NoStaleRead(s, t, c);
      hide Step, Good, HandOf, MayDo;
    }
  }

  lemma NoStaleRead(s: State, t: Tid, c: Choice)
    requires t in s.threads ==> KeptBy(s, t)
    ensures Step(s, t, c).stale == s.stale
  {
    hide HandOf, Next, MayDo, Do, FreedAfter, IsFault;
  }

  lemma OnlyReturns(s: State, t: Tid, c: Choice)
    requires Happens(s, t, c) && KeptBy(s, t) && !c.Return?
    ensures t in Step(s, t, c).threads && !Step(s, t, c).threads[t].frame.Returned?
  {
    hide CallStep, HandOf, Do, FreedAfter, IsFault, IsStale, ReadsOf;
  }

  lemma StepKeeps(s: State, t: Tid, c: Choice)
    requires Sound(s) && Kept(s) && KeepsMessage(s, t, c)
    ensures Kept(Step(s, t, c)) && Step(s, t, c).stale == s.stale
  {
    hide Good, Tracked, HandOf, MayDo, Step;
    if Happens(s, t, c) {
      OwnStepKeeps(s, t, c);
      var s1 := Step(s, t, c);
      StepThreads(s, t, c);
      forall u | u in s1.threads && u != t ensures KeptBy(s1, u) {
        OtherStep(s, u, t, c);
        assert KeptBy(s, u);
      }
    } else {
      NoStep(s, t, c);
    }
  }

  lemma StepThreads(s: State, t: Tid, c: Choice)
    ensures Step(s, t, c).threads.Keys == s.threads.Keys
  {
    hide Next, MayDo, Do, FreedAfter, IsFault, IsStale, ReadsOf;
  }

  lemma {:induction false} RunKeeps(s: State, schedule: Schedule)
    requires Sound(s) && Kept(s) && KeepsMessages(s, schedule)
    ensures Kept(Run(s, schedule)) && Run(s, schedule).stale == s.stale
    decreases |schedule|
  {
    hide Sound, Kept, Step, KeepsMessage;
    if schedule != [] {
      var n := |schedule| - 1;
      RunKeeps(s, schedule[..n]);
      RunSound(s, schedule[..n]);
      StepKeeps(Run(s, schedule[..n]), schedule[n].0, schedule[n].1);
    }
  }

  /** If all handlers keep the rule, no run ever reads the options of a message that was freed. */
  lemma NeverStale(s: State, schedule: Schedule)
    requires Start(s) && KeepsMessages(s, schedule)
    ensures Run(s, schedule).stale == s.stale
  {
    StartSound(s);
    hide Run, KeepsMessages, Good, Tracked;
    RunKeeps(s, schedule);
  }

  // ----- handlers that pass their message on -----

  /** The calls that queue or free their message, and never hand it back */
  predicate GivesAway(c: Choice, p: Ptr) {
    match c
    case Send(p', mode) => p' == p && mode == Wrapped
    case SendTo(p', _, mode) => p' == p && mode == Wrapped
    case UnicastMsg(p', mode) => p' == p && mode == Wrapped
    case BroadcastMsg(p', mode) => p' == p && mode == Wrapped
    case Targeted(p', _) => p' == p
    case Reply(p', _) => p' == p
    case Release(p') => p' == p
    case _ => false
  }

  predicate GivenCall(call: Call) {
    call.Done? || (OnMessage(call) && call.mode == Wrapped)
  }

  /** The handler has given its message away, and is perhaps still inside the call. */
  predicate Given(s: State, t: Tid, p: Ptr) {
    t in s.threads && s.threads[t].frame == Handling(p) && p !in s.threads[t].held && GivenCall(s.threads[t].call)
  }

  lemma GivenStays(s: Sys, call: Call, grant: Option<Ptr>)
    requires OnMessage(call) && !call.Done? && call.mode == Wrapped
    ensures var next := CallStep(s, call, grant).1;
            GivenCall(next) && (next.Done? ==> next.back == {})
  {
  }

  lemma GiveStep(s: State, t: Tid, p: Ptr, c: Choice)
    requires Happens(s, t, c) && s.threads[t].frame == Handling(p) && GivesAway(c, p)
    ensures Given(Step(s, t, c), t, p)
  {
    hide Do, FreedAfter, IsFault, IsStale, ReadsOf;
  }

  lemma GoStep(s: State, t: Tid, p: Ptr, grant: Option<Ptr>)
    requires Given(s, t, p)
    ensures Given(Step(s, t, Continue(grant)), t, p)
  {
    var call := s.threads[t].call;
    if !call.Done? {
      GivenStays(s.sys, call, grant);
      StepInside(s, t, grant);
      hide CallStep, Step;
    } else {
      hide CallStep, Do, FreedAfter, IsFault, IsStale, ReadsOf;
    }
  }

  /** A schedule in which t does no more than go on inside the framework */
  ghost predicate OnlyGoesOn(work: Schedule, t: Tid) {
    forall i :: 0 <= i < |work| && work[i].0 == t ==> work[i].1.Continue?
  }

  lemma {:induction false} GivenRun(s: State, t: Tid, p: Ptr, work: Schedule)
    requires Good(s) && Given(s, t, p) && OnlyGoesOn(work, t)
    ensures Given(Run(s, work), t, p) && Run(s, work).threads.Keys == s.threads.Keys
    decreases |work|
  {
    hide Good, Step, Given;
    if work != [] {
      var n := |work| - 1;
      var before, u, c := Run(s, work[..n]), work[n].0, work[n].1;
      GivenRun(s, t, p, work[..n]);
      RunGood(s, work[..n]);
      StepThreads(before, u, c);
      if u == t {
        GoStep(before, t, p, c.grant);
      } else {
        GivenOther(before, t, p, u, c);
      }
    }
  }

  lemma GivenOther(s: State, t: Tid, p: Ptr, u: Tid, c: Choice)
    requires Good(s) && Given(s, t, p) && u != t
    ensures Given(Step(s, u, c), t, p)
  {
    hide Good, Step;
    OtherStep(s, t, u, c);
  }

  /** sysmsg_reply, sysmsg_send and the like with the handler's own message, and DISPATCH_DO_NOT_FREE then,
      are never safe where a second thread runs: whoever gets the message or is sent it, whatever waits in
      the queues, and whatever the others do during the call, the options of a freed message may be read. */
  lemma ReplyRace(s: State, t: Tid, p: Ptr, c: Choice, work: Schedule)
    requires Sound(s) && Happens(s, t, c) && s.threads[t].frame == Handling(p) && GivesAway(c, p)
    requires OnlyGoesOn(work, t) && s.threads.Keys != {t}
    requires var now := Run(Step(s, t, c), work); t in now.threads && now.threads[t].call.Done?
    ensures var now := Run(Step(s, t, c), work);
            Happens(now, t, Return(DISPATCH_DO_NOT_FREE)) && !ReadIsSafe(now, t, DISPATCH_DO_NOT_FREE)
  {
    GiveStep(s, t, p, c);
    StepSound(s, t, c);
    StepThreads(s, t, c);
    hide Step, Run, Good, Tracked, ReadIsSafe, Given, Happens;
    GivenRun(Step(s, t, c), t, p, work);
    RunSound(Step(s, t, c), work);
    GivenIsUnsafe(Run(Step(s, t, c), work), t, p);
  }

  lemma GivenIsUnsafe(s: State, t: Tid, p: Ptr)
    requires Sound(s) && Given(s, t, p) && s.threads[t].call.Done? && s.threads.Keys != {t}
    ensures Happens(s, t, Return(DISPATCH_DO_NOT_FREE)) && !ReadIsSafe(s, t, DISPATCH_DO_NOT_FREE)
  {
    hide Good, Tracked, ReadIsSafe;
    SafeExactlyIfHeld(s, t, DISPATCH_DO_NOT_FREE);
  }
}
