/** The buffer pool beneath the threads: what its statistics say about the live messages. */
module Accounting {
  import opened Messages
  import opened Calls
  import opened Ownership
  import opened Mailboxes
  import opened Threads
  import P = BufferPool

  /** The pool with its heap and statistics, and the threads with their messages */
  datatype Joint = Joint(pool: P.Pool, world: World)

  /** A critical section of the pool alone, or an access of a thread. A thread gets its buffer when it has
      been counted, and gives it up when that is taken back: the allocation on the heap comes before, and
      the return to the heap after, and anything of others may come between. */
  datatype Event = PoolOnly(e: P.Event) | Access(t: Tid, a: Action)

  ghost predicate Fits(j: Joint, ev: Event) {
    match ev
    case PoolOnly(e) => e.HeapAlloc? || e.HeapFree? || e.TakeFailStats?
    case Access(_, a) => a.Alloc? ==> P.IsBlock(j.pool, a.p, P.Allocated)
  }

  ghost function After(j: Joint, ev: Event): Joint {
    match ev
    case PoolOnly(e) => j.(pool := P.Step(j.pool, e))
    case Access(t, a) => Joint(PoolAfter(j.pool, a), Act(j.world, t, a))
  }

  ghost function PoolAfter(pool: P.Pool, a: Action): P.Pool {
    if a.Alloc? then P.Step(pool, P.TakeStats(a.p)) else if a.Free? then P.Step(pool, P.GiveStats(a.p)) else pool
  }

  ghost function RunBoth(j: Joint, events: seq<Event>): Joint
    decreases |events|
  {
    if events == [] then j else After(RunBoth(j, events[..|events| - 1]), events[|events| - 1])
  }

  ghost predicate AllFit(j: Joint, events: seq<Event>)
    decreases |events|
  {
    events == [] ||
    var n := |events| - 1;
    AllFit(j, events[..n]) && Fits(RunBoth(j, events[..n]), events[n])
  }

  /** The accesses of the threads among the events */
  function Accesses(events: seq<Event>): Trace
    decreases |events|
  {
    if events == [] then []
    else
      var n := |events| - 1;
      Accesses(events[..n]) + if events[n].Access? then [(events[n].t, events[n].a)] else []
  }

  /** The live messages are the blocks that are in use: counted, and not yet given back. */
  ghost predicate Matched(j: Joint) {
    forall p: Ptr :: p in j.world.sys.heap <==> P.IsBlock(j.pool, p, P.Counted)
  }

  lemma PoolOnlyMatches(j: Joint, e: P.Event)
    requires Matched(j) && (e.HeapAlloc? || e.HeapFree? || e.TakeFailStats?)
    ensures Matched(After(j, PoolOnly(e)))
  {
    hide P.Total, P.TakeFailStat;
  }

  lemma HeldIsLive(w: World, t: Tid, p: Ptr)
    requires Owns(w) && p in Hand(w, t)
    ensures p in w.sys.heap
  {
    OwnsMeans(w, p, t, t, 0, 0);
    hide Owns, Hand, Items;
  }

  lemma AccessMatches(j: Joint, t: Tid, a: Action)
    requires Matched(j) && P.Accounted(j.pool) && Owns(j.world) && Legal(j.world.sys, Hand(j.world, t), a)
    requires Fits(j, Access(t, a))
    ensures Matched(After(j, Access(t, a)))
  {
    match a
    case Write(p, _) => HeldIsLive(j.world, t, p);
    case Free(p) => HeldIsLive(j.world, t, p);
    case _ =>
    hide P.Total, P.TakeStat, P.GiveStat, Owns, Hand, HandAfter;
  }

  lemma AccessesAppend(j: Joint, events: seq<Event>)
    requires events != []
    ensures var n := |events| - 1;
            var before := ActAll(j.world, Accesses(events[..n]));
            if events[n].PoolOnly? then Accesses(events) == Accesses(events[..n])
            else
              && ActAll(j.world, Accesses(events)) == Act(before, events[n].t, events[n].a)
              && (AllLegal(j.world, Accesses(events)) ==>
                    && AllLegal(j.world, Accesses(events[..n]))
                    && Legal(before.sys, Hand(before, events[n].t), events[n].a))
  {
    var n := |events| - 1;
    hide Act, Legal, Hand;
    if events[n].Access? {
      assert Accesses(events)[..|Accesses(events[..n])|] == Accesses(events[..n]);
    } else {
      assert Accesses(events[..n]) + [] == Accesses(events[..n]);
    }
  }

  /** Under every interleaving of the critical sections of the pool with the accesses of the threads */
  lemma {:induction false} AlwaysMatched(j: Joint, events: seq<Event>)
    requires Matched(j) && P.Initial(j.pool) && Owns(j.world)
    requires AllFit(j, events) && AllLegal(j.world, Accesses(events))
    ensures var now := RunBoth(j, events);
            Matched(now) && P.Accounted(now.pool) && Owns(now.world) && now.world == ActAll(j.world, Accesses(events))
    decreases |events|
  {
    hide Matched, Owns, P.Accounted, P.Initial, After, Legal, Hand, Act, Fits, Accesses, ActAll, AllLegal;
    if events == [] {
      P.InitiallyAccounted(j.pool);
      NoAccesses(j.world);
    } else {
      var n := |events| - 1;
      var before := RunBoth(j, events[..n]);
      AccessesAppend(j, events);
      AlwaysMatched(j, events[..n]);
      AfterMatched(before, events[n]);
    }
  }

  lemma NoAccesses(w: World)
    ensures ActAll(w, Accesses([])) == w
  {
  }

  lemma AfterMatched(j: Joint, ev: Event)
    requires Matched(j) && P.Accounted(j.pool) && Owns(j.world) && Fits(j, ev)
    requires ev.Access? ==> Legal(j.world.sys, Hand(j.world, ev.t), ev.a)
    ensures var now := After(j, ev);
            && Matched(now) && P.Accounted(now.pool) && Owns(now.world)
            && now.world == if ev.Access? then Act(j.world, ev.t, ev.a) else j.world
  {
    hide Matched, Owns, P.Accounted, Legal, Hand, Act, P.Step;
    match ev
    case PoolOnly(e) =>
      PoolOnlyMatches(j, e);
      P.StepAccounted(j.pool, e);
    case Access(t, a) =>
      AccessMatches(j, t, a);
      ActOwns(j.world, t, a);
      if a.Alloc? {
        P.StepAccounted(j.pool, P.TakeStats(a.p));
      } else if a.Free? {
        P.StepAccounted(j.pool, P.GiveStats(a.p));
      }
  }

  /** The blocks that are counted */
  function InUse(blocks: P.Blocks): set<Ptr> {
    set p | p in blocks && blocks[p].state.Counted?
  }

  lemma InUseWithout(blocks: P.Blocks, p: Ptr)
    requires p in blocks
    ensures |InUse(blocks)| == |InUse(blocks - {p})| + if blocks[p].state.Counted? then 1 else 0
  {
    var rest := InUse(blocks - {p});
    assert p !in rest;
    assert InUse(blocks) == if blocks[p].state.Counted? then rest + {p} else rest;
  }

  lemma {:induction false} NumberIsInUse(blocks: P.Blocks)
    ensures P.Total(P.Number, blocks) == |InUse(blocks)|
    decreases |blocks|
  {
    if blocks == map[] {
      assert InUse(blocks) == {};
    } else {
      var p :| p in blocks;
      P.TotalWithout(P.Number, blocks, p);
      InUseWithout(blocks, p);
      hide P.Total, InUse;
      NumberIsInUse(blocks - {p});
    }
  }

  /** For every run of the threads, on every behaviour of the pool that serves its accesses: between any two
      critical sections the statistics count exactly the live messages. Blocks that the heap has granted but
      the statistics do not know yet, or that they have let go but the heap has not, are not among them. */
  lemma StatisticsCountMessages(s: State, schedule: Schedule, pool: P.Pool, events: seq<Event>)
    requires Start(s) && P.Initial(pool) && Accesses(events) == TraceOf(s, schedule)
    requires AllFit(Joint(pool, WorldOf(s)), events)
    ensures var now := RunBoth(Joint(pool, WorldOf(s)), events).pool;
            && now.stats.curAllocs == |Run(s, schedule).sys.heap|
            && forall p: Ptr :: p in Run(s, schedule).sys.heap <==> P.IsBlock(now, p, P.Counted)
  {
    var j := Joint(pool, WorldOf(s));
    StartGood(s);
    RunGood(s, schedule);
    assert Matched(j);
    assert Owns(j.world);
    hide Start, Good, Run, P.Initial, AllFit, TraceOf, Accesses, ActAll, AllLegal, Owns, RunBoth, P.Total, WorldOf;
    AlwaysMatched(j, events);
    var now := RunBoth(j, events);
    SameSystem(Run(s, schedule));
    NumberIsInUse(now.pool.blocks);
    assert now.world.sys.heap.Keys == InUse(now.pool.blocks);
    assert |now.world.sys.heap| == |now.world.sys.heap.Keys|;
  }

  lemma SameSystem(s: State)
    ensures WorldOf(s).sys == s.sys
  {
  }
}
