/** The buffer pool of lib/framework/buffer_pool.c with its statistics (CONFIG_BUFFER_POOL_STATS). Heap
    and statistics are updated in separate critical sections, so every interleaving of the two counts. */
module BufferPool {
  import opened Messages

  const BPH_SIZE := 4
  const TWO31 := 0x8000_0000
  const TWO32 := 0x1_0000_0000

  // ----- 32-bit arithmetic, as C mixes int and size_t -----

  function ToUnsigned(i: int): nat {
    i % TWO32
  }

  function ToInt(u: nat): int {
    if u % TWO32 < TWO31 then u % TWO32 else u % TWO32 - TWO32
  }

  /** MIN and MAX of an int and a size_t compare both as unsigned. */
  function MinUnsigned(a: int, b: nat): nat {
    if ToUnsigned(a) < b then ToUnsigned(a) else b
  }

  function MaxUnsigned(a: int, b: nat): nat {
    if ToUnsigned(a) > b then ToUnsigned(a) else b
  }

  function Min(a: int, b: int): int {
    if a < b then a else b
  }

  function Max(a: int, b: int): int {
    if a > b then a else b
  }

  // ----- the statistics, one critical section each -----

  datatype Stats = Stats(
    spaceAvailable: int, minSpaceAvailable: int, maxSize: int, minSize: int,
    allocs: int, curAllocs: int, maxAllocs: int, takeFailures: int, lastFailSize: int,
    windex: nat, window: seq<nat>)

  function InitialStats(poolSize: nat, window: seq<nat>): Stats {
    Stats(poolSize, poolSize, 0, poolSize, 0, 0, 0, 0, 0, 0, window)
  }

  function TakeStat(s: Stats, size: nat): Stats
    requires s.window == [] || s.windex < |s.window|
  {
    var space := ToInt(ToUnsigned(ToUnsigned(s.spaceAvailable) - size));
    s.(spaceAvailable := space,
       minSpaceAvailable := Min(s.minSpaceAvailable, space),
       minSize := ToInt(MinUnsigned(s.minSize, size)),
       maxSize := ToInt(MaxUnsigned(s.maxSize, size)),
       allocs := s.allocs + 1,
       curAllocs := s.curAllocs + 1,
       maxAllocs := Max(s.maxAllocs, s.curAllocs + 1),
       windex := if s.window == [] then s.windex else if s.windex + 1 >= |s.window| then 0 else s.windex + 1,
       window := if s.window == [] then [] else s.window[s.windex := size % 0x1_0000])
  }

  function TakeFailStat(s: Stats, size: nat): Stats {
    s.(takeFailures := s.takeFailures + 1,
       lastFailSize := ToInt(size),
       minSpaceAvailable :=
         ToInt(MinUnsigned(s.minSpaceAvailable, ToUnsigned(ToUnsigned(s.spaceAvailable) - size))))
  }

  function GiveStat(s: Stats, header: nat): Stats {
    s.(spaceAvailable := s.spaceAvailable + header, curAllocs := s.curAllocs - 1)
  }

  // ----- heap and statistics together -----

  /** Allocated: between k_heap_alloc and take_stat_handler. Counted: in use. Given: between
      give_stat_handler and k_heap_free. */
  datatype BlockState = Allocated | Counted | Given
  datatype Block = Block(size: nat, header: nat, state: BlockState)
  type Blocks = map<Ptr, Block>

  datatype Measure = Memory | Bytes | Number

  function Weight(m: Measure, b: Block): nat {
    match m
    case Memory => b.size + BPH_SIZE
    case Bytes => if b.state.Counted? then b.size else 0
    case Number => if b.state.Counted? then 1 else 0
  }

  ghost function Total(m: Measure, blocks: Blocks): nat {
    if blocks == map[] then 0
    else
      var p :| p in blocks;
      Weight(m, blocks[p]) + Total(m, blocks - {p})
  }

  datatype Pool = Pool(poolSize: nat, stats: Stats, blocks: Blocks)

  ghost predicate HeapGrants(s: Pool, p: Ptr, size: nat) {
    p !in s.blocks && Total(Memory, s.blocks) + size + BPH_SIZE <= s.poolSize
  }

  datatype Event =
    | HeapAlloc(p: Ptr, size: nat)
    | TakeStats(p: Ptr)
    | TakeFailStats(size: nat)
    | GiveStats(p: Ptr)
    | HeapFree(p: Ptr)

  predicate IsBlock(s: Pool, p: Ptr, state: BlockState) {
    p in s.blocks && s.blocks[p].state == state
  }

  /** An event that cannot happen changes nothing: the heap grants what fits, a block is counted once
      after it was allocated, given back once, and then returned to the heap. */
  ghost function Step(s: Pool, e: Event): Pool {
    match e
    case HeapAlloc(p, size) =>
      if HeapGrants(s, p, size) then s.(blocks := s.blocks[p := Block(size, 0, Allocated)]) else s
    case TakeStats(p) =>
      if IsBlock(s, p, Allocated) && (s.stats.window == [] || s.stats.windex < |s.stats.window|)
      then
        var size := s.blocks[p].size;
        s.(stats := TakeStat(s.stats, size), blocks := s.blocks[p := Block(size, size % 0x1_0000, Counted)])
      else s
    case TakeFailStats(size) =>
      if size < TWO32 then s.(stats := TakeFailStat(s.stats, size)) else s
    case GiveStats(p) =>
      if IsBlock(s, p, Counted)
      then s.(stats := GiveStat(s.stats, s.blocks[p].header), blocks := s.blocks[p := s.blocks[p].(state := Given)])
      else s
    case HeapFree(p) =>
      if IsBlock(s, p, Given) then s.(blocks := s.blocks - {p}) else s
  }

  ghost function Run(s: Pool, events: seq<Event>): Pool
    decreases |events|
  {
    if events == [] then s else Step(Run(s, events[..|events| - 1]), events[|events| - 1])
  }

  ghost predicate Initial(s: Pool) {
    s.blocks == map[] && s.stats == InitialStats(s.poolSize, s.stats.window) && s.poolSize < 0x1_0000
  }

  // ----- totals -----

  lemma {:induction false} TotalWithout(m: Measure, blocks: Blocks, p: Ptr)
    requires p in blocks
    ensures Total(m, blocks) == Weight(m, blocks[p]) + Total(m, blocks - {p})
    decreases |blocks|
  {
    hide Weight;
    var q :| q in blocks && Total(m, blocks) == Weight(m, blocks[q]) + Total(m, blocks - {q});
    if q != p {
      TotalWithout(m, blocks - {q}, p);
      TotalWithout(m, blocks - {p}, q);
      assert blocks - {q} - {p} == blocks - {p} - {q};
    }
  }

  lemma TotalUpdate(m: Measure, blocks: Blocks, p: Ptr, b: Block)
    ensures Total(m, blocks[p := b]) == Total(m, blocks - {p}) + Weight(m, b)
    ensures p in blocks ==> Total(m, blocks) == Total(m, blocks - {p}) + Weight(m, blocks[p])
    ensures p !in blocks ==> Total(m, blocks) == Total(m, blocks - {p})
  {
    hide Weight, Total;
    assert blocks[p := b] - {p} == blocks - {p};
    TotalWithout(m, blocks[p := b], p);
    if p in blocks {
      TotalWithout(m, blocks, p);
    } else {
      assert blocks - {p} == blocks;
    }
  }

  lemma {:induction false} CountedFitsInMemory(blocks: Blocks)
    ensures Total(Bytes, blocks) + BPH_SIZE * Total(Number, blocks) <= Total(Memory, blocks)
    decreases |blocks|
  {
    if blocks != map[] {
      var p :| p in blocks;
      TotalWithout(Bytes, blocks, p);
      TotalWithout(Number, blocks, p);
      TotalWithout(Memory, blocks, p);
      CountedFitsInMemory(blocks - {p});
    }
  }

  // ----- accounting -----

  /** The books are right at every point between two critical sections: the free space is the pool size
      less the counted blocks, and the low-water mark lies between 0 and the free space. */
  ghost predicate Accounted(s: Pool) {
    && s.poolSize < 0x1_0000
    && Total(Memory, s.blocks) <= s.poolSize
    && (forall p :: p in s.blocks && s.blocks[p].state.Counted? ==> s.blocks[p].header == s.blocks[p].size)
    && s.stats.spaceAvailable == s.poolSize - Total(Bytes, s.blocks)
    && s.stats.curAllocs == Total(Number, s.blocks)
    && 0 <= s.stats.minSpaceAvailable <= s.stats.spaceAvailable <= s.poolSize
    && (s.stats.window == [] || s.stats.windex < |s.stats.window|)
  }

  /** The unsigned comparison in the failure path keeps the mark when the request was larger than the
      free space, because the difference then wraps to more than the free space. */
  lemma TakeFailKeepsMark(s: Stats, size: nat)
    requires 0 <= s.minSpaceAvailable <= s.spaceAvailable < TWO31 && size < TWO32
    ensures TakeFailStat(s, size).minSpaceAvailable
         == if size <= s.spaceAvailable then Min(s.minSpaceAvailable, s.spaceAvailable - size)
            else s.minSpaceAvailable
  {
  }

  lemma TakeStatArithmetic(s: Stats, size: nat)
    requires s.window == [] || s.windex < |s.window|
    requires 0 <= size <= s.spaceAvailable < TWO31
    ensures TakeStat(s, size).spaceAvailable == s.spaceAvailable - size
    ensures 0 <= s.minSize < TWO31 ==> TakeStat(s, size).minSize == Min(s.minSize, size)
    ensures 0 <= s.maxSize < TWO31 ==> TakeStat(s, size).maxSize == Max(s.maxSize, size)
  {
    hide ToUnsigned, ToInt;
    SmallStays(s.spaceAvailable);
    SmallStays(s.spaceAvailable - size);
    SmallStays(size);
    if 0 <= s.minSize < TWO31 { SmallStays(s.minSize); }
    if 0 <= s.maxSize < TWO31 { SmallStays(s.maxSize); }
  }

  lemma SmallStays(i: int)
    requires 0 <= i < TWO31
    ensures ToUnsigned(i) == i && ToInt(i) == i
  {
  }

  lemma BlockFits(s: Pool, p: Ptr)
    requires Accounted(s) && p in s.blocks
    ensures s.blocks[p].size <= s.poolSize
    ensures !s.blocks[p].state.Counted? ==> s.blocks[p].size <= s.stats.spaceAvailable
  {
    hide Total;
    var rest := s.blocks - {p};
    TotalUpdate(Memory, s.blocks, p, s.blocks[p]);
    TotalUpdate(Bytes, s.blocks, p, s.blocks[p]);
    CountedFitsInMemory(rest);
  }

  lemma StepAccounted(s: Pool, e: Event)
    requires Accounted(s)
    ensures Accounted(Step(s, e)) && Step(s, e).poolSize == s.poolSize
  {
    hide Total, TakeStat, TakeFailStat, Weight;
    if e.TakeFailStats? {
      if e.size < TWO32 {
        TakeFailKeepsMark(s.stats, e.size);
        TakeFailShape(s.stats, e.size);
      }
    } else {
      BlockStepAccounted(s, e);
    }
  }

  lemma TakeFailShape(s: Stats, size: nat)
    ensures var t := TakeFailStat(s, size);
            && t.spaceAvailable == s.spaceAvailable && t.curAllocs == s.curAllocs
            && t.windex == s.windex && t.window == s.window
  {
  }

  lemma TakeShape(s: Stats, size: nat)
    requires s.window == [] || s.windex < |s.window|
    ensures var t := TakeStat(s, size);
            && t.curAllocs == s.curAllocs + 1 && t.minSpaceAvailable == Min(s.minSpaceAvailable, t.spaceAvailable)
            && |t.window| == |s.window| && (t.window == [] || t.windex < |t.window|)
  {
  }

  lemma BlockStepAccounted(s: Pool, e: Event)
    requires Accounted(s) && !e.TakeFailStats?
    ensures Accounted(Step(s, e)) && Step(s, e).poolSize == s.poolSize
  {
    hide Total, TakeStat, TakeFailStat;
    var p, t := e.p, Step(s, e);
    var b := if p in t.blocks then t.blocks[p] else Block(0, 0, Given);
    TotalUpdate(Memory, s.blocks, p, b);
    TotalUpdate(Bytes, s.blocks, p, b);
    TotalUpdate(Number, s.blocks, p, b);
    CountedFitsInMemory(t.blocks);
    if e.TakeStats? && IsBlock(s, p, Allocated) {
      BlockFits(s, p);
      TakeStatArithmetic(s.stats, s.blocks[p].size);
      TakeShape(s.stats, s.blocks[p].size);
    }
  }

  /** Under every interleaving of allocations, statistics and frees of any number of threads */
  lemma {:induction false} AlwaysAccounted(s: Pool, events: seq<Event>)
    requires Initial(s)
    ensures Accounted(Run(s, events)) && Run(s, events).poolSize == s.poolSize
    decreases |events|
  {
    hide Step, Accounted;
    if events == [] {
      InitiallyAccounted(s);
    } else {
      AlwaysAccounted(s, events[..|events| - 1]);
      StepAccounted(Run(s, events[..|events| - 1]), events[|events| - 1]);
    }
  }

  lemma InitiallyAccounted(s: Pool)
    requires Initial(s)
    ensures Accounted(s)
  {
  }

  // ----- history -----

  /** The sizes taken, in the order of their statistics */
  ghost function Takes(s: Pool, events: seq<Event>): seq<nat>
    decreases |events|
  {
    if events == [] then []
    else
      var n := |events| - 1;
      var before := Run(s, events[..n]);
      Takes(s, events[..n]) + SizeTaken(before, events[n])
  }

  predicate DoesTake(s: Pool, e: Event) {
    e.TakeStats? && IsBlock(s, e.p, Allocated) && (s.stats.window == [] || s.stats.windex < |s.stats.window|)
  }

  function SizeTaken(s: Pool, e: Event): seq<nat> {
    if DoesTake(s, e) then [s.blocks[e.p].size] else []
  }

  /** The most blocks that were counted at any time of the run */
  ghost function Peak(s: Pool, events: seq<Event>): int
    decreases |events|
  {
    var now := Run(s, events).stats.curAllocs;
    if events == [] then now else Max(Peak(s, events[..|events| - 1]), now)
  }

  /** The slot k + 1 places behind windex in a ring of w slots */
  function Behind(w: nat, windex: nat, k: nat): nat
    requires windex < w && k < w
  {
    if k < windex then windex - 1 - k else windex + w - 1 - k
  }

  ghost predicate Remembers(stats: Stats, takes: seq<nat>) {
    && stats.allocs == |takes|
    && 0 <= stats.minSize < 0x1_0000 && 0 <= stats.maxSize < 0x1_0000
    && (forall t :: t in takes ==> stats.minSize <= t <= stats.maxSize)
    && (takes != [] ==> stats.minSize in takes && stats.maxSize in takes)
    && (takes == [] ==> stats.maxSize == 0)
  }

  /** For k below the number of takes and the window size, the slot k + 1 behind windex holds the k-th
      most recent size. */
  ghost predicate WindowHolds(stats: Stats, takes: seq<nat>) {
    && (stats.window == [] || stats.windex < |stats.window|)
    && (forall k :: 0 <= k < |stats.window| && k < |takes| ==>
          stats.window[Behind(|stats.window|, stats.windex, k)] == takes[|takes| - 1 - k])
  }

  lemma TakeMovesWindow(s: Stats, takes: seq<nat>, size: nat)
    requires WindowHolds(s, takes) && size < 0x1_0000
    ensures WindowHolds(TakeStat(s, size), takes + [size])
  {
    var t, w := TakeStat(s, size), |s.window|;
    forall k: nat | k < w && k < |takes| + 1
      ensures t.window[Behind(w, t.windex, k)] == (takes + [size])[|takes| - k]
    {
      if k > 0 {
        assert Behind(w, t.windex, k) == Behind(w, s.windex, k - 1);
      }
    }
  }

  lemma TakeRemembers(s: Stats, takes: seq<nat>, size: nat)
    requires Remembers(s, takes) && (takes == [] ==> size <= s.minSize)
    requires s.window == [] || s.windex < |s.window|
    requires size <= s.spaceAvailable < 0x1_0000
    ensures Remembers(TakeStat(s, size), takes + [size])
  {
    TakeStatArithmetic(s, size);
    var t := TakeStat(s, size);
    assert t.allocs == s.allocs + 1;
    hide TakeStat;
    assert forall x :: x in takes + [size] <==> x in takes || x == size;
  }

  /** The statistics tell the history of every run: the peak, the extremes and the latest sizes. */
  lemma {:induction false} StatisticsTellHistory(s: Pool, events: seq<Event>)
    requires Initial(s)
    ensures var now := Run(s, events).stats;
            && Remembers(now, Takes(s, events))
            && WindowHolds(now, Takes(s, events))
            && |now.window| == |s.stats.window|
            && (Takes(s, events) == [] ==> now.minSize == s.poolSize)
            && now.maxAllocs == Peak(s, events)
    decreases |events|
  {
    hide Total, TakeStat, TakeFailStat, Accounted, Remembers, WindowHolds, Step;
    if events == [] {
      NoHistory(s);
    } else {
      var n := |events| - 1;
      var before := Run(s, events[..n]);
      StatisticsTellHistory(s, events[..n]);
      AlwaysAccounted(s, events[..n]);
      AlwaysAccounted(s, events);
      StepTellsHistory(before, events[n], Takes(s, events[..n]));
    }
  }

  lemma NoHistory(s: Pool)
    requires Initial(s)
    ensures Remembers(s.stats, []) && WindowHolds(s.stats, [])
  {
  }

  lemma StepTellsHistory(s: Pool, e: Event, takes: seq<nat>)
    requires Accounted(s) && Remembers(s.stats, takes) && WindowHolds(s.stats, takes)
    requires takes == [] ==> s.stats.minSize == s.poolSize
    ensures var now := Step(s, e).stats;
            && Remembers(now, takes + SizeTaken(s, e))
            && WindowHolds(now, takes + SizeTaken(s, e))
            && |now.window| == |s.stats.window|
            && (takes + SizeTaken(s, e) == [] ==> now.minSize == s.poolSize)
            && now.maxAllocs == (if DoesTake(s, e) then Max(s.stats.maxAllocs, now.curAllocs) else s.stats.maxAllocs)
            && (!DoesTake(s, e) ==> now.curAllocs <= s.stats.curAllocs)
  {
    if DoesTake(s, e) {
      var size := s.blocks[e.p].size;
      BlockFits(s, e.p);
      TakeRemembers(s.stats, takes, size);
      TakeMovesWindow(s.stats, takes, size);
      hide Remembers, WindowHolds, Accounted;
    } else {
      assert takes + SizeTaken(s, e) == takes;
    }
  }

  /** The sizes of the requests that were refused, in the order of their statistics */
  function Refusals(events: seq<Event>): seq<nat>
    decreases |events|
  {
    if events == [] then []
    else
      var n := |events| - 1;
      Refusals(events[..n]) + if events[n].TakeFailStats? && events[n].size < TWO32 then [events[n].size] else []
  }

  /** take_failures counts the refusals of every run, and last_fail_size is the size of the latest, as an int. */
  lemma {:induction false} RefusalsAreCounted(s: Pool, events: seq<Event>)
    requires Initial(s)
    ensures var now, sizes := Run(s, events).stats, Refusals(events);
            && now.takeFailures == |sizes|
            && var last: int := if sizes == [] then 0 else sizes[|sizes| - 1];
               now.lastFailSize == if last < 0x8000_0000 then last else last - 0x1_0000_0000
    decreases |events|
  {
    if events != [] {
      var n := |events| - 1;
      RefusalsAreCounted(s, events[..n]);
      StepRefuses(Run(s, events[..n]), events[n]);
    }
  }

  lemma StepRefuses(s: Pool, e: Event)
    ensures var before, now := s.stats, Step(s, e).stats;
            if e.TakeFailStats? && e.size < TWO32
            then
              && now.takeFailures == before.takeFailures + 1
              && now.lastFailSize == if e.size < 0x8000_0000 then e.size else e.size - 0x1_0000_0000
            else now.takeFailures == before.takeFailures && now.lastFailSize == before.lastFailSize
  {
  }

  /** The least free space at any time of the run, where a refused request that would have fitted counts
      as if it had been granted */
  ghost function Low(s: Pool, events: seq<Event>): int
    decreases |events|
  {
    if events == [] then s.poolSize
    else
      var n := |events| - 1;
      var space := Run(s, events).stats.spaceAvailable;
      var refused := if events[n].TakeFailStats? && events[n].size <= space then events[n].size else 0;
      Min(Low(s, events[..n]), space - refused)
  }

  lemma StepLowers(s: Pool, e: Event)
    requires Accounted(s)
    ensures var t := Step(s, e).stats;
            t.minSpaceAvailable
            == Min(s.stats.minSpaceAvailable,
                   t.spaceAvailable - if e.TakeFailStats? && e.size <= t.spaceAvailable then e.size else 0)
  {
    StepAccounted(s, e);
    if e.TakeFailStats? && e.size < TWO32 {
      TakeFailKeepsMark(s.stats, e.size);
      TakeFailShape(s.stats, e.size);
    }
    if DoesTake(s, e) {
      TakeShape(s.stats, s.blocks[e.p].size);
    }
    hide TakeStat, TakeFailStat, Total;
  }

  /** The low-water mark is the least free space of the whole run. */
  lemma {:induction false} LowWaterMark(s: Pool, events: seq<Event>)
    requires Initial(s)
    ensures Run(s, events).stats.minSpaceAvailable == Low(s, events)
    decreases |events|
  {
    hide Step, Accounted;
    if events != [] {
      var n := |events| - 1;
      LowWaterMark(s, events[..n]);
      AlwaysAccounted(s, events[..n]);
      StepLowers(Run(s, events[..n]), events[n]);
    }
  }

  // ----- the functions of the file -----

  class BufferPool {
    const poolSize: nat
    var spaceAvailable: int
    var minSpaceAvailable: int
    var maxSize: int
    var minSize: int
    var allocs: int
    var curAllocs: int
    var maxAllocs: int
    var takeFailures: int
    var lastFailSize: int
    var windex: nat
    const window: array<nat>
    var blocks: Blocks

    ghost predicate Valid()
      reads this, window
    {
      Accounted(Now())
    }

    function Bps(): Stats
      reads this, window
    {
      Stats(spaceAvailable, minSpaceAvailable, maxSize, minSize, allocs, curAllocs, maxAllocs,
            takeFailures, lastFailSize, windex, window[..])
    }

    function Now(): Pool
      reads this, window
    {
      Pool(poolSize, Bps(), blocks)
    }

    /** buffer_pool_init, on zeroed statistics */
    constructor (poolSize: nat, windowSize: nat)
      requires poolSize < 0x1_0000
      ensures Valid() && fresh(window) && this.poolSize == poolSize && window.Length == windowSize
      ensures Initial(Now())
    {
      this.poolSize := poolSize;
      spaceAvailable, minSpaceAvailable, minSize := poolSize, poolSize, poolSize;
      maxSize, allocs, curAllocs, maxAllocs, takeFailures, lastFailSize, windex := 0, 0, 0, 0, 0, 0, 0;
      window := new nat[windowSize](_ => 0);
      blocks := map[];
      new;
      InitiallyAccounted(Now());
    }

    /** The part of take_stat_handler that is compiled in for a window */
    method RememberSize(size: nat)
      requires window.Length > 0 ==> windex < window.Length
      modifies this`windex, window
      ensures window.Length == 0 ==> windex == old(windex)
      ensures window.Length > 0 ==>
                && windex == (if old(windex) + 1 >= window.Length then 0 else old(windex) + 1)
                && window[..] == old(window[..])[old(windex) := size % 0x1_0000]
    {
      if window.Length > 0 {
        window[windex] := size % 0x1_0000;
        windex := windex + 1;
        if windex >= window.Length {
          windex := 0;
        }
      }
    }

    /** The update of bps in take_stat_handler */
    method CountTake(size: nat)
      requires window.Length > 0 ==> windex < window.Length
      modifies this, window
      ensures Bps() == TakeStat(old(Bps()), size) && blocks == old(blocks)
    {
      hide ToInt, ToUnsigned, MinUnsigned, MaxUnsigned;
      spaceAvailable := ToInt(ToUnsigned(ToUnsigned(spaceAvailable) - size));
      minSpaceAvailable := Min(minSpaceAvailable, spaceAvailable);
      minSize := ToInt(MinUnsigned(minSize, size));
      maxSize := ToInt(MaxUnsigned(maxSize, size));
      allocs := allocs + 1;
      curAllocs := curAllocs + 1;
      maxAllocs := Max(maxAllocs, curAllocs);
      RememberSize(size);
    }

    method TakeStatHandler(p: Ptr, size: nat)
      requires Valid() && IsBlock(Now(), p, Allocated) && blocks[p].size == size
      modifies this, window
      ensures Valid() && Now() == Step(old(Now()), TakeStats(p))
    {
      StepAccounted(Now(), TakeStats(p));
      assert window.Length > 0 ==> windex < window.Length;
      hide Accounted, Total, TakeStat;
      blocks := blocks[p := Block(size, size % 0x1_0000, Counted)];
      CountTake(size);
    }

    method TakeFailStatHandler(size: nat)
      requires Valid() && size < TWO32
      modifies this
      ensures Valid() && Now() == Step(old(Now()), TakeFailStats(size))
    {
      StepAccounted(Now(), TakeFailStats(size));
      takeFailures := takeFailures + 1;
      lastFailSize := ToInt(size);
      minSpaceAvailable := ToInt(MinUnsigned(minSpaceAvailable, ToUnsigned(ToUnsigned(spaceAvailable) - size)));
      hide Accounted;
    }

    method GiveStatHandler(p: Ptr)
      requires Valid() && IsBlock(Now(), p, Counted)
      modifies this
      ensures Valid() && Now() == Step(old(Now()), GiveStats(p))
    {
      StepAccounted(Now(), GiveStats(p));
      spaceAvailable := spaceAvailable + blocks[p].header;
      curAllocs := curAllocs - 1;
      blocks := blocks[p := blocks[p].(state := Given)];
      hide Accounted;
    }

    /** buffer_pool_try_to_take, for sizes whose sum with the header fits a size_t. heap is what
        k_heap_alloc answers. */
    method TryToTake(size: nat, heap: Option<Ptr>) returns (p: Option<Ptr>)
      requires Valid() && size + BPH_SIZE < TWO32
      requires heap.Some? ==> HeapGrants(Now(), heap.value, size)
      modifies this, window
      ensures Valid() && p == heap
      ensures Now() == Run(old(Now()), if heap.Some? then [HeapAlloc(heap.value, size), TakeStats(heap.value)]
                                       else [TakeFailStats(size)])
    {
      hide Accounted, TakeStat, TakeFailStat;
      if heap.Some? {
        StepAccounted(Now(), HeapAlloc(heap.value, size));
        RunTwo(Now(), HeapAlloc(heap.value, size), TakeStats(heap.value));
        blocks := blocks[heap.value := Block(size, 0, Allocated)];
        TakeStatHandler(heap.value, size);
      } else {
        RunOne(Now(), TakeFailStats(size));
        TakeFailStatHandler(size);
      }
      p := heap;
    }

    /** buffer_pool_free of NULL or of a buffer that is in use */
    method Free(buffer: Option<Ptr>)
      requires Valid() && (buffer.Some? ==> IsBlock(Now(), buffer.value, Counted))
      modifies this
      ensures Valid()
      ensures Now() == if buffer.None? then old(Now())
                       else Run(old(Now()), [GiveStats(buffer.value), HeapFree(buffer.value)])
    {
      hide Accounted;
      if buffer.None? {
        return;
      }
      var p := buffer.value;
      RunTwo(Now(), GiveStats(p), HeapFree(p));
      GiveStatHandler(p);
      StepAccounted(Now(), HeapFree(p));
      blocks := blocks - {p};
    }
  }

  lemma RunOne(s: Pool, e: Event)
    ensures Run(s, [e]) == Step(s, e)
  {
    hide Step;
    assert [e][..0] == [];
    assert Run(s, []) == s;
  }

  lemma RunTwo(s: Pool, e: Event, f: Event)
    ensures Run(s, [e, f]) == Step(Step(s, e), f)
  {
    hide Step;
    assert [e, f][..1] == [e];
    RunOne(s, e);
  }

  /** Freeing what was just taken restores the heap and the free space: only the marks remember. */
  lemma TakeThenFree(s: Pool, p: Ptr, size: nat)
    requires Accounted(s) && HeapGrants(s, p, size)
    ensures var t := Run(Run(s, [HeapAlloc(p, size), TakeStats(p)]), [GiveStats(p), HeapFree(p)]);
            && t.blocks == s.blocks
            && t.stats.spaceAvailable == s.stats.spaceAvailable && t.stats.curAllocs == s.stats.curAllocs
  {
    hide TakeStat, Total, Run;
    RunTwo(s, HeapAlloc(p, size), TakeStats(p));
    var a := Step(s, HeapAlloc(p, size));
    StepAccounted(s, HeapAlloc(p, size));
    BlockFits(a, p);
    var u := Step(a, TakeStats(p));
    TakeStatArithmetic(a.stats, size);
    TakeShape(a.stats, size);
    RunTwo(u, GiveStats(p), HeapFree(p));
    hide Accounted;
  }
}
