/** The one-processor stack answers every request, with the write buffer on or off: each tick lowers a
    measure of the work that is left. */
module Liveness {
  import opened Protocol
  import opened Geometry
  import opened Split
  import opened TeamCache
  import opened Requests
  import opened Residency
  import opened Bus
  import opened Lockstep
  import opened Stack
  import Replacement
  import Placement

  /** The blocks of requests that wait. */
  ghost function WaitingBlocks(p: Params, os: seq<Orig>): nat {
    if os == [] then 0
    else (if InRange(os[0].op) then PartCount(p, os[0].op) else 0) + WaitingBlocks(p, os[1..])
  }

  /** Blocks not yet started. */
  ghost function Unstarted(c: Cache): nat { |c.queue| + WaitingBlocks(c.params, c.arrivals) }

  /** Blocks not yet done with: not started, in the active slot, or in the write buffer. */
  ghost function Outstanding(c: Cache): nat {
    Unstarted(c) + (if c.active.Some? then 1 else 0) + if c.buffer.Some? then 1 else 0
  }

  /** Everything is answered and no store is under way. */
  ghost predicate AtRest(c: Cache) { Idle(c) && c.arrivals == [] && c.buffer.None? }

  /** Ticks until the bus delivers what it carries. */
  ghost function BusLeft(b: Bus): int {
    match b.pending
    case Some(t) => if t.phase == WaitingCache then b.countDown + DRAM_FETCH_TICKS else b.countDown
    case None => 1 + CACHE_DELAY + DRAM_FETCH_TICKS
  }

  /** Ticks until the request that waits has its data: a flush is followed by a fetch. */
  ghost function WorkCost(c: Cache, b: Bus): int {
    if Flushing(c).Some? then BusLeft(b) + 102
    else if Awaiting(c).Some? then BusLeft(b) + 1
    else 0
  }

  const PER_BLOCK := 205

  /** The active block: to be retired, or parked with its whole miss still to come. */
  ghost function ActiveCost(c: Cache): int {
    if c.active.None? || Waiting(c.active.value) then 0 else if c.active.value.status == WaitingBuffer then 204 else 1
  }

  /** The callback of a buffered store. */
  ghost function BufferCost(c: Cache): int {
    if c.buffer.Some? && !c.buffer.value.notified then 1 else 0
  }

  /** All that the bus is not yet working on. */
  ghost function Rest(c: Cache): int { PER_BLOCK * Unstarted(c) + ActiveCost(c) + BufferCost(c) }

  ghost function Work(s: Stack): int { Rest(s.tc) + WorkCost(s.tc, s.bus) }

  lemma {:induction false} BusCloser(m: Memory, b: Bus, brt: BusType, a: Addr)
    requires InStep(m, b) && QueuesOk(b) && Carries(b, brt, a)
    ensures var (m', b', call) := Advance(m, b);
            if call.Deliver? then BusLeft(b) == 1 else BusLeft(b') == BusLeft(b) - 1
    ensures 1 <= BusLeft(b) <= 101
  {}

  /* What the cache's steps do to the rest. */

  /** One block has started: it is done with, parked, or waits now. */
  ghost predicate BlockStarted(c: Cache, c': Cache) {
    && Unstarted(c') + 1 == Unstarted(c) && ActiveCost(c') + BufferCost(c') <= 204
    && (Working(c') != BufferWork(c) ==> ActiveCost(c') + BufferCost(c') <= 1)
  }

  lemma {:induction false} MissRest(c: Cache, view: View, r: Part)
    requires Sized(c) && c.failed.None? && c.completion.Some? && c.buffer.None?
    ensures var c' := StartMiss(c, view, r);
            c'.failed.None? ==> Unstarted(c') == Unstarted(c) && ActiveCost(c') + BufferCost(c') <= 1
  {
    hide Missed, MissCalls, EvictThenFetch, Params.TagOf, Params.BlockAddress;
    if Eligible(c, r) {
      EvictThenFetchKept(c.(buffer := Some(Buffer(r, false, false)), active := None), view, true, r);
    } else {
      EvictThenFetchKept(c, view, false, r);
    }
  }

  lemma {:induction false} BlockRest(c: Cache, view: View, hist: seq<Orig>)
    requires NextBlock(c, hist) && Sized(c) && c.failed.None? && BufferBusy(c)
    ensures var c' := StartNextBlock(c, view); c'.failed.None? ==> BlockStarted(c, c')
  {
    hide Hit, StartMiss, EvictThenFetch, Params.TagOf, Params.SetIndex, Params.BlockAddress;
    var r := c.queue[0].(status := WaitingData);
    var c1 := c.(queue := c.queue[1..], active := Some(r));
    var k := c.params.SetIndex(r.addr);
    match Replacement.FindWay(SetAt(c, k), c.params.TagOf(r.addr))
    case Some(way) => HitIs(c1, Loc(k, way), r);
    case None =>
      if c.buffer.None? {
        MissRest(c1, view, r);
      } else {
        assert StartMiss(c1, view, r) == c1.(active := Some(r.(status := WaitingBuffer))) by { ParkIs(c1, view, r); }
      }
  }

  lemma {:induction false} ParkIs(c: Cache, view: View, r: Part)
    requires c.buffer.Some?
    ensures StartMiss(c, view, r) == c.(active := Some(r.(status := WaitingBuffer)))
  {}

  lemma {:induction false} RequestRest(c: Cache, view: View, hist: seq<Orig>)
    requires Structure(c, hist) && c.failed.None? && BufferBusy(c) && Idle(c) && c.arrivals != []
    ensures var c' := StartNextRequest(c, view); c'.failed.None? ==> BlockStarted(c, c')
  {
    hide StartNextBlock, Sized, BufferBusy, TargetOk;
    var o := c.arrivals[0];
    var c1 := Prepare(c.(arrivals := c.arrivals[1..]), o);
    assert hist[|c.calls|] == o;
    if InRange(o.op) {
      assert NextBlock(c1, hist);
      SameBusy(c, c1);
      BlockRest(c1, view, hist);
    }
  }

  lemma {:induction false} SameBusy(c: Cache, c1: Cache)
    requires BufferBusy(c) && c1.sets == c.sets && c1.buffer == c.buffer && c1.params == c.params
    ensures BufferBusy(c1) && BufferWork(c1) == BufferWork(c) && (Sized(c) ==> Sized(c1))
  {}

  /** What a tick does to the rest: it starts a request that waits now, or it lowers the rest, or there is
      nothing to do but wait. */
  ghost predicate Moves(c: Cache, c': Cache) {
    if Working(c') != Working(c) then Rest(c') + 204 <= Rest(c)
    else Rest(c') < Rest(c) || (c' == c && (Working(c).Some? || AtRest(c)))
  }

  lemma {:induction false} AcknowledgeMoves(c: Cache, view: View, hist: seq<Orig>)
    requires Structure(c, hist) && c.failed.None? && c.buffer.Some? && !c.buffer.value.notified
    ensures var c' := Acknowledge(c, view); c'.failed.None? ==> Moves(c, c')
  {
    hide StartNextRequest, Sized, TargetOk, Current;
    AcknowledgedIs(c, view, hist);
    var c1 := Acknowledged(c);
    if c.buffer.value.dataComplete {
      if c1.arrivals != [] { RequestRest(c1, view, hist); } else { NothingToStart(c1, view); }
    }
  }

  lemma {:induction false} RetireMoves(c: Cache, view: View, hist: seq<Orig>)
    requires Structure(c, hist) && c.failed.None? && c.buffer.None? && c.active.Some? && c.active.value.status == Ready
    ensures var c' := Retire(c, view, c.active.value); c'.failed.None? ==> Moves(c, c')
  {
    hide StartNextBlock, TargetOk;
    var r, c0 := c.active.value, c.(active := None);
    assert Current(c0, hist, r);
    CompleteOneKept(c0, r, hist);
    var (c1, done) := CompleteOne(c0, r);
    if !done {
      assert NextBlock(c1, hist);
      BlockRest(c1, view, hist);
    }
  }

  lemma {:induction false} TickMoves(c: Cache, view: View, hist: seq<Orig>)
    requires Structure(c, hist) && c.failed.None?
    ensures var c' := AccessTick(c, view); c'.failed.None? ==> Moves(c, c')
  {
    hide Acknowledge, Retire, StartNextRequest, Sized, Requests.InOrder, Current;
    if c.buffer.Some? && !c.buffer.value.notified {
      AcknowledgeMoves(c, view, hist);
    } else if c.buffer.None? && c.active.Some? && c.active.value.status == Ready {
      RetireMoves(c, view, hist);
    } else if Idle(c) && c.arrivals != [] {
      RequestRest(c, view, hist);
    } else {
      NothingToStart(c, view);
    }
  }

  /* What a delivery does to the rest. */

  lemma {:induction false} FlushRest(c: Cache, view: View, hist: seq<Orig>)
    requires Structure(c, hist) && Housed(c) && c.failed.None? && c.lower == [] && Flushing(c).Some?
    ensures var c' := AccessEvent(c, view, FlushComplete, 0, Flushing(c).value);
            c'.failed.None? ==> Rest(c') == Rest(c) && Flushing(c').None? && Awaiting(c').Some?
  {
    hide Structure, Homed, ParkedOk, AccessEvent, EvictionComplete, TeamCache.Fetch,
      Params.TagOf, Params.SetIndex, Params.BlockAddress;
    var r := Working(c).value;
    FlushReaches(c, view, hist);
    FlushedIs(c, view, InBuffer(c), r);
    WorkIsOwner(c, hist);
  }

  /** The fill ends, and may start the parked request or the next one. */
  lemma {:induction false} FillRest(c: Cache, view: View, hist: seq<Orig>)
    requires Structure(c, hist) && Housed(c) && c.failed.None? && c.lower == [] && Awaiting(c).Some?
    ensures var c' := AccessEvent(c, view, DataRecv, 0, Awaiting(c).value);
            c'.failed.None? ==> if Working(c').Some? then Rest(c') + 203 <= Rest(c) else Rest(c') <= Rest(c) + 1
  {
    hide Structure, Homed, ParkedOk, AccessEvent, BufferFilled, FilledCache,
      Params.TagOf, Params.SetIndex, Params.BlockAddress;
    WorkHasLine(c);
    DataReaches(c, view, hist);
    WorkIsOwner(c, hist);
    FilledEffect(c);
    if !Stamp(c, true).0.failed.Some? && InBuffer(c) { BufferRest(c, view, hist); }
  }

  lemma {:induction false} BufferRest(c: Cache, view: View, hist: seq<Orig>)
    requires Structure(c, hist) && Housed(c) && c.failed.None? && c.lower == [] && Awaiting(c).Some? && InBuffer(c)
    requires Working(c).value.target.Some? && LineAt(c, Working(c).value.target.value).Some?
    ensures var c' := BufferFilled(FilledCache(c), view);
            c'.failed.None? ==> if Working(c').Some? then Rest(c') + 203 <= Rest(c) else Rest(c') <= Rest(c) + 1
  {
    hide Homed, ParkedOk, WorkOk, StartMiss, StartNextRequest, FilledCache, TargetOk, Current;
    WorkIsOwner(c, hist);
    FilledEffect(c);
    var c1 := FilledCache(c).(buffer := None);
    assert Sized(c1) by { HomedSized(FilledCache(c)); }
    if c.buffer.value.notified {
      if c.active.None? {
        if Idle(c1) && c1.arrivals != [] { RequestRest(c1, view, hist); } else { NothingToStart(c1, view); }
      } else if c.active.value.status == WaitingBuffer {
        MissRest(c1, view, c.active.value);
      }
    }
  }

  lemma {:induction false} HomedSized(c: Cache)
    requires Homed(c)
    ensures Sized(c)
  {}

  /* The whole stack. */

  lemma {:induction false} WorkCostBounded(s: Stack, hist: seq<Orig>)
    requires Whole(s, hist)
    ensures 0 <= WorkCost(s.tc, s.bus) <= 203
  {
    hide Structure, Housed, Coupled, BusLeft, InStep, QueuesOk, Carries;
    if Flushing(s.tc).Some? {
      BusCloser(s.mem, s.bus, Data, Flushing(s.tc).value);
    } else if Awaiting(s.tc).Some? {
      BusCloser(s.mem, s.bus, BusWr, Awaiting(s.tc).value);
    }
  }

  /** The cache's part of a tick. */
  lemma {:induction false} StartLowers(s: Stack, hist: seq<Orig>)
    requires Whole(s, hist) && !AtRest(s.tc)
    ensures var s' := With(s, AccessTick(s.tc, ViewOf(s.dir)));
            s'.tc.failed.None? ==> if Working(s'.tc).Some? then Work(s') <= Work(s) else Work(s') < Work(s)
  {
    hide Structure, Housed, InStep, QueuesOk, Coupled, AccessTick, AtRest, Ticked, BusLeft;
    var c, view := s.tc, ViewOf(s.dir);
    var c', s' := AccessTick(c, view), With(s, AccessTick(c, view));
    TickMoves(c, view, hist);
    StartWhole(s, hist);
    if s'.tc.failed.None? {
      assert s'.tc == c'.(lower := []);
      WorkCostBounded(s', hist);
      WorkCostBounded(s, hist);
      if Working(c') == Working(c) { SameBus(s, c', hist); }
    }
  }

  /** A cache that goes on with what it waits for, or with nothing, makes no call. */
  lemma {:induction false} SameBus(s: Stack, c': Cache, hist: seq<Orig>)
    requires Whole(s, hist) && c' == AccessTick(s.tc, ViewOf(s.dir)) && c'.failed.None? && Working(c') == Working(s.tc)
    ensures With(s, c').bus == s.bus && WorkCost(With(s, c').tc, s.bus) == WorkCost(s.tc, s.bus)
  {
    hide Structure, Homed, ParkedOk, WorkOk, InStep, QueuesOk, AccessTick, BusLeft, Resident, SameLines, DoomedPart;
    if Working(s.tc).None? {
      IdleOwns(s.tc, s.dir);
      OwnsAgrees(s.tc, s.dir);
    }
    TickEffect(s.tc, ViewOf(s.dir), hist);
  }

  /** The bus's part brings what the cache waits for one tick closer. */
  lemma {:induction false} BusLowers(s: Stack, hist: seq<Orig>)
    requires Whole(s, hist)
    ensures var s' := BusTick(s);
            s'.tc.failed.None? ==> if Working(s.tc).Some? then Work(s') < Work(s) else Work(s') == Work(s)
  {
    hide Structure, Housed, Coupled, Advance, Delivered, Resident, Rest, BusLeft;
    var (m, b, call) := Advance(s.mem, s.bus);
    if Flushing(s.tc).Some? {
      CarriesTick(s.mem, s.bus, Data, Flushing(s.tc).value);
      BusCloser(s.mem, s.bus, Data, Flushing(s.tc).value);
      if call.Deliver? { FlushLowers(s, m, b, hist); }
    } else if Awaiting(s.tc).Some? {
      CarriesTick(s.mem, s.bus, BusWr, Awaiting(s.tc).value);
      BusCloser(s.mem, s.bus, BusWr, Awaiting(s.tc).value);
      if call.Deliver? { FillLowers(s, m, b, hist); }
    } else {
      QuietTick(s.mem, s.bus);
    }
  }

  lemma {:induction false} FlushLowers(s: Stack, m: Memory, b: Bus, hist: seq<Orig>)
    requires Whole(s, hist) && Flushing(s.tc).Some? && BusLeft(s.bus) == 1
    requires b.pending.Some? && b.pending.value.phase == TransferingMemory && Queue(b, [])
    requires InStep(m, AfterDelivery(b)) && QueuesOk(b)
    ensures var s' := Delivered(s.(mem := m, bus := b), Data, Flushing(s.tc).value);
            s'.tc.failed.None? ==> Work(s'.(bus := AfterDelivery(s'.bus))) < Work(s)
  {
    hide Structure, Housed, Resident, AccessEvent, Owns, Called;
    var v := Flushing(s.tc).value;
    assert GetState(s.dir, v) == Expected(s.tc, v) == Invalid;
    FlushWhole(s, hist, m, b);
    FlushRest(s.tc, ViewOf(s.dir), hist);
  }

  lemma {:induction false} FillLowers(s: Stack, m: Memory, b: Bus, hist: seq<Orig>)
    requires Whole(s, hist) && Awaiting(s.tc).Some? && BusLeft(s.bus) == 1
    requires b.pending.Some? && b.pending.value.phase == TransferingMemory && Queue(b, [])
    requires InStep(m, AfterDelivery(b)) && QueuesOk(b)
    ensures var s' := Delivered(s.(mem := m, bus := b), Data, Awaiting(s.tc).value);
            s'.tc.failed.None? ==> Work(s'.(bus := AfterDelivery(s'.bus))) < Work(s)
  {
    hide Structure, Housed, Resident, AccessEvent, Owns, Called, ClashElsewhere, Doomed;
    var a := Awaiting(s.tc).value;
    assert GetState(s.dir, a) == Expected(s.tc, a) == InvalidModified;
    FillWhole(s, hist, m, b);
    FillRest(s.tc, ViewOf(s.dir[a := Modified]), hist);
    var s' := Delivered(s.(mem := m, bus := b), Data, a);
    if s'.tc.failed.None? { WorkCostBounded(s'.(bus := AfterDelivery(s'.bus)), hist); }
  }

  /** Every tick that finds a request unanswered, or a store under way, lowers the work left. */
  lemma {:induction false} TickLowersWork(s: Stack, hist: seq<Orig>)
    requires Whole(s, hist) && !AtRest(s.tc)
    ensures var s' := Tick(s); s'.tc.failed.None? ==> Whole(s', hist) && Work(s') < Work(s)
  {
    hide Structure, Housed, Coupled, AccessTick, With, BusTick, AtRest, InStep, Work, Doomed, ClashElsewhere;
    StartLowers(s, hist);
    StartWhole(s, hist);
    var s1 := With(s, AccessTick(s.tc, ViewOf(s.dir)));
    if s1.tc.failed.None? {
      BusLowers(s1, hist);
      BusWhole(s1, hist);
    }
  }

  lemma {:induction false} RestStays(s: Stack, hist: seq<Orig>)
    requires Whole(s, hist) && AtRest(s.tc)
    ensures Tick(s) == s
  {
    hide Structure, Housed, Coupled;
    NothingToStart(s.tc, ViewOf(s.dir));
  }

  /** k ticks without a new request. */
  ghost function Passes(events: seq<Event>, k: nat): seq<Event> {
    if k == 0 then events else Passes(events, k - 1) + [Pass]
  }

  lemma {:induction false} OnePass(p: Params, events: seq<Event>)
    ensures StateAfter(p, events + [Pass]) == StepStack(StateAfter(p, events), Pass)
    ensures Asked(p, events + [Pass]) == Asked(p, events)
  {}

  lemma {:induction false} RunsDry(p: Params, events: seq<Event>, k: nat)
    requires p.Valid() && StateAfter(p, events).tc.failed.None?
    ensures var s := StateAfter(p, Passes(events, k));
            && Asked(p, Passes(events, k)) == Asked(p, events)
            && (s.tc.failed.None? ==>
                  && Whole(s, Asked(p, events)) && s.tc.params == p
                  && (AtRest(s.tc) || Work(s) + k <= Work(StateAfter(p, events))))
  {
    hide Whole, AtRest, Tick, Work, StateAfter, Asked;
    if k == 0 {
      var s, hist := Reached(p, events);
    } else {
      RunsDry(p, events, k - 1);
      var s := StateAfter(p, Passes(events, k - 1));
      OnePass(p, Passes(events, k - 1));
      StepParams(s, Pass);
      if s.tc.failed.None? {
        if AtRest(s.tc) {
          RestStays(s, Asked(p, events));
        } else {
          TickLowersWork(s, Asked(p, events));
        }
      }
    }
  }

  lemma {:induction false} WorkBounded(s: Stack, hist: seq<Orig>)
    requires Whole(s, hist)
    ensures 0 <= Work(s) <= PER_BLOCK * Outstanding(s.tc)
  {
    hide Structure, Housed, Coupled, InStep, QueuesOk, BusLeft;
    WorkCostBounded(s, hist);
  }

  lemma {:induction false} RestAnswers(s: Stack, hist: seq<Orig>)
    requires Whole(s, hist) && AtRest(s.tc)
    ensures s.tc.calls == Ids(hist) && Quiet(s.bus) && s.mem.pending.None?
  {
    hide Housed, Coupled, Sized;
    assert hist[..|hist|] == hist;
  }

  /** In any reachable state, 205 ticks for every block that is still outstanding suffice: unless the run
      stops for one of NoFailure's reasons, every request asked so far has been called back, in order
      and once, no store is left in the buffer, and the bus and the memory are at rest. */
  lemma {:induction false} EveryRequestAnswered(p: Params, events: seq<Event>, k: nat)
    requires p.Valid() && StateAfter(p, events).tc.failed.None?
    requires k > PER_BLOCK * Outstanding(StateAfter(p, events).tc)
    ensures var s := StateAfter(p, Passes(events, k));
            s.tc.failed.None? ==>
              s.tc.calls == Ids(Asked(p, events)) && AtRest(s.tc) && Quiet(s.bus) && s.mem.pending.None?
  {
    hide Whole, AtRest, Work, StateAfter, Asked, Passes;
    var s0, hist := Reached(p, events);
    WorkBounded(s0, hist);
    RunsDry(p, events, k);
    var s := StateAfter(p, Passes(events, k));
    if s.tc.failed.None? {
      WorkBounded(s, hist);
      RestAnswers(s, hist);
    }
  }
}
