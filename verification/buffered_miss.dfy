/** What the write buffer does to the guarantee that a miss is never already granted: with the buffer
    turned on and at least two ways, a run breaks it. */
module BufferedMiss {
  import opened Protocol
  import opened Bits
  import opened Geometry
  import opened Replacement
  import opened Split
  import opened TeamCache
  import opened LruSet
  import opened Requests
  import opened Bus
  import opened Lockstep
  import opened Stack
  import opened Liveness

  const STORE := Orig(Access(Store, 0, 1), 0, 1)
  const LOAD := Orig(Access(Load, 0, 1), 0, 2)

  /** Coherence's answers about block 0 before it is asked for, while it is awaited, and once owned. */
  const NOTHING := View({}, {})
  const ASKED := View({0}, {})
  const OWNED := View({0}, {0})

  lemma {:induction false} AtZero(p: Params)
    ensures p.BlockNumber(0) == 0 && p.SetIndex(0) == 0 && p.TagOf(0) == 0 && p.BlockAddress(0) == 0
  {
    DivUnique(0, p.B(), 0, 0);
    DivUnique(0, p.S(), 0, 0);
  }

  /** The one block of either request. */
  ghost function One(o: Orig): Part { Part(o.op.kind, 0, 1, o.proc, o.tag, Status.Queued, None, 0, 0) }

  lemma {:induction false} OneBlockOnly(p: Params, o: Orig)
    requires p.Valid() && o.op.addr == 0 && o.op.size == 1
    ensures PartCount(p, o.op) == 1 && Parts(p, o.op, o.proc, o.tag) == [One(o)]
  {
    AtZero(p);
    PartBounds(p, o.op, 0);
    Pow2Monotone(4, p.b);
    assert (0 + 0 + 1) * p.B() == p.B() >= 1;
  }

  /** The store is under way, in the buffer; `known` tells whether the processor has its callback. */
  ghost predicate Buffered(c: Cache, p: Params, known: bool) {
    && c.params == p && c.failed.None? && Sized(c) && c.active.None? && c.queue == [] && c.sequence == 0
    && c.buffer == Some(Buffer(One(STORE).(status := WaitingData, target := Some(Loc(0, 0))), known, false))
    && c.completion == (if known then None else Some(Completion(0, 1, 1, 0)))
    && |c.sets| >= 1 && forall w :: 0 <= w < |c.sets[0]| ==> !c.sets[0][w].valid
  }

  lemma {:induction false} StoreIsBuffered(p: Params)
    requires p.Valid() && p.mode == 1
    ensures var c := Step(Step(InitialCache(p), Arrive(STORE)), Clock(NOTHING));
            Buffered(c, p, false) && c.arrivals == [] && c.lower == [PermReq(0, 0)]
  {
    hide EvictThenFetch, StartMiss, Params.TagOf, Params.SetIndex, Params.BlockAddress, Params.VictimAddress, Params.RripMax;
    AtZero(p);
    OneBlockOnly(p, STORE);
    var c1 := Step(InitialCache(p), Arrive(STORE));
    var c2 := Prepare(c1.(arrivals := []), STORE);
    assert c1.sets[0] == seq(p.E, _ => Line(false, 0, 0, false));
    assert Step(c1, Clock(NOTHING)) == StartNextBlock(c2, NOTHING) by {
      hide StartNextBlock, Prepare;
    }
    FirstMissIsBuffered(c2, p);
  }

  lemma {:induction false} FirstMissIsBuffered(c: Cache, p: Params)
    requires p.mode == 1 && c.params == p && c.failed.None? && Sized(c) && c.active.None? && c.queue == [One(STORE)]
    requires c.buffer.None? && c.completion == Some(Completion(0, 1, 1, 0)) && c.sequence == 0
    requires |c.sets| >= 1 && forall w :: 0 <= w < |c.sets[0]| ==> !c.sets[0][w].valid
    ensures var c' := StartNextBlock(c, NOTHING);
            Buffered(c', p, false) && c'.arrivals == c.arrivals && c'.lower == c.lower + [PermReq(0, 0)]
  {
    hide Params.TagOf, Params.SetIndex, Params.BlockAddress, Params.VictimAddress, Params.RripMax;
    AtZero(p);
    var r := One(STORE).(status := WaitingData);
    EvictThenFetchIs(c.(queue := [], active := None, buffer := Some(Buffer(r, false, false))), NOTHING, true, r);
  }

  lemma {:induction false} StoreIsAcknowledged(c: Cache, p: Params)
    requires Buffered(c, p, false) && c.arrivals == []
    ensures var c' := Step(c, Clock(ASKED));
            && Buffered(c', p, true) && c'.arrivals == [] && c'.lower == c.lower
            && Buffered(Step(c', Arrive(LOAD)), p, true) && Step(c', Arrive(LOAD)).arrivals == [LOAD]
  {}

  /** The load misses, since the store's data is not there, and is parked. */
  lemma {:induction false} LoadIsParked(c: Cache, p: Params)
    requires p.Valid() && Buffered(c, p, true) && c.arrivals == [LOAD]
    ensures var c' := Step(c, Clock(ASKED));
            && c'.active.Some? && c'.active.value == One(LOAD).(status := WaitingBuffer)
            && c'.completion.Some? && Buffered(c'.(active := None, completion := None), p, true) && c'.lower == c.lower
  {
    AtZero(p);
    OneBlockOnly(p, LOAD);
    var c2 := Prepare(c.(arrivals := []), LOAD);
    assert Step(c, Clock(ASKED)) == StartNextBlock(c2, ASKED);
  }

  /** The store's data arrives; the parked load is started without being looked up again. */
  lemma {:induction false} LoadRestarts(c: Cache, p: Params)
    requires p.Valid() && p.E >= 2 && Parked(c, p)
    ensures var c' := FilledLine(c, true, c.buffer.value.request, Loc(0, 0), 0).(buffer := None);
            && Step(c, Event(OWNED, DataRecv, 0, 0)) == StartMiss(c', OWNED, c.active.value)
            && c'.params == p && c'.active == c.active && c'.completion.Some? && c'.failed.None?
            && |c'.sets| >= 1 && |c'.sets[0]| == p.E && forall w :: 1 <= w < p.E ==> !c'.sets[0][w].valid
  {
    hide StartMiss;
    AtZero(p);
    FilledIs(c, OWNED, true, c.buffer.value.request, Loc(0, 0), 0);
  }

  lemma {:induction false} LoadIsGranted(c: Cache, p: Params)
    requires p.Valid() && p.E >= 2 && Parked(c, p)
    ensures Step(c, Event(OWNED, DataRecv, 0, 0)).failed == Some(GrantedOnMiss)
  {
    AtZero(p);
    LoadRestarts(c, p);
    var c' := FilledLine(c, true, c.buffer.value.request, Loc(0, 0), 0).(buffer := None);
    EvictThenFetchIs(c', OWNED, false, c.active.value);
  }

  /* The same with coherence, bus and memory below. */

  /** The bus fetches block 0, and coherence awaits it. */
  ghost predicate Fetching0(s: Stack, left: int) {
    && s.dir == map[0 := InvalidModified] && s.tc.lower == []
    && InStep(s.mem, s.bus) && QueuesOk(s.bus) && Carries(s.bus, BusWr, 0) && BusLeft(s.bus) == left
  }

  ghost predicate Parked(c: Cache, p: Params) {
    && c.active == Some(One(LOAD).(status := WaitingBuffer)) && c.completion.Some?
    && Buffered(c.(active := None, completion := None), p, true)
  }

  lemma {:induction false} Views()
    ensures ViewOf(map[]) == NOTHING && ViewOf(map[0 := InvalidModified]) == ASKED && ViewOf(map[0 := Modified]) == OWNED
  {
    assert ViewOf(map[0 := InvalidModified]).held == {0};
    assert ViewOf(map[0 := Modified]).held == {0} == ViewOf(map[0 := Modified]).owned;
  }

  /** A tick in which the cache goes on to tc without a call, and the bus counts down. */
  lemma {:induction false} FetchGoesOn(s: Stack, tc: Cache, left: int)
    requires Fetching0(s, left) && left > 1 && s.tc.failed.None? && tc.failed.None? && tc.lower == []
    requires AccessTick(s.tc, ASKED) == tc
    ensures Tick(s).tc == tc && Fetching0(Tick(s), left - 1)
  {
    hide AccessTick, Advance;
    Views();
    CarriesTick(s.mem, s.bus, BusWr, 0);
    BusCloser(s.mem, s.bus, BusWr, 0);
    assert With(s, tc) == s.(tc := tc);
  }

  /** The store's miss goes to the bus. */
  lemma {:induction false} StoreIsSent(p: Params)
    requires p.Valid() && p.mode == 1
    ensures var s := StepStack(StepStack(Initial(p), Ask(STORE.op, STORE.tag)), Pass);
            Buffered(s.tc, p, false) && s.tc.arrivals == [] && Fetching0(s, 99)
  {
    hide AccessTick, AccessRequest, InitialCache;
    Views();
    StoreIsBuffered(p);
    var s1 := StepStack(Initial(p), Ask(STORE.op, STORE.tag));
    var c := AccessTick(s1.tc, NOTHING);
    var s0, s2 := s1.(tc := c.(lower := [])), With(s1, c);
    assert s2 == Lower(s0, PermReq(0, 0)) by {
      hide Lower;
      assert c.lower == [PermReq(0, 0)] && c.lower[1..] == [];
      assert LowerAll(Lower(s0, PermReq(0, 0)), []) == Lower(s0, PermReq(0, 0));
    }
    TickCountsDown(s2.mem, s2.bus);
  }

  lemma {:induction false} LoadIsStuck(p: Params, s: Stack)
    requires p.Valid() && Buffered(s.tc, p, false) && s.tc.arrivals == [] && Fetching0(s, 99)
    ensures var s' := StepStack(StepStack(StepStack(s, Pass), Ask(LOAD.op, LOAD.tag)), Pass);
            Parked(s'.tc, p) && Fetching0(s', 97)
  {
    hide AccessTick, Tick, InStep, QueuesOk, Carries, BusLeft;
    StoreIsAcknowledged(s.tc, p);
    FetchGoesOn(s, AccessTick(s.tc, ASKED), 99);
    var s4 := StepStack(Tick(s), Ask(LOAD.op, LOAD.tag));
    LoadIsParked(s4.tc, p);
    FetchGoesOn(s4, AccessTick(s4.tc, ASKED), 98);
  }

  lemma {:induction false} ParkedTick(s: Stack, p: Params, left: int)
    requires Parked(s.tc, p) && Fetching0(s, left)
    ensures AccessTick(s.tc, ASKED) == s.tc && s.tc.failed.None? && s.tc.lower == []
  {}

  lemma {:induction false} PassIsTick(s: Stack)
    requires s.tc.failed.None?
    ensures StepStack(s, Pass) == Tick(s)
  {
    hide Tick;
  }

  /** The parked load waits for the bus. */
  lemma {:induction false} StillParked(p: Params, events: seq<Event>, k: nat)
    requires k < 97 && var s := StateAfter(p, events); Parked(s.tc, p) && Fetching0(s, 97)
    ensures var s := StateAfter(p, Passes(events, k)); Parked(s.tc, p) && Fetching0(s, 97 - k)
  {
    hide Fetching0, Tick, AccessTick, Parked, StateAfter, Asked, StepStack;
    if k > 0 {
      StillParked(p, events, k - 1);
      var s := StateAfter(p, Passes(events, k - 1));
      OnePass(p, Passes(events, k - 1));
      ParkedTick(s, p, 98 - k);
      PassIsTick(s);
      FetchGoesOn(s, s.tc, 98 - k);
    }
  }

  /** When the data comes, coherence grants the block, and the load is started as a miss. */
  lemma {:induction false} GrantFails(p: Params, s: Stack)
    requires p.Valid() && p.E >= 2 && Parked(s.tc, p) && Fetching0(s, 1)
    ensures Tick(s).tc.failed == Some(GrantedOnMiss)
  {
    hide Advance, QueuesOk, AccessTick, AccessEvent;
    Views();
    ParkedTick(s, p, 1);
    assert With(s, s.tc) == s by { assert s.tc.(lower := []) == s.tc; }
    CarriesTick(s.mem, s.bus, BusWr, 0);
    BusCloser(s.mem, s.bus, BusWr, 0);
    LoadIsGranted(s.tc, p);
    assert s.dir[0 := Modified] == map[0 := Modified];
  }

  /** A store to block 0 misses and is buffered; a load of the same block comes before its data. */
  ghost function Scenario(): seq<Event> {
    Passes([Ask(STORE.op, STORE.tag), Pass, Pass, Ask(LOAD.op, LOAD.tag), Pass], 97)
  }

  lemma {:induction false} OneEvent(p: Params, events: seq<Event>, e: Event)
    ensures StateAfter(p, events + [e]) == StepStack(StateAfter(p, events), e)
  {
    assert (events + [e])[..|events|] == events;
  }

  lemma {:induction false} BufferedMissFails(p: Params)
    requires p.Valid() && p.mode == 1 && p.E >= 2
    ensures StateAfter(p, Scenario()).tc.failed == Some(GrantedOnMiss)
  {
    hide StepStack;
    var store, load := Ask(STORE.op, STORE.tag), Ask(LOAD.op, LOAD.tag);
    OneEvent(p, [], store);
    OneEvent(p, [store], Pass);
    OneEvent(p, [store, Pass], Pass);
    OneEvent(p, [store, Pass, Pass], load);
    OneEvent(p, [store, Pass, Pass, load], Pass);
    assert [] + [store] == [store] && [store] + [Pass] == [store, Pass] && [store, Pass] + [Pass] == [store, Pass, Pass];
    assert [store, Pass, Pass] + [load] == [store, Pass, Pass, load];
    assert [store, Pass, Pass, load] + [Pass] == [store, Pass, Pass, load, Pass];
    StoreIsSent(p);
    LoadIsStuck(p, StateAfter(p, [store, Pass]));
    AllParked(p, [store, Pass, Pass, load, Pass]);
  }

  lemma {:induction false} AllParked(p: Params, events: seq<Event>)
    requires p.Valid() && p.E >= 2
    requires var s := StateAfter(p, events); Parked(s.tc, p) && Fetching0(s, 97)
    ensures StateAfter(p, Passes(events, 97)).tc.failed == Some(GrantedOnMiss)
  {
    hide Tick, Fetching0;
    StillParked(p, events, 96);
    OnePass(p, Passes(events, 96));
    GrantFails(p, StateAfter(p, Passes(events, 96)));
  }

  /** For every accepted configuration: a miss that coherence has already granted is unreachable if and
      only if the write buffer is off or the cache is direct-mapped. */
  lemma {:induction false} GrantedOnMissIff(p: Params)
    requires p.Valid()
    ensures (forall events :: StateAfter(p, events).tc.failed != Some(GrantedOnMiss)) <==> p.mode == 0 || p.E == 1
  {
    hide StateAfter;
    if p.mode == 0 || p.E == 1 {
      forall events ensures StateAfter(p, events).tc.failed != Some(GrantedOnMiss) {
        NoFailure(p, events);
      }
    } else {
      BufferedMissFails(p);
    }
  }
}
