/** The whole memory side for one processor: teamCache with the write buffer on or off, MI coherence, the
    bus and the memory, in one state, driven by requests and ticks. */
module Stack {
  import opened Protocol
  import opened Bits
  import opened Geometry
  import opened Split
  import Replacement
  import Placement
  import opened TeamCache
  import opened Requests
  import opened Residency
  import opened Bus
  import opened Lockstep

  datatype Stack = Stack(tc: Cache, dir: Directory, bus: Bus, mem: Memory)

  function ViewOf(d: Directory): View {
    View(set a | a in d && d[a] != Invalid, set a | a in d && d[a] == Modified)
  }

  /** permReq or invlReq of coherence. */
  function Lower(s: Stack, call: LowerCall): Stack {
    var state := GetState(s.dir, call.addr);
    match call
    case PermReq(a, p) =>
      var (next, _, sends) := CacheMI(state);
      s.(dir := s.dir[a := next], bus := if sends then Request(s.bus, BusWr, a, 0) else s.bus)
    case InvlReq(a, p) =>
      s.(dir := s.dir - {a}, bus := if state != Invalid then Request(s.bus, Data, a, 0) else s.bus)
  }

  function LowerAll(s: Stack, calls: seq<LowerCall>): (s': Stack)
    ensures s'.tc == s.tc && s'.mem == s.mem
    decreases |calls|
  {
    if calls == [] then s else LowerAll(Lower(s, calls[0]), calls[1..])
  }

  /** The cache goes on to tc, and its calls reach coherence; a failure ends the program. */
  function With(s: Stack, tc: Cache): Stack {
    if tc.failed.Some? then s.(tc := tc) else LowerAll(s.(tc := tc.(lower := [])), tc.lower)
  }

  /** busReq of coherence for a delivery: the protocol's snoop, then the cache's event. */
  function Delivered(s: Stack, brt: BusType, a: Addr): Stack {
    var state := GetState(s.dir, a);
    var (next, act, sends) := SnoopMI(brt, state);
    var d := Snooped(s.dir, a, next);
    var s1 := s.(dir := d, bus := if sends then Request(s.bus, Data, a, 0) else s.bus);
    With(s1, AccessEvent(s1.tc, ViewOf(d), act, 0, a))
  }

  /** The bus's tick; there is no other cache to snoop. */
  function BusTick(s: Stack): Stack {
    var (m, b, call) := Advance(s.mem, s.bus);
    var s1 := s.(mem := m, bus := b);
    match call
    case NoCall => s1
    case SnoopOthers(t) => s1.(bus := AfterSnoops(b))
    case Deliver(brt, t) =>
      var s2 := Delivered(s1, brt, t.addr);
      s2.(bus := AfterDelivery(s2.bus))
  }

  function Tick(s: Stack): Stack {
    var s1 := With(s, AccessTick(s.tc, ViewOf(s.dir)));
    if s1.tc.failed.Some? then s1 else BusTick(s1)
  }

  datatype Event = Ask(op: Access, tag: int) | Pass

  function StepStack(s: Stack, e: Event): Stack {
    if s.tc.failed.Some? then s
    else match e
      case Ask(op, tag) => s.(tc := AccessRequest(s.tc, Orig(op, 0, tag)))
      case Pass => Tick(s)
  }

  function Initial(p: Params): Stack {
    Stack(InitialCache(p), map[], Bus(None, [[]], 0, 0, false), Memory(None, 0, false))
  }

  ghost function StateAfter(p: Params, events: seq<Event>): Stack {
    if events == [] then Initial(p) else StepStack(StateAfter(p, events[..|events| - 1]), events[|events| - 1])
  }

  /** The requests accepted before a failure. */
  ghost function Asked(p: Params, events: seq<Event>): seq<Orig> {
    if events == [] then []
    else
      var before, e := events[..|events| - 1], events[|events| - 1];
      Asked(p, before) + (if StateAfter(p, before).tc.failed.None? && e.Ask? && Accepted(Orig(e.op, 0, e.tag))
                          then [Orig(e.op, 0, e.tag)] else [])
  }

  /* The invariant. */

  /** Coherence's state of a, as far as the cache can tell. */
  ghost function Expected(c: Cache, a: Addr): CohState {
    if Awaiting(c) == Some(a) then InvalidModified
    else if Resident(c, a) && Flushing(c) != Some(a) then Modified
    else Invalid
  }

  ghost predicate Coupled(c: Cache, d: Directory) {
    NoStoredInvalid(d) && forall a: Addr :: GetState(d, a) == Expected(c, a)
  }

  /** The only queue is q. */
  ghost predicate Queue(b: Bus, q: seq<Txn>) { |b.queues| == 1 && b.queues[0] == q }

  ghost predicate Quiet(b: Bus) { b.pending.None? && Queue(b, []) }

  /** The bus carries one transaction, pending or queued. */
  ghost predicate Carries(b: Bus, brt: BusType, a: Addr) {
    match b.pending
    case Some(t) =>
      t.brt == brt && t.addr == a && t.proc == 0 && (t.phase == WaitingCache || t.phase == WaitingMemory) && Queue(b, [])
    case None => Queue(b, [NewTxn(brt, Phase.Queued, a, 0)])
  }

  /** The bus works for exactly what the cache waits for. */
  ghost predicate Busy(c: Cache, b: Bus) {
    if Flushing(c).Some? then Carries(b, Data, Flushing(c).value)
    else if Awaiting(c).Some? then Carries(b, BusWr, Awaiting(c).value)
    else Quiet(b)
  }

  /** No assertion of bus or memory has failed. */
  ghost predicate Sound(s: Stack) { !s.bus.failed && !s.mem.failed }

  ghost predicate Whole(s: Stack, hist: seq<Orig>) {
    && s.tc.failed.None? && Structure(s.tc, hist) && Housed(s.tc) && s.tc.lower == [] && OneProcessor(hist)
    && InStep(s.mem, s.bus) && QueuesOk(s.bus) && Coupled(s.tc, s.dir) && Busy(s.tc, s.bus)
  }

  /* The bus with one processor. */

  lemma {:induction false} QuietTick(m: Memory, b: Bus)
    requires InStep(m, b) && QueuesOk(b) && Quiet(b)
    ensures Advance(m, b) == (m, b, NoCall)
  {}

  lemma {:induction false} CarriesTick(m: Memory, b: Bus, brt: BusType, a: Addr)
    requires InStep(m, b) && QueuesOk(b) && Carries(b, brt, a)
    ensures var (m', b', call) := Advance(m, b);
            && QueuesOk(b')
            && (if call.Deliver? then
                  && call.brt == Data && call.t.addr == a
                  && b'.pending.Some? && b'.pending.value.phase == TransferingMemory && Queue(b', [])
                  && InStep(m', AfterDelivery(b'))
                else InStep(m', b') && Carries(b', brt, a) && AfterSnoops(b') == b')
  {
    hide Advance;
    if b.pending.None? {
      TickWhenFree(m, b);
      assert b.queues[0] != [];
    } else if b.countDown > 1 {
      TickCountsDown(m, b);
    } else if b.pending.value.phase == WaitingCache {
      TickStartsMemory(m, b);
    } else {
      TickMemoryDelivers(m, b);
    }
  }

  lemma {:induction false} RequestWhenQuiet(m: Memory, b: Bus, brt: BusType, a: Addr)
    requires InStep(m, b) && QueuesOk(b) && Quiet(b) && (brt == BusWr || brt == Data)
    ensures var b' := Request(b, brt, a, 0); InStep(m, b') && QueuesOk(b') && Carries(b', brt, a)
  {}

  /** A request made while data is being delivered is queued. */
  lemma {:induction false} RequestAtDelivery(m: Memory, b: Bus, brt: BusType, a: Addr)
    requires b.pending.Some? && b.pending.value.phase == TransferingMemory && Queue(b, []) && (brt == BusWr || brt == Data)
    requires InStep(m, AfterDelivery(b)) && QueuesOk(b)
    ensures var b' := AfterDelivery(Request(b, brt, a, 0)); InStep(m, b') && QueuesOk(b') && Carries(b', brt, a)
  {}

  /* The cache's calls. */

  /** The failures that the cache can meet here. */
  ghost predicate Allowed(c: Cache, hist: seq<Orig>) {
    Excused(c, hist) || c.failed == Some(GrantedOnMiss)
  }

  lemma {:induction false} LowerIrrelevant(c: Cache, hist: seq<Orig>)
    ensures var c' := c.(lower := []);
            && (Structure(c, hist) ==> Structure(c', hist)) && (Housed(c) ==> Housed(c'))
            && Working(c') == Working(c) && Awaiting(c') == Awaiting(c) && Flushing(c') == Flushing(c)
            && SameResidents(c, c') && (Doomed(c') <==> Doomed(c))
  {
    hide SetHome, Replacement.FindWay, Params.TagOf, Params.SetIndex, Params.BlockAddress, Params.VictimAddress;
  }

  /** Nothing waits: coherence has exactly the blocks in the cache. */
  ghost predicate Owns(d: Directory, c: Cache) {
    NoStoredInvalid(d) && forall a: Addr :: GetState(d, a) == if Resident(c, a) then Modified else Invalid
  }

  lemma {:induction false} OwnsAgrees(c: Cache, d: Directory)
    requires Owns(d, c)
    ensures Agrees(c, ViewOf(d))
  {
    hide Resident;
    forall a: Addr
      ensures (a in ViewOf(d).held <==> Resident(c, a)) && (a in ViewOf(d).owned <==> Resident(c, a))
    {
      assert GetState(d, a) == if Resident(c, a) then Modified else Invalid;
    }
  }

  lemma {:induction false} IdleOwns(c: Cache, d: Directory)
    requires Working(c).None?
    ensures Coupled(c, d) <==> Owns(d, c)
  {
    hide Resident;
    assert forall a: Addr :: Expected(c, a) == if Resident(c, a) then Modified else Invalid;
  }

  lemma {:induction false} SameOwns(c: Cache, c': Cache, d: Directory)
    requires SameResidents(c, c')
    ensures Owns(d, c) <==> Owns(d, c')
    ensures Awaiting(c') == Awaiting(c) && Flushing(c') == Flushing(c) ==> (Coupled(c, d) <==> Coupled(c', d))
  {
    hide Resident;
  }

  /** What a call sends on the bus. */
  ghost function Sent(call: LowerCall): BusType { if call.PermReq? then BusWr else Data }

  /** The call of a request that starts: one message, and coherence fits the request that waits now. */
  lemma {:induction false} LowerCoupled(s: Stack, c: Cache)
    requires Owns(s.dir, c) && Working(c).Some? && Called(c, c)
    ensures var call := c.lower[0];
            && c.lower == [call] && LowerAll(s, c.lower) == Lower(s, call)
            && Coupled(c, Lower(s, call).dir) && Lower(s, call).bus == Request(s.bus, Sent(call), call.addr, 0)
            && (if Flushing(c).Some? then call == InvlReq(Flushing(c).value, 0) else call == PermReq(Awaiting(c).value, 0))
  {
    hide Resident;
    var a, call := c.lower[0].addr, c.lower[0];
    assert GetState(s.dir, a) == if Resident(c, a) then Modified else Invalid;
    assert LowerAll(Lower(s, call), []) == Lower(s, call);
    var d := Lower(s, call).dir;
    forall b: Addr ensures GetState(d, b) == Expected(c, b) {
      assert GetState(s.dir, b) == if Resident(c, b) then Modified else Invalid;
    }
  }

  /** The cache's part of a tick. It dooms no request and fails in no other way than for its input. */
  lemma {:induction false} StartWhole(s: Stack, hist: seq<Orig>)
    requires Whole(s, hist)
    ensures var s' := With(s, AccessTick(s.tc, ViewOf(s.dir)));
            && Excused(s'.tc, hist) && Sound(s')
            && (s'.tc.failed.None? ==> Whole(s', hist) && (Doomed(s'.tc) <==> Doomed(s.tc)))
  {
    hide Resident, Structure, AccessTick, Coupled, QueuesOk, Homed, WorkOk, ParkedOk, DoomedPart, Called, Owns, SameLines;
    var c, view := s.tc, ViewOf(s.dir);
    var c' := AccessTick(c, view);
    if Working(c).None? {
      IdleOwns(c, s.dir);
      OwnsAgrees(c, s.dir);
    }
    TickEffect(c, view, hist);
    TickKept(c, view, hist);
    if c'.failed.None? {
      LowerIrrelevant(c', hist);
      var tc := c'.(lower := []);
      assert Inv(c', hist);
      TickedSame(c, c');
      if Working(c') == Working(c) {
        SameOwns(c, tc, s.dir);
        assert With(s, c') == s.(tc := tc);
      } else {
        SameOwns(c, c', s.dir);
        StartedWhole(s, c', hist);
      }
    }
  }

  lemma {:induction false} TickedSame(c: Cache, c': Cache)
    requires Ticked(c, c')
    ensures SameResidents(c, c') && SameResidents(c, c'.(lower := [])) && (Doomed(c') <==> Doomed(c))
    ensures Working(c') != Working(c) ==> Working(c).None? && Working(c').Some? && Called(c', c')
  {
    hide SetHome, Replacement.FindWay, WorkOk, Params.TagOf, Params.SetIndex, Params.BlockAddress, Params.VictimAddress;
    SameLinesKeep(c, c');
    if Working(c).Some? { SameWork(c, c', Working(c).value); }
  }

  /** A quiet stack whose cache makes its one call. */
  lemma {:induction false} StartedWhole(s: Stack, c': Cache, hist: seq<Orig>)
    requires Whole(s, hist) && Working(s.tc).None? && Owns(s.dir, c')
    requires c'.failed.None? && Working(c').Some? && Called(c', c')
    requires Structure(c', hist) && Housed(c')
    ensures Whole(With(s, c'), hist)
  {
    hide Resident, Structure, Homed, WorkOk, ParkedOk, Owns, Called, Coupled;
    LowerIrrelevant(c', hist);
    var s0 := s.(tc := c'.(lower := []));
    LowerCoupled(s0, c');
    var call := c'.lower[0];
    RequestWhenQuiet(s.mem, s.bus, Sent(call), call.addr);
    SameOwns(c', c'.(lower := []), Lower(s0, call).dir);
  }

  /** The delivery that ends a flush: the cache gives up the victim and asks for the data. */
  lemma {:induction false} FlushWhole(s: Stack, hist: seq<Orig>, m: Memory, b: Bus)
    requires Whole(s, hist) && Flushing(s.tc).Some?
    requires b.pending.Some? && b.pending.value.phase == TransferingMemory && Queue(b, [])
    requires InStep(m, AfterDelivery(b)) && QueuesOk(b)
    ensures var s' := Delivered(s.(mem := m, bus := b), Data, Flushing(s.tc).value);
            && s'.tc.failed == (if Doomed(s.tc) then Some(GrantedOnMiss) else None)
            && Sound(s'.(bus := AfterDelivery(s'.bus)))
            && (s'.tc.failed.None? ==> Whole(s'.(bus := AfterDelivery(s'.bus)), hist) && !Doomed(s'.tc))
  {
    hide Resident, Structure, Homed, WorkOk, ParkedOk, AccessEvent, Owns, Called;
    var c, view, v := s.tc, ViewOf(s.dir), Flushing(s.tc).value;
    assert GetState(s.dir, v) == Expected(c, v) == Invalid;
    FlushView(c, s.dir);
    if c.active.Some? { ActiveInRange(c, hist); }
    FlushEffect(c, view, hist);
    EventKept(c, view, FlushComplete, 0, v, hist);
    var s1, c' := s.(mem := m, bus := b), AccessEvent(c, view, FlushComplete, 0, v);
    assert Delivered(s1, Data, v) == With(s1, c');
    if c'.failed.None? {
      FlushedOwns(c, c', s.dir);
      assert Called(c', c') by { FetchIsCall(c'); }
      AskedWhole(s1, c', hist);
    }
  }

  lemma {:induction false} FlushView(c: Cache, d: Directory)
    requires Coupled(c, d) && Flushing(c).Some?
    ensures forall a: Addr :: a in ViewOf(d).owned <==> Resident(c, a) && Some(a) != Flushing(c)
  {
    hide Resident;
    forall a: Addr ensures a in ViewOf(d).owned <==> Resident(c, a) && Some(a) != Flushing(c) {
      assert GetState(d, a) == Expected(c, a);
    }
  }

  lemma {:induction false} ActiveInRange(c: Cache, hist: seq<Orig>)
    requires Structure(c, hist) && c.active.Some?
    ensures c.active.value.addr < WORD && (OneProcessor(hist) ==> c.active.value.proc == 0)
  {
    Placement.PartBlock(c, hist, c.active.value);
  }

  lemma {:induction false} FlushedOwns(c: Cache, c': Cache, d: Directory)
    requires Coupled(c, d) && Flushing(c).Some? && Resident(c, Flushing(c).value)
    requires forall b: Addr :: Resident(c', b) <==> Resident(c, b) && Some(b) != Flushing(c)
    ensures Owns(d, c')
  {
    hide Resident;
    forall a: Addr ensures GetState(d, a) == if Resident(c', a) then Modified else Invalid {
      assert GetState(d, a) == Expected(c, a);
    }
  }

  /** The call that a request makes while the bus delivers: it is queued behind the delivery. */
  lemma {:induction false} AskedWhole(s: Stack, c': Cache, hist: seq<Orig>)
    requires s.bus.pending.Some? && s.bus.pending.value.phase == TransferingMemory && Queue(s.bus, [])
    requires InStep(s.mem, AfterDelivery(s.bus)) && QueuesOk(s.bus)
    requires Owns(s.dir, c') && OneProcessor(hist)
    requires c'.failed.None? && Structure(c', hist) && Housed(c') && Working(c').Some? && Called(c', c')
    ensures var s' := With(s, c'); Whole(s'.(bus := AfterDelivery(s'.bus)), hist) && (Doomed(s'.tc) <==> Doomed(c'))
  {
    hide Resident, Structure, Homed, WorkOk, ParkedOk, Owns, Called, Coupled;
    LowerIrrelevant(c', hist);
    var s0 := s.(tc := c'.(lower := []));
    LowerCoupled(s0, c');
    var call := c'.lower[0];
    RequestAtDelivery(s.mem, s.bus, Sent(call), call.addr);
    SameOwns(c', c'.(lower := []), Lower(s0, call).dir);
  }

  lemma {:induction false} FetchIsCall(c: Cache)
    requires Awaiting(c).Some? && !Resident(c, Awaiting(c).value) && c.lower == [PermReq(Awaiting(c).value, 0)]
    ensures Called(c, c)
  {
    hide Resident;
  }

  /** The delivery of a block: the cache fills it in, coherence owns it; another request may start. The
      only new failure is that of a request that was parked for this block and takes another way. */
  lemma {:induction false} FillWhole(s: Stack, hist: seq<Orig>, m: Memory, b: Bus)
    requires Whole(s, hist) && Awaiting(s.tc).Some?
    requires b.pending.Some? && b.pending.value.phase == TransferingMemory && Queue(b, [])
    requires InStep(m, AfterDelivery(b)) && QueuesOk(b)
    ensures var s' := Delivered(s.(mem := m, bus := b), Data, Awaiting(s.tc).value);
            && Allowed(s'.tc, hist) && Sound(s'.(bus := AfterDelivery(s'.bus)))
            && (s'.tc.failed.None? ==> Whole(s'.(bus := AfterDelivery(s'.bus)), hist))
            && (s'.tc.failed != Some(SequenceExhausted) ==> (Lost(s'.tc) <==> ClashElsewhere(s.tc)))
  {
    hide Resident, Structure, Homed, WorkOk, ParkedOk, AccessEvent, Owns, Called, Doomed, ClashElsewhere;
    var c, a := s.tc, Awaiting(s.tc).value;
    var d := s.dir[a := Modified];
    assert GetState(s.dir, a) == Expected(c, a) == InvalidModified;
    FillView(c, s.dir);
    FillEffect(c, ViewOf(d), hist);
    EventKept(c, ViewOf(d), DataRecv, 0, a, hist);
    var s1, c' := s.(mem := m, bus := b, dir := d), AccessEvent(c, ViewOf(d), DataRecv, 0, a);
    assert Delivered(s.(mem := m, bus := b), Data, a) == With(s1, c');
    if c'.failed.None? {
      FilledOwns(c, c', s.dir);
      if Working(c').Some? {
        AskedWhole(s1, c', hist);
      } else {
        assert c' == c'.(lower := []);
        IdleOwns(c', d);
      }
    }
  }

  lemma {:induction false} FillView(c: Cache, d: Directory)
    requires Coupled(c, d) && Awaiting(c).Some?
    ensures var view := ViewOf(d[Awaiting(c).value := Modified]);
            forall b: Addr :: (b in view.held <==> Resident(c, b) || Some(b) == Awaiting(c))
                              && (b in view.owned <==> Resident(c, b) || Some(b) == Awaiting(c))
  {
    hide Resident;
    var view := ViewOf(d[Awaiting(c).value := Modified]);
    forall b: Addr
      ensures (b in view.held <==> Resident(c, b) || Some(b) == Awaiting(c))
      ensures (b in view.owned <==> Resident(c, b) || Some(b) == Awaiting(c))
    {
      assert GetState(d, b) == Expected(c, b);
    }
  }

  lemma {:induction false} FilledOwns(c: Cache, c': Cache, d: Directory)
    requires Coupled(c, d) && Awaiting(c).Some?
    requires forall b: Addr :: Resident(c', b) <==> Resident(c, b) || Some(b) == Awaiting(c)
    ensures Owns(d[Awaiting(c).value := Modified], c')
  {
    hide Resident;
    var d' := d[Awaiting(c).value := Modified];
    forall a: Addr ensures GetState(d', a) == if Resident(c', a) then Modified else Invalid {
      assert GetState(d, a) == Expected(c, a);
    }
  }

  /** The cache fails or becomes doomed in the bus's part of a tick exactly if a doomed request's flush
      is done, or the bus delivers the block that a parked request wants and the request takes a way
      other than the block's. */
  lemma {:induction false} BusWhole(s: Stack, hist: seq<Orig>)
    requires Whole(s, hist)
    ensures var s', delivers := BusTick(s), Advance(s.mem, s.bus).2.Deliver?;
            && Allowed(s'.tc, hist) && Sound(s') && (s'.tc.failed.None? ==> Whole(s', hist))
            && (s'.tc.failed != Some(SequenceExhausted) ==>
                  (Lost(s'.tc) <==> Doomed(s.tc) || (delivers && ClashElsewhere(s.tc))))
            && (Doomed(s.tc) && delivers ==> s'.tc.failed == Some(GrantedOnMiss))
  {
    hide Resident, Structure, Housed, Coupled, Advance, Delivered, ClashElsewhere, DoomedPart;
    var (m, b, call) := Advance(s.mem, s.bus);
    NoClash(s.tc);
    if Flushing(s.tc).Some? {
      CarriesTick(s.mem, s.bus, Data, Flushing(s.tc).value);
      if call.Deliver? { FlushWhole(s, hist, m, b); }
    } else if Awaiting(s.tc).Some? {
      CarriesTick(s.mem, s.bus, BusWr, Awaiting(s.tc).value);
      if call.Deliver? { FillWhole(s, hist, m, b); }
    } else {
      QuietTick(s.mem, s.bus);
    }
  }

  lemma {:induction false} NoClash(c: Cache)
    ensures Flushing(c).Some? ==> !ClashElsewhere(c)
    ensures Flushing(c).None? ==> !Doomed(c)
  {}

  /** After the cache's part of a tick the parked request clashes with the block that is awaited. */
  ghost predicate ClashStarted(s: Stack, hist: seq<Orig>) {
    var s1 := With(s, AccessTick(s.tc, ViewOf(s.dir)));
    s1.tc.failed.None? && Whole(s1, hist) && ClashElsewhere(s1.tc)
  }

  lemma {:induction false} StepWhole(s: Stack, e: Event, hist: seq<Orig>)
    requires Whole(s, hist)
    ensures var s' := StepStack(s, e);
            var hist' := if e.Ask? && Accepted(Orig(e.op, 0, e.tag)) then hist + [Orig(e.op, 0, e.tag)] else hist;
            && Sound(s') && (s'.tc.failed.None? ==> Whole(s', hist'))
            && (Allowed(s'.tc, hist') || (s'.tc.failed == Some(InvalidRequest) && e.Ask? && !Accepted(Orig(e.op, 0, e.tag))))
            && (Lost(s'.tc) && !Doomed(s.tc) ==> e.Pass? && ClashStarted(s, hist))
  {
    hide Resident, Structure, Housed, Coupled, ClashElsewhere, DoomedPart, AccessTick, With, BusTick;
    if e.Pass? {
      StartWhole(s, hist);
      var s1 := With(s, AccessTick(s.tc, ViewOf(s.dir)));
      if s1.tc.failed.None? { BusWhole(s1, hist); }
    } else {
      var o := Orig(e.op, 0, e.tag);
      ArriveKept(s.tc, o, hist);
      AskedHoused(s, o);
    }
  }

  lemma {:induction false} AskedHoused(s: Stack, o: Orig)
    requires Coupled(s.tc, s.dir) && Housed(s.tc) && Busy(s.tc, s.bus)
    ensures var c' := AccessRequest(s.tc, o);
            Coupled(c', s.dir) && Housed(c') && Busy(c', s.bus) && (Doomed(c') <==> Doomed(s.tc))
  {
    hide SetHome, Replacement.FindWay, GetState, Carries, Queue,
      Params.TagOf, Params.SetIndex, Params.BlockAddress, Params.VictimAddress;
    var c' := AccessRequest(s.tc, o);
    assert SameResidents(s.tc, c');
  }

  /* Whole runs. */

  lemma {:induction false} InitialWhole(p: Params)
    requires p.Valid()
    ensures Whole(Initial(p), []) && !Doomed(InitialCache(p))
  {
    hide Resident, Homed, Structure, InitialCache, ParkedOk;
    EmptyAtFirst(p);
    IdleAtFirst(p);
    assert Coupled(InitialCache(p), map[]);
  }

  lemma {:induction false} IdleAtFirst(p: Params)
    requires p.Valid()
    ensures var c := InitialCache(p);
            Structure(c, []) && Working(c).None? && ParkedOk(c) && c.failed.None? && c.lower == []
  {}

  lemma {:induction false} EmptyAtFirst(p: Params)
    requires p.Valid()
    ensures Homed(InitialCache(p)) && forall a: Addr :: !Resident(InitialCache(p), a)
  {
    hide Placement.Home;
    var c := InitialCache(p);
    assert forall k, w :: 0 <= k < |c.sets| && 0 <= w < |c.sets[k]| ==> !c.sets[k][w].valid;
  }

  /** A request that is neither a load nor a store of at least one byte. */
  ghost predicate Malformed(events: seq<Event>) {
    exists i :: 0 <= i < |events| && events[i].Ask? && !Accepted(Orig(events[i].op, 0, events[i].tag))
  }

  /** With the buffer off, or with one way, no request clashes with a block it does not find. */
  ghost predicate Safe(p: Params) { p.mode == 0 || p.E == 1 }

  lemma {:induction false} SafeNeverClashes(c: Cache, hist: seq<Orig>)
    requires Structure(c, hist) && Housed(c) && Safe(c.params)
    ensures !ClashElsewhere(c)
  {
    hide Sized, Requests.InOrder, OneOwner, TargetOk, FilledCache, TargetElsewhere;
    if c.params.mode != 0 && ClashElsewhere(c) {
      OneWayHolds(c);
    }
  }

  /** The only way of the set holds the block that has just come. */
  lemma {:induction false} OneWayHolds(c: Cache)
    requires Housed(c) && c.params.E == 1 && Clash(c) && InBuffer(c)
    requires Working(c) == Some(c.buffer.value.request) && c.active.value.addr < WORD
    requires Working(c).value.target.Some? && LineAt(c, Working(c).value.target.value).Some?
    ensures !TargetElsewhere(FilledCache(c), c.active.value)
  {
    hide SetHome, Params.TagOf, Params.SetIndex, Params.BlockAddress, Params.VictimAddress;
    FindsBlock(c, c.active.value.addr);
    FindsBlock(c, c.buffer.value.request.addr);
  }

  lemma {:induction false} Reached(p: Params, events: seq<Event>) returns (s: Stack, hist: seq<Orig>)
    requires p.Valid()
    ensures s == StateAfter(p, events) && hist == Asked(p, events) && s.tc.params == p
    ensures Sound(s) && (s.tc.failed.None? ==> Whole(s, hist))
    ensures Allowed(s.tc, hist) || (s.tc.failed == Some(InvalidRequest) && Malformed(events))
    ensures Safe(p) ==> !Lost(s.tc)
  {
    hide Resident, Structure, Housed, Coupled, StepStack, InStep, Doomed, ClashElsewhere;
    if events == [] {
      InitialWhole(p);
      s, hist := Initial(p), [];
      WholeSound(s, hist);
    } else {
      var before, e := events[..|events| - 1], events[|events| - 1];
      s, hist := Reached(p, before);
      assert hist + [] == hist;
      var s' := StepStack(s, e);
      StepParams(s, e);
      if s.tc.failed.None? {
        StepWhole(s, e, hist);
        if ClashStarted(s, hist) && Safe(p) {
          var s1 := With(s, AccessTick(s.tc, ViewOf(s.dir)));
          assert s1.tc.params == p;
          SafeNeverClashes(s1.tc, hist);
        }
        hist := if e.Ask? && Accepted(Orig(e.op, 0, e.tag)) then hist + [Orig(e.op, 0, e.tag)] else hist;
      }
      s := s';
      MalformedStays(events);
    }
  }

  lemma {:induction false} MalformedStays(events: seq<Event>)
    requires events != []
    ensures var before, e := events[..|events| - 1], events[|events| - 1];
            Malformed(before) || (e.Ask? && !Accepted(Orig(e.op, 0, e.tag))) ==> Malformed(events)
  {}

  lemma {:induction false} WholeSound(s: Stack, hist: seq<Orig>)
    requires Whole(s, hist)
    ensures Sound(s)
  {}

  lemma {:induction false} StepParams(s: Stack, e: Event)
    ensures StepStack(s, e).tc.params == s.tc.params
    ensures s.tc.failed.Some? ==> StepStack(s, e) == s
  {
    hide AccessTick, Advance, AccessEvent, AccessRequest;
  }

  /** Whole-stack safety: a run over one processor only ever stops on a malformed request, on a request
      that reaches past the last 64-bit address, under LRU when all time stamps are used up, or, only
      with the write buffer on and two ways or more, because coherence grants a miss at once. No other
      `fail` of the cache and no assertion of cache, coherence, bus or memory is reachable. */
  lemma {:induction false} NoFailure(p: Params, events: seq<Event>)
    requires p.Valid()
    ensures var s, hist := StateAfter(p, events), Asked(p, events);
            && Sound(s)
            && (|| s.tc.failed.None?
                || (s.tc.failed == Some(InvalidRequest) && Malformed(events))
                || (s.tc.failed == Some(RangeOverflow) && Overflows(hist))
                || (s.tc.failed == Some(SequenceExhausted) && p.policy == Lru && s.tc.sequence == WORD - 1)
                || (s.tc.failed == Some(GrantedOnMiss) && p.mode == 1 && p.E >= 2))
  {
    hide StateAfter, Asked, Whole, Malformed, Doomed;
    var s, hist := Reached(p, events);
  }

  /** Residency, with the write buffer on or off: a block is valid in the cache exactly if coherence has
      it in MODIFIED, but for the one victim whose flush is outstanding, which is valid and INVALID;
      INVALID_MODIFIED is the block whose data is awaited; and the bus carries exactly that flush or that
      request, and nothing when the cache waits for nothing. */
  lemma {:induction false} ResidentIffModified(p: Params, events: seq<Event>, a: Addr)
    requires p.Valid() && StateAfter(p, events).tc.failed.None?
    ensures var s := StateAfter(p, events);
            && (Flushing(s.tc) != Some(a) ==> (Resident(s.tc, a) <==> GetState(s.dir, a) == Modified))
            && (Flushing(s.tc) == Some(a) ==> Resident(s.tc, a) && GetState(s.dir, a) == Invalid)
            && (Awaiting(s.tc) == Some(a) <==> GetState(s.dir, a) == InvalidModified)
            && (Flushing(s.tc) == Some(a) ==> Carries(s.bus, Data, a))
            && (Awaiting(s.tc) == Some(a) ==> Carries(s.bus, BusWr, a))
            && (Flushing(s.tc).None? && Awaiting(s.tc).None? ==> Quiet(s.bus))
  {
    hide StateAfter, Resident, Structure, Housed;
    var s, hist := Reached(p, events);
    WaitingResidents(s.tc);
    assert GetState(s.dir, a) == Expected(s.tc, a);
  }

  /** The victim is still in the cache, the block that is awaited is not. */
  lemma {:induction false} WaitingResidents(c: Cache)
    requires Housed(c)
    ensures Flushing(c).Some? ==> Resident(c, Flushing(c).value)
    ensures Awaiting(c).Some? ==> !Resident(c, Awaiting(c).value)
  {
    hide SetHome, Params.TagOf, Params.SetIndex, Params.BlockAddress, Params.VictimAddress;
    if Working(c).Some? {
      var r := Working(c).value;
      FindsBlock(c, r.addr);
      if r.status == WaitingEviction {
        var k, w := r.target.value.set_, r.target.value.way;
        DroppedResident(c, c.(sets := c.sets[k := c.sets[k][w := c.sets[k][w].(valid := false)]]), k, w, r.victim);
      }
    }
  }

  /** Exactly when the failure of a granted miss comes about. A request is lost (it fails, or waits for a
      flush after which it must fail) exactly in the tick in which the bus delivers a block that a
      parked request wants, if that request then takes a way other than the block's. */
  lemma {:induction false} LostExactlyWhen(p: Params, events: seq<Event>)
    requires p.Valid() && StateAfter(p, events).tc.failed.None? && !Doomed(StateAfter(p, events).tc)
    ensures var s := StateAfter(p, events);
            var s1, s' := With(s, AccessTick(s.tc, ViewOf(s.dir))), StepStack(s, Pass);
            s1.tc.failed.None? && s'.tc.failed != Some(SequenceExhausted) ==>
              (Lost(s'.tc) <==> Advance(s1.mem, s1.bus).2.Deliver? && ClashElsewhere(s1.tc))
  {
    hide StateAfter, Whole, Resident, Doomed, ClashElsewhere, AccessTick, With, BusTick, Advance;
    var s, hist := Reached(p, events);
    StartWhole(s, hist);
    var s1 := With(s, AccessTick(s.tc, ViewOf(s.dir)));
    if s1.tc.failed.None? { BusWhole(s1, hist); }
  }

  /** A doomed request stays doomed until its flush is done, and fails then. */
  lemma {:induction false} DoomedFails(p: Params, events: seq<Event>)
    requires p.Valid() && StateAfter(p, events).tc.failed.None? && Doomed(StateAfter(p, events).tc)
    ensures var s := StateAfter(p, events);
            var s1, s' := With(s, AccessTick(s.tc, ViewOf(s.dir))), StepStack(s, Pass);
            s1.tc.failed.None? ==>
              if Advance(s1.mem, s1.bus).2.Deliver? then s'.tc.failed == Some(GrantedOnMiss)
              else s'.tc.failed.None? && Doomed(s'.tc)
  {
    hide StateAfter, Resident, Structure, Housed, Coupled, DoomedPart, ClashElsewhere, AccessTick, With, Advance, Delivered;
    var s, hist := Reached(p, events);
    StartWhole(s, hist);
    var s1 := With(s, AccessTick(s.tc, ViewOf(s.dir)));
    if s1.tc.failed.None? {
      BusWhole(s1, hist);
      NoClash(s1.tc);
    }
  }
}
