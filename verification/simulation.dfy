/** The components as the source has them: objects whose methods update their fields. Every method is
    tied to the function of System or Bus that says what it computes. A component's call up into the
    next one, made through a function pointer in the source, is returned as a value where the caller
    makes it. */
module Simulation {
  import opened Protocol
  import opened Bus
  import opened System
  import opened Processors
  import opened Progress
  import Timing
  import Coherence

  /** memory/memory.c */
  class MemoryUnit {
    var pending: Option<MemReq>
    var countDown: int
    var failed: bool

    function Model(): Memory reads this { Memory(pending, countDown, failed) }

    constructor ()
      ensures Model() == Memory(None, 0, false)
    {
      pending, countDown, failed := None, 0, false;
    }

    method BusReq(a: Addr, p: nat) returns (delay: int)
      modifies this
      ensures Model() == Fetch(old(Model()), a, p) && delay == DRAM_FETCH_TICKS
    {
      if pending.Some? { failed := true; }
      pending := Some(MemReq(a, p, false));
      countDown := DRAM_FETCH_TICKS;
      delay := countDown;
    }

    method Tick(inter: Interconnect)
      modifies this, inter
      ensures (Model(), inter.Model()) == MemTick(old(Model()), old(inter.Model()))
    {
      if countDown > 0 {
        if pending.None? {
          failed := true;
        } else {
          var transfer, asserted := inter.BusReqCacheTransfer(pending.value.addr, pending.value.proc);
          if !asserted { failed := true; }
          if transfer {
            pending := Some(pending.value.(squelch := true));
            countDown := 0;
          } else {
            countDown := countDown - 1;
          }
        }
      }
      if pending.Some? && countDown == 0 {
        if !pending.value.squelch {
          inter.MemReqCallback(pending.value.proc, pending.value.addr);
        }
        pending := None;
      }
    }
  }

  /** interconnect/interconnect.c */
  class Interconnect {
    var pendingRequest: Option<Txn>
    var queuedRequests: seq<seq<Txn>>
    var countDown: int
    var lastProc: nat
    var failed: bool

    function Model(): Bus reads this { Bus(pendingRequest, queuedRequests, countDown, lastProc, failed) }

    constructor (processorCount: nat)
      ensures Model() == Bus(None, seq(processorCount, _ => []), 0, 0, false)
    {
      pendingRequest, queuedRequests := None, seq(processorCount, _ => []);
      countDown, lastProc, failed := 0, 0, false;
    }

    method EnqBusRequest(t: Txn)
      modifies this`queuedRequests
      ensures Model() == Enqueue(old(Model()), t)
    {
      if t.proc < |queuedRequests| {
        queuedRequests := queuedRequests[t.proc := queuedRequests[t.proc] + [t]];
      }
    }

    method DeqBusRequest(p: nat) returns (t: Txn)
      requires p < |queuedRequests| && queuedRequests[p] != []
      modifies this`queuedRequests
      ensures t == old(queuedRequests)[p][0]
      ensures queuedRequests == old(queuedRequests)[p := old(queuedRequests)[p][1..]]
    {
      t := queuedRequests[p][0];
      queuedRequests := queuedRequests[p := queuedRequests[p][1..]];
    }

    method MemReqCallback(p: nat, a: Addr)
      modifies this
      ensures Model() == MemAnswer(old(Model()), p, a)
    {
      if pendingRequest.None? { return; }
      if pendingRequest.value.addr == a && pendingRequest.value.proc == p {
        pendingRequest := Some(pendingRequest.value.(dataAvail := true));
      }
    }

    /** `asserted` is false when the source's assertion of a pending request fails. */
    method BusReqCacheTransfer(a: Addr, p: nat) returns (transfer: bool, asserted: bool)
      ensures transfer == CacheTransfer(Model(), a, p) && asserted == pendingRequest.Some?
    {
      asserted := pendingRequest.Some?;
      transfer := asserted && pendingRequest.value.addr == a && pendingRequest.value.proc == p
                  && pendingRequest.value.phase == TransferingCache;
    }

    method BusReq(brt: BusType, a: Addr, p: nat)
      modifies this
      ensures Model() == Request(old(Model()), brt, a, p)
    {
      if pendingRequest.None? {
        if brt == Shared { failed := true; }
        pendingRequest := Some(NewTxn(brt, WaitingCache, a, p));
        countDown := CACHE_DELAY;
      } else if brt == Shared && pendingRequest.value.addr == a {
        pendingRequest := Some(pendingRequest.value.(shared := true));
      } else if brt == Data && pendingRequest.value.addr == a && pendingRequest.value.phase == WaitingMemory {
        pendingRequest := Some(pendingRequest.value.(data := true, phase := TransferingCache));
        countDown := CACHE_TRANSFER;
      } else {
        if brt == Shared { failed := true; }
        EnqBusRequest(NewTxn(brt, Queued, a, p));
      }
    }

    /** The round-robin search of tick. */
    method TakeNext()
      modifies this
      ensures Model() == Arbitrate(old(Model()))
    {
      var i := 0;
      while i < |queuedRequests|
        invariant 0 <= i <= |queuedRequests| && Model() == old(Model())
        invariant NextProc(Model(), 0) == NextProc(Model(), i)
      {
        var pos := (i + lastProc) % |queuedRequests|;
        if queuedRequests[pos] != [] {
          var t := DeqBusRequest(pos);
          pendingRequest := Some(t.(phase := WaitingCache));
          countDown := CACHE_DELAY;
          lastProc := (pos + 1) % |queuedRequests|;
          return;
        }
        i := i + 1;
      }
    }

    /** tick, up to the call into coherence that it ends with. */
    method Tick(mem: MemoryUnit) returns (call: Call)
      modifies this, mem
      ensures (mem.Model(), Model(), call) == Advance(old(mem.Model()), old(Model()))
    {
      call := NoCall;
      mem.Tick(this);
      if countDown > 0 {
        if pendingRequest.None? {
          failed := true;
          return;
        }
        countDown := countDown - 1;
        if pendingRequest.value.dataAvail {
          pendingRequest := Some(pendingRequest.value.(phase := TransferingMemory));
          countDown := 0;
        }
        if countDown == 0 {
          call := CountedDown(mem);
        }
      } else if countDown == 0 {
        TakeNext();
      }
    }

    method CountedDown(mem: MemoryUnit) returns (call: Call)
      requires pendingRequest.Some? && countDown == 0
      modifies this, mem
      ensures var t := old(pendingRequest).value;
              match t.phase
              case WaitingCache =>
                var t' := t.(phase := WaitingMemory);
                && mem.Model() == Fetch(old(mem.Model()), t.addr, t.proc)
                && Model() == old(Model()).(pending := Some(t'), countDown := DRAM_FETCH_TICKS)
                && call == if t.brt != Data then SnoopOthers(t') else NoCall
              case TransferingMemory =>
                mem.Model() == old(mem.Model()) && Model() == old(Model())
                && call == Deliver(if t.shared then Shared else Data, t)
              case TransferingCache =>
                mem.Model() == old(mem.Model()) && Model() == old(Model())
                && call == Deliver(if t.shared then Shared else t.brt, t)
              case _ => mem.Model() == old(mem.Model()) && Model() == old(Model()) && call == NoCall
    {
      call := NoCall;
      var t := pendingRequest.value;
      if t.phase == WaitingCache {
        countDown := mem.BusReq(t.addr, t.proc);
        pendingRequest := Some(t.(phase := WaitingMemory));
        if t.brt != Data {
          call := SnoopOthers(t.(phase := WaitingMemory));
        }
      } else if t.phase == TransferingMemory {
        call := Deliver(if t.shared then Shared else Data, t);
      } else if t.phase == TransferingCache {
        call := Deliver(if t.shared then Shared else t.brt, t);
      }
    }

    method SnoopsDone()
      modifies this
      ensures Model() == AfterSnoops(old(Model()))
    {
      if pendingRequest.Some? && pendingRequest.value.data {
        pendingRequest := Some(pendingRequest.value.(brt := Data));
      }
    }

    method DeliveryDone()
      modifies this
      ensures Model() == AfterDelivery(old(Model()))
    {
      pendingRequest := None;
    }
  }

  /** simpleCache/cache.c: the two request lists. */
  class SimpleCache {
    var pendReq: seq<Req>
    var readyReq: seq<Req>
    var failed: bool

    function Model(): Cache reads this { Cache(pendReq, readyReq, failed) }

    constructor ()
      ensures Model() == Cache([], [], false)
    {
      pendReq, readyReq, failed := [], [], false;
    }

    /** The walk along the pending list. */
    method CoherCallback(act: Action, p: nat, a: Addr)
      modifies this
      ensures Model() == System.CoherCallback(old(Model()), act, p, a)
    {
      if pendReq == [] { failed := true; }
      if act != DataRecv { return; }
      var i := 0;
      while i < |pendReq| && !(pendReq[i].proc == p && pendReq[i].addr == a)
        invariant 0 <= i <= |pendReq|
        invariant FindReq(pendReq, p, a)
                  == match FindReq(pendReq[i..], p, a) case None => None case Some(j) => Some(i + j)
      {
        assert pendReq[i..][1..] == pendReq[i + 1..];
        i := i + 1;
      }
      if i < |pendReq| {
        readyReq := [pendReq[i]] + readyReq;
        pendReq := pendReq[..i] + pendReq[i + 1..];
      } else {
        failed := true;
      }
    }
  }

  /** The simulator: processors, cache, coherence with its splay trees, bus and memory. */
  class Simulator {
    const mem: MemoryUnit
    const inter: Interconnect
    const cache: SimpleCache
    const blockSize: nat
    const coher: Coherence.CoherStates
    var pendingMem: seq<bool>
    var pendingBranch: seq<nat>
    var memOpTag: seq<nat>
    var traces: seq<seq<Op>>
    ghost var deliveries: seq<Delivery>
    ghost var issued: nat
    ghost var calls: seq<Callback>

    ghost function Model(): Sys
      reads this, mem, inter, cache, coher
    {
      Sys(mem.Model(), inter.Model(), coher.dirs, cache.Model(),
          Procs(pendingMem, pendingBranch, memOpTag, traces), deliveries, calls, issued, blockSize)
    }

    constructor (traces: seq<seq<Op>>, blockSize: nat)
      ensures coher.Valid() && Model() == Initial(traces, blockSize)
      ensures fresh(mem) && fresh(inter) && fresh(cache) && fresh(coher) && fresh(coher.splays) && fresh(coher.nodes)
    {
      var n := |traces|;
      mem := new MemoryUnit();
      inter := new Interconnect(n);
      cache := new SimpleCache();
      this.blockSize, this.traces := blockSize, traces;
      coher := new Coherence.CoherStates(n);
      pendingMem, pendingBranch, memOpTag := seq(n, _ => false), seq(n, _ => 0), seq(n, _ => 0);
      deliveries, calls, issued := [], [], 0;
    }

    /** busReq of coherence/coherence.c. */
    method CoherBusReq(brt: BusType, a: Addr, p: nat)
      requires coher.Valid()
      modifies this, inter, cache, coher, coher.splays, coher.nodes
      ensures coher.Valid() && fresh(coher.nodes - old(coher.nodes))
      ensures Model() == CohRequest(old(Model()), brt, a, p)
    {
      hide Coherence.Forest, Request, System.CoherCallback;
      if p < |coher.trees| {
        var ca, msg := coher.BusReq(p, brt, a);
        if msg.Send? {
          inter.BusReq(msg.brt, a, p);
        }
        cache.CoherCallback(ca, p, a);
      }
    }

    /** permReq of coherence/coherence.c. */
    method CoherPermReq(a: Addr, p: nat) returns (perm: bool)
      requires coher.Valid() && p < |coher.trees|
      modifies this, inter, coher, coher.splays, coher.nodes
      ensures coher.Valid() && fresh(coher.nodes - old(coher.nodes))
      ensures (Model(), perm) == PermReq(old(Model()), a, p)
    {
      hide Coherence.Forest, Request;
      var msg;
      perm, msg := coher.PermReq(p, a);
      ghost var m := Model();
      assert m == old(Model()).(coh := m.coh);
      if msg.Send? {
        inter.BusReq(msg.brt, a, p);
        issued := issued + 1;
      }
    }

    /** The snoop loop of the bus. */
    method SnoopLoop(t: Txn)
      requires coher.Valid()
      modifies this, inter, cache, coher, coher.splays, coher.nodes
      ensures coher.Valid() && fresh(coher.nodes - old(coher.nodes))
      ensures Model() == SnoopFrom(old(Model()), t, 0)
    {
      hide Coherence.Forest;
      var i := 0;
      while i < |coher.trees|
        invariant 0 <= i <= |coher.trees| && coher.Valid() && fresh(coher.nodes - old(coher.nodes))
        invariant SnoopFrom(Model(), t, i) == SnoopFrom(old(Model()), t, 0)
        decreases |coher.trees| - i
      {
        if i != t.proc {
          CoherBusReq(t.brt, t.addr, i);
        }
        i := i + 1;
      }
    }

    /** tick of coherence: the bus's tick and the calls it makes. */
    method CoherTick()
      requires coher.Valid()
      modifies this, mem, inter, cache, coher, coher.splays, coher.nodes
      ensures coher.Valid() && fresh(coher.nodes - old(coher.nodes))
      ensures Model() == BusTick(old(Model()))
    {
      hide Coherence.Forest;
      var call := inter.Tick(mem);
      match call
      case NoCall =>
      case SnoopOthers(t) =>
        SnoopLoop(t);
        inter.SnoopsDone();
      case Deliver(brt, t) =>
        CoherBusReq(brt, t.addr, t.proc);
        inter.DeliveryDone();
        deliveries := deliveries + [Delivery(t.addr, t.proc, t.phase == TransferingMemory)];
    }

    /** memOpCallback of processor/processor.c. */
    method MemOpCallback(p: nat, tag: int)
      modifies this
      ensures Model() == System.MemOpCallback(old(Model()), p, tag)
    {
      if p < |memOpTag| && p < |pendingMem| && tag / 256 == memOpTag[p] {
        memOpTag := memOpTag[p := memOpTag[p] + 1];
        pendingMem := pendingMem[p := false];
        calls := calls + [Callback(p, tag, true)];
      } else {
        calls := calls + [Callback(p, tag, false)];
      }
    }

    /** The callback of the first ready request. */
    method CallBackReady()
      requires cache.readyReq != []
      modifies this, cache
      ensures Drain(Model()) == Drain(old(Model())) && cache.readyReq == old(cache.readyReq)[1..]
    {
      hide System.MemOpCallback;
      var r := cache.readyReq[0];
      cache.readyReq := cache.readyReq[1..];
      MemOpCallback(r.proc, r.tag);
    }

    /** tick of simpleCache. */
    method CacheTick()
      requires coher.Valid()
      modifies this, mem, inter, cache, coher, coher.splays, coher.nodes
      ensures coher.Valid() && fresh(coher.nodes - old(coher.nodes))
      ensures Model() == System.CacheTick(old(Model()))
    {
      hide Coherence.Forest, BusTick, Advance, CohRequest, SnoopFrom, MakeTag;
      CoherTick();
      while cache.readyReq != []
        invariant coher.Valid() && fresh(coher.nodes - old(coher.nodes))
        invariant Drain(Model()) == Drain(BusTick(old(Model())))
        decreases |cache.readyReq|
      {
        CallBackReady();
      }
    }

    /** A request of p for the aligned block that contains the address. */
    ghost predicate ForBlock(r: Req, memAddress: Addr, p: nat, tag: int) {
      && r.proc == p && r.tag == tag
      && (blockSize >= 1 ==> r.addr % blockSize == 0 && r.addr <= memAddress < r.addr + blockSize)
    }

    /** memoryRequest of simpleCache. */
    method MemoryRequest(memAddress: Addr, p: nat, tag: int)
      requires p < |coher.trees|
      requires coher.Valid()
      modifies this, inter, cache, coher, coher.splays, coher.nodes
      ensures coher.Valid() && fresh(coher.nodes - old(coher.nodes))
      ensures Model() == System.MemoryRequest(old(Model()), memAddress, p, tag)
      ensures exists r :: ForBlock(r, memAddress, p, tag)
                && if cache.pendReq == old(cache.pendReq) then cache.readyReq == [r] + old(cache.readyReq)
                   else cache.pendReq == [r] + old(cache.pendReq) && cache.readyReq == old(cache.readyReq)
    {
      hide Coherence.Forest;
      var addr := Block(blockSize, memAddress);
      if blockSize >= 1 { Timing.BlockCovers(blockSize, memAddress); }
      assert ForBlock(Req(tag, addr, p), memAddress, p, tag);
      var perm := CoherPermReq(addr, p);
      if perm {
        cache.readyReq := [Req(tag, addr, p)] + cache.readyReq;
      } else {
        cache.pendReq := [Req(tag, addr, p)] + cache.pendReq;
      }
    }

    /** Processor i's part of tick. */
    method IssueOne(i: nat) returns (progress: bool)
      requires Sized(Model(), |coher.trees|) && i < |coher.trees|
      requires coher.Valid()
      modifies this, inter, cache, coher, coher.splays, coher.nodes
      ensures coher.Valid() && fresh(coher.nodes - old(coher.nodes))
      ensures (Model(), progress) == Issue(old(Model()), i)
    {
      hide Coherence.Forest, PermReq;
      if pendingMem[i] {
        return true;
      }
      if pendingBranch[i] > 0 {
        pendingBranch := pendingBranch[i := pendingBranch[i] - 1];
        return true;
      }
      if traces[i] == [] {
        return false;
      }
      var nextOp := traces[i][0];
      traces := traces[i := traces[i][1..]];
      match nextOp {
        case Mem(_, a) =>
          pendingMem := pendingMem[i := true];
          MemoryRequest(a, i, MakeTag(i, memOpTag[i]));
        case Branch(mispredicted) =>
          pendingBranch := pendingBranch[i := if mispredicted then 1 else 0];
        case Alu =>
      }
      progress := true;
    }

    /** tick of processor/processor.c. */
    method ProcessorTick() returns (progress: bool)
      requires Sized(Model(), |coher.trees|)
      requires coher.Valid()
      modifies this, mem, inter, cache, coher, coher.splays, coher.nodes
      ensures coher.Valid() && fresh(coher.nodes - old(coher.nodes))
      ensures (Model(), progress) == Tick(old(Model()))
    {
      hide Issue, Sized, Coherence.Forest;
      CacheTick();
      progress := false;
      var i := 0;
      while i < |coher.trees|
        invariant 0 <= i <= |coher.trees| && Sized(Model(), |coher.trees|)
        invariant coher.Valid() && fresh(coher.nodes - old(coher.nodes))
        invariant IssueFrom(Model(), i, progress) == Tick(old(Model()))
        decreases |coher.trees| - i
      {
        var more := IssueOne(i);
        progress := progress || more;
        i := i + 1;
      }
    }

    /** The main loop of engine/engine.c. It runs up to and with the first tick without progress and
        counts its ticks; then all traces are used up and every memory operation has been called back. */
    method MainLoop(ghost goal: seq<nat>) returns (ticks: nat)
      requires Inv(Model(), goal)
      requires coher.Valid()
      modifies this, mem, inter, cache, coher, coher.splays, coher.nodes
      ensures coher.Valid() && fresh(coher.nodes - old(coher.nodes))
      ensures Inv(Model(), goal)
      ensures 1 <= ticks <= old(Work(Model())) + 1 && Model() == After(old(Model()), ticks)
      ensures FirstIdle(old(Model()), ticks - 1)
      ensures Finished(Model(), goal)
    {
      hide Coherence.Forest, Inv, Tick, Work, After, FirstIdle, Finished, SoFar, Sized;
      ghost var start := Model();
      LoopStarts(start, goal);
      ticks := 0;
      var progress := true;
      while progress
        invariant coher.Valid() && fresh(coher.nodes - old(coher.nodes))
        invariant SoFar(start, Model(), goal, ticks, progress)
        decreases progress, Work(Model())
      {
        Round(start, Model(), goal, ticks);
        progress := ProcessorTick();
        ticks := ticks + 1;
      }
      LoopDone(start, Model(), goal, ticks);
    }
  }

  /** All traces are used up and every memory operation has been called back. */
  ghost predicate Finished(s: Sys, goal: seq<nat>) {
    |s.procs.traces| == |goal| && forall p :: 0 <= p < |goal| ==> s.procs.traces[p] == [] && CallsTo(s.calls, p) == goal[p]
  }

  /** Tick number k, counted from 0, is the first one without progress. */
  ghost predicate FirstIdle(s: Sys, k: nat) {
    Sized(s, |s.coh|) && !Tick(After(s, k)).1 && forall j :: 0 <= j < k ==> Tick(After(s, j)).1
  }

  /** The main loop after k ticks: all with progress, or all but the last. */
  ghost predicate SoFar(start: Sys, s: Sys, goal: seq<nat>, k: nat, progress: bool) {
    && Sized(start, |start.coh|) && Sized(s, |s.coh|) && Inv(s, goal) && s == After(start, k)
    && if progress then k + Work(s) <= Work(start) && forall j :: 0 <= j < k ==> Tick(After(start, j)).1
       else 1 <= k <= Work(start) + 1 && FirstIdle(start, k - 1) && Finished(s, goal)
  }

  lemma {:induction false} LoopStarts(s: Sys, goal: seq<nat>)
    requires Inv(s, goal)
    ensures SoFar(s, s, goal, 0, true)
  {
    Timing.Basics(s, goal);
  }

  lemma {:induction false} LoopDone(start: Sys, s: Sys, goal: seq<nat>, k: nat)
    requires SoFar(start, s, goal, k, false)
    ensures Inv(s, goal) && Sized(start, |start.coh|) && s == After(start, k)
    ensures 1 <= k <= Work(start) + 1 && FirstIdle(start, k - 1) && Finished(s, goal)
  {}

  lemma {:induction false} Round(start: Sys, s: Sys, goal: seq<nat>, k: nat)
    requires SoFar(start, s, goal, k, true)
    ensures Sized(s, |s.coh|) && SoFar(start, Tick(s).0, goal, k + 1, Tick(s).1)
    ensures 0 <= Work(Tick(s).0) <= Work(s) && (Tick(s).1 ==> Work(Tick(s).0) < Work(s))
  {
    hide Inv, Tick, Work, After, CallsTo;
    TickKept(s, goal);
    ProgressLowersWork(s, goal);
    Timing.Basics(s, goal);
    Timing.Basics(Tick(s).0, goal);
    OneMoreTick(start, k);
    if !Tick(s).1 { NoProgressMeansDone(s, goal); }
  }

  lemma {:induction false} FirstIdleUnique(s: Sys, j: nat, k: nat)
    requires FirstIdle(s, j) && FirstIdle(s, k)
    ensures j == k
  {}

  /** The whole simulation, from the initial state: no failure, at most 104 ticks per operation and
      one more, and every memory operation of every trace called back. The ticks reported are those of
      the run up to and with the first one without progress. For one processor their number is exact: one
      for every operation, one for every mispredicted branch, 99 for every block, and the last. */
  method Simulate(traces: seq<seq<Op>>, blockSize: nat) returns (ticks: nat, sim: Simulator)
    requires CountAccepted(|traces|)
    ensures 1 <= ticks <= 104 * Sum(Lengths(traces)) + 1
    ensures sim.Model() == After(Initial(traces, blockSize), ticks) && FirstIdle(Initial(traces, blockSize), ticks - 1)
    ensures |traces| == 1 && blockSize >= 1 ==>
              ticks == |traces[0]| + Timing.Mispredictions(traces[0]) + 99 * |Timing.BlocksOf(traces[0], blockSize)| + 1
    ensures !sim.mem.failed && !sim.inter.failed && !sim.cache.failed
    ensures |sim.traces| == |traces|
    ensures forall p :: 0 <= p < |traces| ==> sim.traces[p] == [] && CallsTo(sim.calls, p) == MemOps(traces[p])
  {
    hide Tick, After, Work, FirstIdle, Inv, Finished, Goals, CallsTo, MemOps, Sum, Lengths;
    sim := new Simulator(traces, blockSize);
    InitialInv(traces, blockSize);
    InitialWork(traces, blockSize);
    ticks := sim.MainLoop(Goals(traces));
    EndState(sim.Model(), traces);
    if |traces| == 1 && blockSize >= 1 { OneProcessor(traces, blockSize, ticks - 1); }
  }

  lemma {:induction false} EndState(s: Sys, traces: seq<seq<Op>>)
    requires Inv(s, Goals(traces)) && Finished(s, Goals(traces))
    ensures !s.mem.failed && !s.bus.failed && !s.cache.failed && |s.procs.traces| == |traces|
    ensures forall p :: 0 <= p < |traces| ==> s.procs.traces[p] == [] && CallsTo(s.calls, p) == MemOps(traces[p])
  {}

  lemma {:induction false} OneProcessor(traces: seq<seq<Op>>, blockSize: nat, k: nat)
    requires |traces| == 1 && blockSize >= 1 && FirstIdle(Initial(traces, blockSize), k)
    ensures k == |traces[0]| + Timing.Mispredictions(traces[0]) + 99 * |Timing.BlocksOf(traces[0], blockSize)|
  {
    hide Tick, After;
    assert traces == [traces[0]];
    Timing.OneProcessorTicks(traces[0], blockSize);
    var n := |traces[0]| + Timing.Mispredictions(traces[0]) + 99 * |Timing.BlocksOf(traces[0], blockSize)|;
    FirstIdleUnique(Initial(traces, blockSize), k, n);
  }
}
