/** Timing and termination of the simulation: exact latency of a transaction, and a ranking of whole
    states that every tick with progress lowers. */
module Progress {
  import opened Protocol
  import opened Bus
  import opened Lockstep
  import opened System
  import opened Ownership
  import opened Processors

  /* What issuing operations leaves alone. */

  /** No change for a pending transaction, the owners, and the history of deliveries. */
  ghost predicate BusyBusKept(s: Sys, s': Sys) {
    && |s'.coh| == |s.coh| && s'.deliveries == s.deliveries
    && (s.bus.pending.Some? ==> s'.bus.pending == s.bus.pending && s'.bus.countDown == s.bus.countDown)
    && (forall a :: HasOwner(s'.coh, a) <==> HasOwner(s.coh, a))
  }

  lemma {:induction false} IssueKeepsBusyBus(s: Sys, goal: seq<nat>, i: nat)
    requires Inv(s, goal) && i < |s.coh|
    ensures BusyBusKept(s, Issue(s, i).0)
  {
    var p, s' := s.procs, Issue(s, i).0;
    if !p.pendingMem[i] && p.pendingBranch[i] == 0 && p.traces[i] != [] && p.traces[i][0].Mem? {
      var a, tag := p.traces[i][0].addr, MakeTag(i, p.memOpTag[i]);
      RequestCases(s, goal, a, i, tag);
      if St(s.coh, i, Block(s.blockSize, a)) != Modified {
        SameOwners(s.coh, Missed(s, Block(s.blockSize, a), i, tag).coh);
      }
    }
  }

  lemma {:induction false} IssueFromKeepsBusyBus(s: Sys, goal: seq<nat>, i: nat, progress: bool)
    requires Inv(s, goal)
    ensures BusyBusKept(s, IssueFrom(s, i, progress).0)
    decreases |s.coh| - i
  {
    if i < |s.coh| {
      IssueKept(s, goal, i);
      IssueKeepsBusyBus(s, goal, i);
      var (s', more) := Issue(s, i);
      IssueFromKeepsBusyBus(s', goal, i + 1, progress || more);
    }
  }

  lemma {:induction false} DrainKeepsBus(s: Sys)
    ensures Drain(s).bus == s.bus && Drain(s).coh == s.coh && Drain(s).mem == s.mem
    ensures Drain(s).deliveries == s.deliveries && Drain(s).blockSize == s.blockSize
    decreases |s.cache.ready|
  {
    if s.cache.ready != [] { DrainKeepsBus(Popped(s)); }
  }

  /* Exact latency. */

  /** Ticks until the pending transaction delivers its data: a block that some cache owns comes from
      that cache, any other from memory. */
  ghost function Remaining(s: Sys): nat
    requires InStep(s.mem, s.bus) && s.bus.pending.Some?
  {
    var t := s.bus.pending.value;
    if t.phase != WaitingCache then s.bus.countDown
    else s.bus.countDown + (if HasOwner(s.coh, t.addr) then CACHE_TRANSFER else DRAM_FETCH_TICKS)
  }

  ghost predicate FromMemory(s: Sys)
    requires s.bus.pending.Some?
  {
    var t := s.bus.pending.value;
    if t.phase == WaitingCache then !HasOwner(s.coh, t.addr) else t.phase == WaitingMemory
  }

  /** The same transaction is pending in both states. */
  ghost predicate SameTxn(s: Sys, s': Sys) {
    && s.bus.pending.Some? && s'.bus.pending.Some?
    && s'.bus.pending.value.addr == s.bus.pending.value.addr
    && s'.bus.pending.value.proc == s.bus.pending.value.proc
  }

  lemma {:induction false} OneTickCloser(s: Sys, goal: seq<nat>)
    requires Inv(s, goal) && s.bus.pending.Some?
    ensures Inv(Tick(s).0, goal)
    ensures var s' := Tick(s).0;
            if Remaining(s) > 1 then
              SameTxn(s, s') && Remaining(s') == Remaining(s) - 1 && (FromMemory(s') <==> FromMemory(s))
              && s'.deliveries == s.deliveries
            else
              s'.deliveries == s.deliveries + [Delivery(s.bus.pending.value.addr, s.bus.pending.value.proc, FromMemory(s))]
  {
    hide Tagged, Counted, Processors.InOrder, Tokens, Advance, IssueFrom, Drain;
    TickKept(s, goal);
    BusTickCases(s);
    BusTickKept(s, goal);
    DrainKept(BusTick(s), goal);
    DrainKeepsBus(BusTick(s));
    IssueFromKeepsBusyBus(CacheTick(s), goal, 0, false);
  }

  /** A pending transaction delivers after exactly Remaining ticks, not a tick earlier, once, to its
      requester, and from the source that was fixed when the caches were asked: 100 ticks through
      memory or 20 from an owner, counted from the moment it enters the pending slot. */
  lemma {:induction false} ExactLatency(s: Sys, goal: seq<nat>, k: nat)
    requires Inv(s, goal) && s.bus.pending.Some? && k <= Remaining(s)
    ensures k < Remaining(s) ==> SameTxn(s, After(s, k)) && After(s, k).deliveries == s.deliveries
    ensures k == Remaining(s) ==>
              After(s, k).deliveries
              == s.deliveries + [Delivery(s.bus.pending.value.addr, s.bus.pending.value.proc, FromMemory(s))]
    ensures s.bus.pending.value.phase == WaitingCache && s.bus.countDown == CACHE_DELAY ==>
              Remaining(s) == if FromMemory(s) then 100 else 20
    decreases k
  {
    hide Tick, Tagged, Counted, Processors.InOrder, Waits, Owned, Tokens;
    if k > 0 {
      OneTickCloser(s, goal);
      if Remaining(s) > 1 {
        ExactLatency(Tick(s).0, goal, k - 1);
      }
    }
  }

  /* Termination. */

  ghost function Sum(xs: seq<nat>): nat {
    if xs == [] then 0 else xs[0] + Sum(xs[1..])
  }

  lemma {:induction false} SumUpdate(xs: seq<nat>, i: nat, v: nat)
    requires i < |xs|
    ensures Sum(xs[i := v]) + xs[i] == Sum(xs) + v
  {
    if i > 0 {
      SumUpdate(xs[1..], i - 1, v);
      assert xs[i := v][1..] == xs[1..][i - 1 := v];
    } else {
      assert xs[0 := v][1..] == xs[1..];
    }
  }

  ghost function Lengths<T>(xss: seq<seq<T>>): seq<nat> {
    seq(|xss|, i requires 0 <= i < |xss| => |xss[i]|)
  }

  lemma {:induction false} LengthsUpdate<T>(xss: seq<seq<T>>, i: nat, xs: seq<T>)
    requires i < |xss|
    ensures Sum(Lengths(xss[i := xs])) + |xss[i]| == Sum(Lengths(xss)) + |xs|
  {
    assert Lengths(xss[i := xs]) == Lengths(xss)[i := |xs|];
    SumUpdate(Lengths(xss), i, |xs|);
  }

  /** Ticks the bus still owes: 100 for a transaction, and one each to take it from its queue and to
      call its processor back. */
  ghost function PendingWork(b: Bus): int {
    if b.pending.None? then 0
    else if b.pending.value.phase == WaitingCache then b.countDown + DRAM_FETCH_TICKS + 1
    else b.countDown + 1
  }

  ghost function BusWork(b: Bus): int {
    PendingWork(b) + 102 * Sum(Lengths(b.queues))
  }

  /** What is left to do in a state; an operation not yet issued counts 104. */
  ghost function Work(s: Sys): int {
    BusWork(s.bus) + |s.cache.ready| + Sum(s.procs.pendingBranch) + 104 * Sum(Lengths(s.procs.traces))
  }

  lemma {:induction false} QueuesEmpty(xss: seq<seq<Txn>>)
    ensures Sum(Lengths(xss)) == 0 <==> forall i :: 0 <= i < |xss| ==> xss[i] == []
  {
    if xss != [] {
      assert Lengths(xss)[1..] == Lengths(xss[1..]);
      QueuesEmpty(xss[1..]);
      assert forall i :: 0 < i < |xss| ==> xss[i] == xss[1..][i - 1];
    }
  }

  /** While any transaction is under way, every bus tick lowers the work. */
  lemma {:induction false} BusTickWork(s: Sys)
    requires Core(s)
    ensures BusWork(s.bus) >= 0
    ensures var s' := BusTick(s);
            && s'.procs == s.procs
            && Work(s') <= Work(s) - (if BusWork(s.bus) > 0 then 1 else 0)
            && (BusWork(s.bus) == 0 ==> BusWork(s'.bus) == 0)
  {
    BusTickCases(s);
    var b := s.bus;
    if b.pending.None? {
      TickWhenFree(s.mem, b);
      QueuesEmpty(b.queues);
      if NextProc(b, 0).Some? {
        var pos := NextProc(b, 0).value;
        LengthsUpdate(b.queues, pos, b.queues[pos][1..]);
      }
    }
  }

  /** Without bus work no processor waits. */
  lemma {:induction false} NoWorkNobodyWaits(s: Sys, goal: seq<nat>, p: nat)
    requires Inv(s, goal) && BusWork(s.bus) == 0 && s.cache.ready == [] && p < |s.coh|
    ensures !s.procs.pendingMem[p]
  {
    QueuesEmpty(s.bus.queues);
    if s.procs.pendingMem[p] {
      assert false;
    }
  }

  lemma {:induction false} IssueWork(s: Sys, goal: seq<nat>, i: nat)
    requires Inv(s, goal) && i < |s.coh|
    ensures Work(Issue(s, i).0) <= Work(s)
    ensures !s.procs.pendingMem[i] && Issue(s, i).1 ==> Work(Issue(s, i).0) < Work(s)
    ensures forall j :: 0 <= j < |s.coh| && j != i ==> Issue(s, i).0.procs.pendingMem[j] == s.procs.pendingMem[j]
  {
    hide Core, Tagged, Processors.InOrder, MemoryRequest, Sum, Lengths, BusWork, Missed, MakeTag, CallsTo, MemOps;
    var p := s.procs;
    if !p.pendingMem[i] {
      if p.pendingBranch[i] > 0 {
        SumUpdate(p.pendingBranch, i, p.pendingBranch[i] - 1);
      } else if p.traces[i] != [] {
        LengthsUpdate(p.traces, i, p.traces[i][1..]);
        match p.traces[i][0]
        case Mem(_, a) =>
          IssueIs(s, goal, i);
          MissWork(s, goal, Block(s.blockSize, a), i, MakeTag(i, p.memOpTag[i]));
        case Branch(m) => SumUpdate(p.pendingBranch, i, if m then 1 else 0);
        case Alu =>
      }
    }
  }

  /** A miss costs the bus a transaction. */
  lemma {:induction false} MissWork(s: Sys, goal: seq<nat>, a: Addr, i: nat, tag: int)
    requires Inv(s, goal) && i < |s.coh| && !s.procs.pendingMem[i]
    ensures var s' := Missed(s, a, i, tag);
            && BusWork(s'.bus) <= BusWork(s.bus) + 102 && s'.cache.ready == s.cache.ready && s'.procs == s.procs
  {
    hide Tagged, Counted, Processors.InOrder, Sum, Lengths, Waits, Owned, Tokens;
    if s.bus.pending.Some? {
      LengthsUpdate(s.bus.queues, i, s.bus.queues[i] + [NewTxn(BusWr, Queued, a, i)]);
    }
  }

  /** Progress without a waiting processor is paid for. */
  lemma {:induction false} IssueFromWork(s: Sys, goal: seq<nat>, i: nat, progress: bool)
    requires Inv(s, goal)
    ensures Work(IssueFrom(s, i, progress).0) <= Work(s)
    ensures (!progress && IssueFrom(s, i, progress).1 && (forall j :: i <= j < |s.coh| ==> !s.procs.pendingMem[j]))
            ==> Work(IssueFrom(s, i, progress).0) < Work(s)
    decreases |s.coh| - i
  {
    hide MemoryRequest, BusWork, Processors.InOrder, Tagged, Core;
    if i < |s.coh| {
      IssueKept(s, goal, i);
      IssueWork(s, goal, i);
      var (s', more) := Issue(s, i);
      IssueFromWork(s', goal, i + 1, progress || more);
    }
  }

  lemma {:induction false} DrainWork(s: Sys, goal: seq<nat>)
    requires Inv(s, goal)
    ensures Work(Drain(s)) == Work(s) - |s.cache.ready|
  {
    DrainKept(s, goal);
    DrainKeepsBus(s);
  }

  /** Every tick that makes progress lowers the work. */
  lemma {:induction false} ProgressLowersWork(s: Sys, goal: seq<nat>)
    requires Inv(s, goal)
    ensures 0 <= Work(Tick(s).0) <= Work(s)
    ensures Tick(s).1 ==> Work(Tick(s).0) < Work(s)
  {
    BusTickKept(s, goal);
    BusTickWork(s);
    var s1 := BusTick(s);
    DrainWork(s1, goal);
    DrainKept(s1, goal);
    var s2 := Drain(s1);
    IssueFromWork(s2, goal, 0, false);
    DrainKeepsBus(s1);
    if BusWork(s.bus) == 0 {
      forall j | 0 <= j < |s2.coh| ensures !s2.procs.pendingMem[j] { NoWorkNobodyWaits(s2, goal, j); }
    }
    TickKept(s, goal);
    BusTickWork(Tick(s).0);
  }

  lemma {:induction false} NoProgressNothingLeft(s: Sys, goal: seq<nat>, i: nat, progress: bool)
    requires Inv(s, goal) && !IssueFrom(s, i, progress).1
    ensures IssueFrom(s, i, progress).0 == s && !progress
    ensures forall j :: i <= j < |s.coh| ==>
              !s.procs.pendingMem[j] && s.procs.pendingBranch[j] == 0 && s.procs.traces[j] == []
    decreases |s.coh| - i
  {
    hide Core, Tagged, Processors.InOrder, MemoryRequest;
    if i < |s.coh| {
      IssueKept(s, goal, i);
      var (s', more) := Issue(s, i);
      NoProgressNothingLeft(s', goal, i + 1, progress || more);
    }
  }

  /** When a tick makes no progress, everything has been done: all traces are used up, every memory
      operation has been called back, and the bus is free. */
  lemma {:induction false} NoProgressMeansDone(s: Sys, goal: seq<nat>)
    requires Inv(s, goal) && !Tick(s).1
    ensures var f := Tick(s).0;
            && (forall p :: 0 <= p < |f.coh| ==> f.procs.traces[p] == [] && CallsTo(f.calls, p) == goal[p])
            && f.bus.pending.None? && forall p :: 0 <= p < |f.coh| ==> f.bus.queues[p] == []
  {
    hide Core, Tagged, Processors.InOrder, IssueFrom, Drain, BusTick;
    BusTickKept(s, goal);
    DrainKept(BusTick(s), goal);
    var f := CacheTick(s);
    NoProgressNothingLeft(f, goal, 0, false);
    IdleBusIsFree(f, goal);
  }

  lemma {:induction false} IdleBusIsFree(s: Sys, goal: seq<nat>)
    requires Inv(s, goal) && forall p :: 0 <= p < |s.coh| ==> !s.procs.pendingMem[p]
    ensures s.bus.pending.None? && forall p :: 0 <= p < |s.coh| ==> s.bus.queues[p] == []
  {
    if s.bus.pending.Some? { IdleHasNothing(s, goal, s.bus.pending.value.proc); }
    forall p | 0 <= p < |s.coh| ensures s.bus.queues[p] == [] {
      IdleHasNothing(s, goal, p);
    }
  }

  /** The main loop `do progress = tick() while (progress)`: the number of its first tick without
      progress is at most the work of the initial state. */
  lemma {:induction false} LoopEnds(s: Sys, goal: seq<nat>) returns (k: nat)
    requires Inv(s, goal)
    ensures k <= Work(s)
    ensures !Tick(After(s, k)).1 && Inv(After(s, k), goal)
    ensures forall j :: 0 <= j < k ==> Tick(After(s, j)).1
    decreases Work(s)
  {
    ProgressLowersWork(s, goal);
    if !Tick(s).1 {
      k := 0;
    } else {
      TickKept(s, goal);
      var s' := Tick(s).0;
      k := LoopEnds(s', goal);
      k := k + 1;
      assert After(s, k) == After(s', k - 1);
      forall j | 0 <= j < k ensures Tick(After(s, j)).1 {
        if j > 0 { assert After(s, j) == After(s', j - 1); }
      }
    }
  }

  lemma {:induction false} OneMoreTick(s: Sys, k: nat)
    requires Sized(s, |s.coh|)
    ensures Sized(After(s, k), |After(s, k).coh|) && After(s, k + 1) == Tick(After(s, k)).0
    decreases k
  {
    hide Tick;
    if k > 0 { OneMoreTick(Tick(s).0, k - 1); }
  }

  lemma {:induction false} ZeroSum(xs: seq<nat>)
    requires forall i :: 0 <= i < |xs| ==> xs[i] == 0
    ensures Sum(xs) == 0
  {
    if xs != [] { ZeroSum(xs[1..]); }
  }

  lemma {:induction false} InitialWork(traces: seq<seq<Op>>, blockSize: nat)
    ensures Work(Initial(traces, blockSize)) == 104 * Sum(Lengths(traces))
  {
    var s := Initial(traces, blockSize);
    ZeroSum(s.procs.pendingBranch);
    ZeroSum(Lengths(s.bus.queues));
  }

  /** For any finite traces the simulation stops within 104 ticks per trace operation, with every
      memory operation of every trace called back. */
  lemma {:induction false} SimulationEnds(traces: seq<seq<Op>>, blockSize: nat) returns (k: nat)
    requires CountAccepted(|traces|)
    ensures k <= 104 * Sum(Lengths(traces))
    ensures var s := After(Initial(traces, blockSize), k);
            var f := Tick(s).0;
            && !Tick(s).1
            && forall p :: 0 <= p < |traces| ==> f.procs.traces[p] == [] && CallsTo(f.calls, p) == MemOps(traces[p])
    ensures forall j :: 0 <= j < k ==> Tick(After(Initial(traces, blockSize), j)).1
  {
    hide Core, Tagged, Counted, Processors.InOrder, Tick, Work;
    var s := Initial(traces, blockSize);
    InitialInv(traces, blockSize);
    k := LoopEnds(s, Goals(traces));
    NoProgressMeansDone(After(s, k), Goals(traces));
    InitialWork(traces, blockSize);
    var f := Tick(After(s, k)).0;
    SizeAfter(s, k);
    assert |f.coh| == |traces|;
  }

  lemma {:induction false} SizeAfter(s: Sys, k: nat)
    requires Sized(s, |s.coh|)
    ensures |After(s, k).coh| == |s.coh| && |Tick(After(s, k)).0.coh| == |s.coh|
    decreases k
  {}
}
