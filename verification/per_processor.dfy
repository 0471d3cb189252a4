/** What one of n processors experiences: how long a branch holds it up, and that a block it has
    fetched stays a hit until another processor asks for it. */
module PerProcessor {
  import opened Protocol
  import opened Bus
  import opened Lockstep
  import opened System
  import opened Ownership
  import opened Processors
  import opened Progress
  import opened Safety
  import Timing

  /** Processor p has a request for block x in the list. */
  ghost predicate Listed(reqs: seq<Req>, p: nat, x: Addr) {
    exists i :: 0 <= i < |reqs| && reqs[i].proc == p && reqs[i].addr == x
  }

  /** The part of the state that is processor p's is the same. */
  ghost predicate SameFor(s: Sys, s': Sys, p: nat) {
    && Sized(s, |s.coh|) && Sized(s', |s.coh|) && p < |s.coh| == |s'.coh|
    && s'.procs.pendingMem[p] == s.procs.pendingMem[p] && s'.procs.pendingBranch[p] == s.procs.pendingBranch[p]
    && s'.procs.traces[p] == s.procs.traces[p]
    && s'.coh[p] == s.coh[p] && s'.calls == s.calls && s'.blockSize == s.blockSize
    && Outstanding(s'.bus, p) == Outstanding(s.bus, p)
    && (forall x :: Listed(s'.cache.pend, p, x) <==> Listed(s.cache.pend, p, x))
    && (forall x :: Listed(s'.cache.ready, p, x) <==> Listed(s.cache.ready, p, x))
  }

  lemma {:induction false} ListGrows(reqs: seq<Req>, r: Req)
    ensures forall p, x :: Listed([r] + reqs, p, x) <==> (r.proc == p && r.addr == x) || Listed(reqs, p, x)
  {
    var reqs' := [r] + reqs;
    assert reqs'[0] == r;
    forall p, x | Listed(reqs, p, x) ensures Listed(reqs', p, x) {
      var i :| 0 <= i < |reqs| && reqs[i].proc == p && reqs[i].addr == x;
      assert reqs'[i + 1] == reqs[i];
    }
    forall p, x | Listed(reqs', p, x) && !(r.proc == p && r.addr == x) ensures Listed(reqs, p, x) {
      var i :| 0 <= i < |reqs'| && reqs'[i].proc == p && reqs'[i].addr == x;
      assert reqs[i - 1] == reqs'[i];
    }
  }

  /** What a processor issues changes nothing for another one. */
  lemma {:induction false} OthersKept(s: Sys, goal: seq<nat>, i: nat, p: nat)
    requires Inv(s, goal) && i < |s.coh| && p < |s.coh| && i != p
    ensures SameFor(s, Issue(s, i).0, p)
  {
    hide Inv, Listed, MakeTag, Block, Request, Outstanding;
    Timing.Basics(s, goal);
    var d, s' := s.procs, Issue(s, i).0;
    if !d.pendingMem[i] && d.pendingBranch[i] == 0 && d.traces[i] != [] && d.traces[i][0].Mem? {
      IssueIs(s, goal, i);
      var x, tag := Block(s.blockSize, d.traces[i][0].addr), MakeTag(i, d.memOpTag[i]);
      ListGrows(s.cache.pend, Req(tag, x, i));
      ListGrows(s.cache.ready, Req(tag, x, i));
      NewWrite(s, goal, x, i);
    }
  }

  lemma {:induction false} NewWrite(s: Sys, goal: seq<nat>, x: Addr, i: nat)
    requires Inv(s, goal) && i < |s.coh| && !s.procs.pendingMem[i]
    ensures forall q :: Outstanding(Request(s.bus, BusWr, x, i), q) == if q == i then Some(x) else Outstanding(s.bus, q)
  {
    IdleHasNothing(s, goal, i);
    MissOnBus(s.mem, s.bus, x, i);
  }

  lemma {:induction false} LaterKept(s: Sys, goal: seq<nat>, i: nat, progress: bool, p: nat)
    requires Inv(s, goal) && p < i && p < |s.coh|
    ensures SameFor(s, IssueFrom(s, i, progress).0, p)
    decreases |s.coh| - i
  {
    hide Inv, Issue, Listed, Outstanding;
    Timing.Basics(s, goal);
    if i < |s.coh| {
      OthersKept(s, goal, i, p);
      IssueKept(s, goal, i);
      var (s', more) := Issue(s, i);
      LaterKept(s', goal, i + 1, progress || more, p);
    }
  }

  lemma {:induction false} SameForItself(s: Sys, p: nat)
    requires Sized(s, |s.coh|) && p < |s.coh|
    ensures SameFor(s, s, p)
  {}

  lemma {:induction false} SameForBoth(s: Sys, s': Sys, s'': Sys, p: nat)
    requires SameFor(s, s', p) && SameFor(s', s'', p)
    ensures SameFor(s, s'', p)
  {
    hide Listed, Outstanding;
  }

  /** Of the loop over the processors only the round of p itself concerns p. */
  lemma {:induction false} OwnRound(s: Sys, goal: seq<nat>, i: nat, progress: bool, p: nat) returns (mid: Sys)
    requires Inv(s, goal) && i <= p < |s.coh|
    ensures Inv(mid, goal) && SameFor(s, mid, p) && SameFor(Issue(mid, p).0, IssueFrom(s, i, progress).0, p)
    decreases |s.coh| - i
  {
    hide Inv, Issue, SameFor;
    Timing.Basics(s, goal);
    IssueKept(s, goal, i);
    var (s', more) := Issue(s, i);
    Timing.Basics(s', goal);
    if i == p {
      mid := s;
      SameForItself(s, p);
      LaterKept(s', goal, i + 1, progress || more, p);
    } else {
      OthersKept(s, goal, i, p);
      mid := OwnRound(s', goal, i + 1, progress || more, p);
      SameForBoth(s, s', mid, p);
    }
  }

  /** The callbacks of a tick: exactly the processors in the ready list get one. */
  lemma {:induction false} DrainFor(s: Sys, goal: seq<nat>, p: nat)
    requires Inv(s, goal) && p < |s.coh|
    ensures var s', called := Drain(s), InList(s.cache.ready, p);
            && CallsTo(s'.calls, p) == CallsTo(s.calls, p) + (if called then 1 else 0)
            && s'.procs.pendingMem[p] == (s.procs.pendingMem[p] && !called)
    decreases |s.cache.ready|
  {
    hide Inv, MakeTag, CallsTo;
    Timing.Basics(s, goal);
    if s.cache.ready != [] {
      var s1, r := Popped(s), s.cache.ready[0];
      CallbackKept(s, goal);
      Timing.Basics(s1, goal);
      DrainFor(s1, goal, p);
      OnceReady(s, goal);
      OneMoreCall(s.calls, Callback(r.proc, r.tag, true), p);
      PoppedList(s.cache.ready, p);
      PoppedProcs(s, goal);
    }
  }

  lemma {:induction false} OneMoreCall(calls: seq<Callback>, c: Callback, p: nat)
    ensures CallsTo(calls + [c], p) == CallsTo(calls, p) + if c.proc == p then 1 else 0
  {
    assert (calls + [c])[..|calls|] == calls;
  }

  lemma {:induction false} OnceReady(s: Sys, goal: seq<nat>)
    requires Inv(s, goal) && s.cache.ready != []
    ensures !InList(s.cache.ready[1..], s.cache.ready[0].proc)
  {}

  lemma {:induction false} PoppedList(reqs: seq<Req>, p: nat)
    requires reqs != []
    ensures InList(reqs, p) <==> reqs[0].proc == p || InList(reqs[1..], p)
  {
    assert reqs == [reqs[0]] + reqs[1..];
    NewFirst(reqs[1..], reqs[0]);
  }

  lemma {:induction false} PoppedProcs(s: Sys, goal: seq<nat>)
    requires Inv(s, goal) && s.cache.ready != []
    ensures var s', r := Popped(s), s.cache.ready[0];
            r.proc < |s.coh| && s'.procs.pendingMem == s.procs.pendingMem[r.proc := false]
            && s'.cache.ready == s.cache.ready[1..]
  {
    CallbackKept(s, goal);
    FirstReady(s.procs, s.cache.pend, s.cache.ready);
    TagSplits(s.cache.ready[0].proc, s.procs.memOpTag[s.cache.ready[0].proc]);
  }

  /** A tick as processor p sees it: the cache's part, then its own round. */
  lemma {:induction false} TickFor(s: Sys, goal: seq<nat>, p: nat) returns (mid: Sys)
    requires Inv(s, goal) && p < |s.coh|
    ensures Inv(CacheTick(s), goal) && Inv(mid, goal) && Inv(Tick(s).0, goal)
    ensures SameFor(CacheTick(s), mid, p) && SameFor(Issue(mid, p).0, Tick(s).0, p)
  {
    hide Inv, IssueFrom, BusTick, Drain, Issue, Listed, Outstanding;
    BusTickKept(s, goal);
    DrainKept(BusTick(s), goal);
    Timing.Basics(s, goal);
    Timing.Basics(CacheTick(s), goal);
    SameCount(s, goal);
    TickKept(s, goal);
    mid := OwnRound(CacheTick(s), goal, 0, false, p);
  }

  lemma {:induction false} SameCount(s: Sys, goal: seq<nat>)
    requires Inv(s, goal)
    ensures |BusTick(s).coh| == |CacheTick(s).coh| == |s.coh| && CacheTick(s).blockSize == s.blockSize
    ensures BusTick(s).procs == s.procs && BusTick(s).calls == s.calls
    ensures CacheTick(s).coh == BusTick(s).coh && CacheTick(s).bus == BusTick(s).bus
    ensures CacheTick(s).cache.pend == BusTick(s).cache.pend && CacheTick(s).cache.ready == []
    ensures CacheTick(s).procs.pendingBranch == s.procs.pendingBranch && CacheTick(s).procs.traces == s.procs.traces
  {
    hide Inv, Drain, BusTick;
    assert Core(s) by { OnlyCore(s, goal); }
    BusTickCases(s);
    BusTickKept(s, goal);
    DrainKept(BusTick(s), goal);
    DrainKeepsBus(BusTick(s));
    Timing.Basics(BusTick(s), goal);
    assert |BusTick(s).coh| == |s.coh|;
  }

  lemma {:induction false} OnlyCore(s: Sys, goal: seq<nat>)
    requires Inv(s, goal)
    ensures Core(s)
  {}

  /** A tick of a processor without an outstanding memory operation. */
  lemma {:induction false} IdleTick(s: Sys, goal: seq<nat>, p: nat)
    requires Inv(s, goal) && p < |s.coh| && !s.procs.pendingMem[p]
    ensures var d, d' := s.procs, Tick(s).0.procs;
            && |Tick(s).0.coh| == |s.coh| && Inv(Tick(s).0, goal)
            && (d.pendingBranch[p] > 0 ==>
                  d'.traces[p] == d.traces[p] && d'.pendingBranch[p] == d.pendingBranch[p] - 1 && !d'.pendingMem[p])
            && (d.pendingBranch[p] == 0 && d.traces[p] != [] ==>
                  d'.traces[p] == d.traces[p][1..]
                  && (!d.traces[p][0].Mem? ==>
                        !d'.pendingMem[p] && d'.pendingBranch[p] == if d.traces[p][0] == Branch(true) then 1 else 0))
  {
    hide Inv, BusTick, Drain, IssueFrom, MemoryRequest, Listed, Outstanding;
    var mid := TickFor(s, goal, p);
    SameCount(s, goal);
    BusTickKept(s, goal);
    DrainFor(BusTick(s), goal, p);
    Timing.Basics(mid, goal);
    if mid.procs.pendingBranch[p] == 0 && mid.procs.traces[p] != [] && mid.procs.traces[p][0].Mem? {
      IssueIs(mid, goal, p);
    }
  }

  /** What is left of processor p's trace. */
  ghost function Rest(s: Sys, p: nat): seq<Op> {
    if p < |s.procs.traces| then s.procs.traces[p] else []
  }

  /** Processor p takes its next operation in the coming tick. */
  ghost predicate Unhindered(s: Sys, p: nat) {
    && p < |s.procs.pendingMem| && p < |s.procs.pendingBranch|
    && !s.procs.pendingMem[p] && s.procs.pendingBranch[p] == 0
  }

  lemma {:induction false} RunInv(traces: seq<seq<Op>>, blockSize: nat, k: nat)
    requires CountAccepted(|traces|)
    ensures var s := Run(traces, blockSize, k);
            && Inv(s, Goals(traces)) && |s.coh| == |traces| && Sized(s, |traces|)
            && Run(traces, blockSize, k + 1) == Tick(s).0
  {
    hide Inv;
    ReachableInv(traces, blockSize, k);
    RunSize(Initial(traces, blockSize), k);
    Timing.Basics(Run(traces, blockSize, k), Goals(traces));
    OneMoreTick(Initial(traces, blockSize), k);
  }

  /** After a branch the next operation is taken one tick later if the branch was predicted, and exactly
      two ticks later if not, whatever the other processors do. */
  lemma {:induction false} BranchStall(traces: seq<seq<Op>>, blockSize: nat, k: nat, p: nat, mispredicted: bool)
    requires CountAccepted(|traces|) && p < |traces|
    requires Unhindered(Run(traces, blockSize, k), p) && |Rest(Run(traces, blockSize, k), p)| >= 2
    requires Rest(Run(traces, blockSize, k), p)[0] == Branch(mispredicted)
    ensures var rest := Rest(Run(traces, blockSize, k), p);
            && Rest(Run(traces, blockSize, k + 1), p) == rest[1..]
            && (!mispredicted ==> Rest(Run(traces, blockSize, k + 2), p) == rest[2..])
            && (mispredicted ==> Rest(Run(traces, blockSize, k + 2), p) == rest[1..]
                                 && Rest(Run(traces, blockSize, k + 3), p) == rest[2..])
  {
    hide Inv, Tick, Run;
    var goal := Goals(traces);
    var s, s1, s2 := Run(traces, blockSize, k), Run(traces, blockSize, k + 1), Run(traces, blockSize, k + 2);
    RunInv(traces, blockSize, k);
    RunInv(traces, blockSize, k + 1);
    RunInv(traces, blockSize, k + 2);
    RunInv(traces, blockSize, k + 3);
    IdleTick(s, goal, p);
    IdleTick(s1, goal, p);
    if mispredicted { IdleTick(s2, goal, p); }
  }

  /* Blocks that stay. */

  /** A ready request is a hit: its processor owns the block. */
  ghost predicate ReadyOwned(s: Sys) {
    forall i :: 0 <= i < |s.cache.ready| ==>
      s.cache.ready[i].proc < |s.coh| && St(s.coh, s.cache.ready[i].proc, s.cache.ready[i].addr) == Modified
  }

  lemma {:induction false} IssueReady(s: Sys, goal: seq<nat>, i: nat)
    requires Inv(s, goal) && i < |s.coh| && ReadyOwned(s)
    ensures ReadyOwned(Issue(s, i).0)
  {
    hide Inv, MakeTag, Block, Request;
    Timing.Basics(s, goal);
    var d := s.procs;
    if !d.pendingMem[i] && d.pendingBranch[i] == 0 && d.traces[i] != [] && d.traces[i][0].Mem? {
      IssueIs(s, goal, i);
    }
  }

  lemma {:induction false} IssueFromReady(s: Sys, goal: seq<nat>, i: nat, progress: bool)
    requires Inv(s, goal) && ReadyOwned(s)
    ensures ReadyOwned(IssueFrom(s, i, progress).0)
    decreases |s.coh| - i
  {
    hide Inv, Issue;
    Timing.Basics(s, goal);
    if i < |s.coh| {
      IssueReady(s, goal, i);
      IssueKept(s, goal, i);
      var (s', more) := Issue(s, i);
      IssueFromReady(s', goal, i + 1, progress || more);
    }
  }

  lemma {:induction false} TickReady(s: Sys, goal: seq<nat>)
    requires Inv(s, goal)
    ensures ReadyOwned(Tick(s).0)
  {
    hide Inv, BusTick, Drain, IssueFrom;
    BusTickKept(s, goal);
    DrainKept(BusTick(s), goal);
    Timing.Basics(s, goal);
    Timing.Basics(CacheTick(s), goal);
    IssueFromReady(CacheTick(s), goal, 0, false);
  }

  /** No processor but p has a transaction for block x. */
  ghost predicate NobodyElseAsks(b: Bus, p: nat, x: Addr) {
    forall q :: 0 <= q < |b.queues| && q != p ==> Outstanding(b, q) != Some(x)
  }

  lemma {:induction false} BusKeepsMine(s: Sys, goal: seq<nat>, p: nat, x: Addr)
    requires Inv(s, goal) && p < |s.coh| && St(s.coh, p, x) == Modified && NobodyElseAsks(s.bus, p, x)
    ensures |BusTick(s).coh| == |s.coh| && St(BusTick(s).coh, p, x) == Modified
  {
    hide BusTick, Tagged, InStep, Counted, Tokens, FindReq, OneEach, QueuesOk;
    BusTickCases(s);
    if s.bus.pending.Some? {
      var t := s.bus.pending.value;
      RequesterWaits(s);
      assert Outstanding(s.bus, t.proc) == Some(t.addr);
    }
  }

  /** p's own round takes no block away from it. */
  lemma {:induction false} RoundKeepsMine(s: Sys, goal: seq<nat>, p: nat, x: Addr)
    requires Inv(s, goal) && p < |s.coh| && St(s.coh, p, x) == Modified
    ensures |Issue(s, p).0.coh| == |s.coh| && St(Issue(s, p).0.coh, p, x) == Modified
  {
    hide Inv, MakeTag, Block, Request;
    Timing.Basics(s, goal);
    var d := s.procs;
    if !d.pendingMem[p] && d.pendingBranch[p] == 0 && d.traces[p] != [] && d.traces[p][0].Mem? {
      IssueIs(s, goal, p);
    }
  }

  lemma {:induction false} TickKeepsMine(s: Sys, goal: seq<nat>, p: nat, x: Addr)
    requires Inv(s, goal) && p < |s.coh| && |CacheTick(s).coh| == |s.coh| && St(CacheTick(s).coh, p, x) == Modified
    ensures |Tick(s).0.coh| == |s.coh| && St(Tick(s).0.coh, p, x) == Modified
  {
    hide Inv, CacheTick, IssueFrom, Issue, Listed, Outstanding;
    var mid := TickFor(s, goal, p);
    RoundKeepsMine(mid, goal, p, x);
  }

  /** p has its one request out, for block x. */
  ghost predicate Asked(s: Sys, p: nat, x: Addr) {
    Listed(s.cache.pend, p, x) || Listed(s.cache.ready, p, x)
  }

  lemma {:induction false} ListedIsIn(reqs: seq<Req>, p: nat, x: Addr)
    ensures Listed(reqs, p, x) ==> InList(reqs, p)
  {}

  /** What the bus's part of a tick does to a request for x: it stays, or it becomes ready and p owns x. */
  lemma {:induction false} BusAnswers(s: Sys, goal: seq<nat>, p: nat, x: Addr)
    requires Inv(s, goal) && p < |s.coh| && Listed(s.cache.pend, p, x)
    ensures var s' := BusTick(s);
            && |s'.coh| == |s.coh|
            && (if InList(s'.cache.ready, p) then St(s'.coh, p, x) == Modified else Listed(s'.cache.pend, p, x))
  {
    hide BusTick, Outstanding, InStep, Owned, Tokens, OneEach, QueuesOk, Counted, Processors.InOrder, Tagged;
    BusTickCases(s);
    ListedIsIn(s.cache.pend, p, x);
    NotReady(s, goal, p);
    var b := s.bus;
    if b.pending.Some? && b.countDown <= 1 && b.pending.value.phase != WaitingCache {
      RequesterWaits(s);
      ListedOutstanding(b, s.coh, s.cache.pend, p, x);
      var t := b.pending.value;
      var f := FindReq(s.cache.pend, t.proc, t.addr).value;
      PendingOutstanding(b);
      NewFirst(s.cache.ready, s.cache.pend[f]);
      if t.proc != p { OthersListed(s.cache.pend, f, p, x); }
    }
  }

  lemma {:induction false} PendingOutstanding(b: Bus)
    ensures b.pending.Some? ==> Outstanding(b, b.pending.value.proc) == Some(b.pending.value.addr)
  {}

  lemma {:induction false} ListedOutstanding(b: Bus, coh: seq<Directory>, pend: seq<Req>, p: nat, x: Addr)
    requires Waits(b, coh, pend) && Listed(pend, p, x)
    ensures Outstanding(b, p) == Some(x)
  {
    hide Outstanding;
    var i :| 0 <= i < |pend| && pend[i].proc == p && pend[i].addr == x;
    assert Outstanding(b, pend[i].proc) == Some(pend[i].addr);
  }

  lemma {:induction false} OthersListed(pend: seq<Req>, f: nat, p: nat, x: Addr)
    requires f < |pend| && pend[f].proc != p && Listed(pend, p, x)
    ensures Listed(pend[..f] + pend[f + 1..], p, x)
  {
    var i :| 0 <= i < |pend| && pend[i].proc == p && pend[i].addr == x;
    assert (pend[..f] + pend[f + 1..])[if i < f then i else i - 1] == pend[i];
  }

  lemma {:induction false} NotReady(s: Sys, goal: seq<nat>, p: nat)
    requires Inv(s, goal) && InList(s.cache.pend, p)
    ensures !InList(s.cache.ready, p)
  {}

  lemma {:induction false} StaysReady(s: Sys, goal: seq<nat>, p: nat)
    requires Inv(s, goal) && InList(s.cache.ready, p)
    ensures InList(BusTick(s).cache.ready, p)
  {
    BusTickCases(s);
    if s.bus.pending.Some? && s.bus.countDown <= 1 && s.bus.pending.value.phase != WaitingCache {
      RequesterWaits(s);
      var t := s.bus.pending.value;
      NewFirst(s.cache.ready, s.cache.pend[FindReq(s.cache.pend, t.proc, t.addr).value]);
    }
  }

  /** The cache's part of a tick for a request that is out: a callback, or it stays out. */
  lemma {:induction false} Answered(s: Sys, goal: seq<nat>, p: nat, x: Addr)
    requires Inv(s, goal) && ReadyOwned(s) && p < |s.coh| && Asked(s, p, x)
    ensures var c := CacheTick(s);
            && |c.coh| == |s.coh|
            && (if CallsTo(c.calls, p) == CallsTo(s.calls, p)
                then Listed(c.cache.pend, p, x) && c.procs.pendingMem[p]
                else CallsTo(c.calls, p) == CallsTo(s.calls, p) + 1
                     && (NobodyElseAsks(s.bus, p, x) ==> St(c.coh, p, x) == Modified))
            && (Listed(s.cache.ready, p, x) ==> CallsTo(c.calls, p) == CallsTo(s.calls, p) + 1)
  {
    hide Inv, BusTick, Drain, CallsTo, Outstanding, MakeTag;
    SameCount(s, goal);
    BusTickKept(s, goal);
    DrainFor(BusTick(s), goal, p);
    if Listed(s.cache.ready, p, x) {
      ListedIsIn(s.cache.ready, p, x);
      StaysReady(s, goal, p);
      if NobodyElseAsks(s.bus, p, x) { BusKeepsMine(s, goal, p, x); }
    } else {
      BusAnswers(s, goal, p, x);
      if !InList(BusTick(s).cache.ready, p) {
        ListedIsIn(BusTick(s).cache.pend, p, x);
        ListedPending(BusTick(s), goal, p);
      }
    }
  }

  lemma {:induction false} ListedPending(s: Sys, goal: seq<nat>, p: nat)
    requires Inv(s, goal) && InList(s.cache.pend, p)
    ensures p < |s.procs.pendingMem| && s.procs.pendingMem[p]
  {}

  /** A waiting processor's round of a tick does nothing. */
  lemma {:induction false} WaitingTick(s: Sys, goal: seq<nat>, p: nat, x: Addr)
    requires Inv(s, goal) && p < |s.coh|
    requires var c := CacheTick(s); p < |c.procs.pendingMem| && c.procs.pendingMem[p] && Listed(c.cache.pend, p, x)
    ensures Listed(Tick(s).0.cache.pend, p, x) && Tick(s).0.calls == CacheTick(s).calls
  {
    hide Inv, CacheTick, IssueFrom, Listed, Outstanding;
    var mid := TickFor(s, goal, p);
  }

  /** Processor p takes the operation op in this tick. */
  ghost predicate Takes(s: Sys, p: nat, op: Op)
    requires Sized(s, |s.coh|)
  {
    Rest(s, p) != [] && Rest(s, p)[0] == op && Rest(Tick(s).0, p) == Rest(s, p)[1..]
  }

  /** A load or store is out, for its block, after the tick that takes it: ready if p owns the block, on
      the bus otherwise. */
  lemma {:induction false} TakesMem(s: Sys, goal: seq<nat>, p: nat, store: bool, a: Addr)
    requires Inv(s, goal) && p < |s.coh| && Sized(s, |s.coh|) && Takes(s, p, Mem(store, a))
    ensures var c, s', x := CacheTick(s), Tick(s).0, Block(s.blockSize, a);
            && |c.coh| == |s'.coh| == |s.coh| && p < |s'.procs.pendingMem| && s'.procs.pendingMem[p]
            && CallsTo(s'.calls, p) == CallsTo(c.calls, p)
            && (if St(c.coh, p, x) == Modified then Listed(s'.cache.ready, p, x) && Outstanding(s'.bus, p).None?
                else Listed(s'.cache.pend, p, x) && Outstanding(s'.bus, p) == Some(x))
  {
    hide Inv, BusTick, Drain, IssueFrom, MemoryRequest, Listed, Outstanding, MakeTag, Block, Request, CallsTo;
    SameCount(s, goal);
    var mid := TickFor(s, goal, p);
    Timing.Basics(mid, goal);
    IssueIs(mid, goal, p);
    IdleHasNothing(mid, goal, p);
    var x, tag := Block(s.blockSize, a), MakeTag(p, mid.procs.memOpTag[p]);
    ListGrows(mid.cache.pend, Req(tag, x, p));
    ListGrows(mid.cache.ready, Req(tag, x, p));
    NewWrite(mid, goal, x, p);
  }

  lemma {:induction false} RunReady(traces: seq<seq<Op>>, blockSize: nat, k: nat)
    requires CountAccepted(|traces|)
    ensures ReadyOwned(Run(traces, blockSize, k)) && Run(traces, blockSize, k).blockSize == blockSize
  {
    hide Inv, Tick;
    if k > 0 {
      RunInv(traces, blockSize, k - 1);
      RunReady(traces, blockSize, k - 1);
      TickReady(Run(traces, blockSize, k - 1), Goals(traces));
      SameBlockSize(Run(traces, blockSize, k - 1), Goals(traces));
    }
  }

  lemma {:induction false} SameBlockSize(s: Sys, goal: seq<nat>)
    requires Inv(s, goal)
    ensures Sized(s, |s.coh|) && Tick(s).0.blockSize == s.blockSize
  {
    hide Inv, BusTick, Drain, IssueFrom, Issue, Listed, Outstanding, CountAccepted;
    Timing.Basics(s, goal);
    SameCount(s, goal);
    assert |s.coh| >= 1 by { AtLeastOne(s, goal); }
    var mid := TickFor(s, goal, 0);
    RoundKeepsSize(mid, goal, 0);
  }

  lemma {:induction false} AtLeastOne(s: Sys, goal: seq<nat>)
    requires Inv(s, goal)
    ensures |s.coh| >= 1
  {}

  lemma {:induction false} RoundKeepsSize(s: Sys, goal: seq<nat>, i: nat)
    requires Inv(s, goal) && i < |s.coh|
    ensures Issue(s, i).0.blockSize == s.blockSize
  {}

  /** As long as there is no callback, the request stays out. */
  lemma {:induction false} StaysAsked(traces: seq<seq<Op>>, blockSize: nat, p: nat, x: Addr, i: nat, j: nat)
    requires CountAccepted(|traces|) && p < |traces| && i <= j && Asked(Run(traces, blockSize, i), p, x)
    requires forall m :: i <= m <= j ==>
               CallsTo(Run(traces, blockSize, m).calls, p) == CallsTo(Run(traces, blockSize, i).calls, p)
    ensures Asked(Run(traces, blockSize, j), p, x)
  {
    hide Inv, Tick, Run, CallsTo, Listed, ReadyOwned, CacheTick;
    if i < j {
      StaysAsked(traces, blockSize, p, x, i, j - 1);
      var s := Run(traces, blockSize, j - 1);
      RunInv(traces, blockSize, j - 1);
      RunReady(traces, blockSize, j - 1);
      Answered(s, Goals(traces), p, x);
      SameCalls(s, Goals(traces), p);
      WaitingTick(s, Goals(traces), p, x);
    }
  }

  /** Callbacks are made in the cache's part of a tick. */
  lemma {:induction false} SameCalls(s: Sys, goal: seq<nat>, p: nat)
    requires Inv(s, goal) && p < |s.coh|
    ensures Sized(s, |s.coh|) && CallsTo(Tick(s).0.calls, p) == CallsTo(CacheTick(s).calls, p)
  {
    hide Inv, CacheTick, IssueFrom, Listed, Outstanding, CallsTo;
    Timing.Basics(s, goal);
    var mid := TickFor(s, goal, p);
    RoundKeepsCalls(mid, goal, p);
  }

  lemma {:induction false} RoundKeepsCalls(s: Sys, goal: seq<nat>, i: nat)
    requires Inv(s, goal) && i < |s.coh|
    ensures Issue(s, i).0.calls == s.calls
  {}

  /** A block that nobody else asks for stays with its owner. */
  lemma {:induction false} StaysMine(traces: seq<seq<Op>>, blockSize: nat, p: nat, x: Addr, j: nat, k: nat)
    requires CountAccepted(|traces|) && p < |traces| && j <= k
    requires forall m :: j <= m <= k ==> NobodyElseAsks(Run(traces, blockSize, m).bus, p, x)
    requires var c := CacheTick(Run(traces, blockSize, j)); p < |c.coh| && St(c.coh, p, x) == Modified
    ensures var c := CacheTick(Run(traces, blockSize, k)); p < |c.coh| && St(c.coh, p, x) == Modified
  {
    hide Inv, Tick, Run, NobodyElseAsks, BusTick, Drain;
    if j < k {
      StaysMine(traces, blockSize, p, x, j, k - 1);
      var s, s' := Run(traces, blockSize, k - 1), Run(traces, blockSize, k);
      RunInv(traces, blockSize, k - 1);
      RunInv(traces, blockSize, k);
      SameCount(s, Goals(traces));
      TickKeepsMine(s, Goals(traces), p, x);
      SameCount(s', Goals(traces));
      BusKeepsMine(s', Goals(traces), p, x);
    }
  }

  /** Processor p takes op in tick i, and is first called back after that in tick j. */
  ghost predicate AnsweredIn(traces: seq<seq<Op>>, blockSize: nat, p: nat, op: Op, i: nat, j: nat) {
    && i < j && Sized(Run(traces, blockSize, i), |Run(traces, blockSize, i).coh|) && Takes(Run(traces, blockSize, i), p, op)
    && (forall m :: i < m <= j ==>
          CallsTo(Run(traces, blockSize, m).calls, p) == CallsTo(Run(traces, blockSize, i + 1).calls, p))
    && CallsTo(Run(traces, blockSize, j + 1).calls, p) != CallsTo(Run(traces, blockSize, j).calls, p)
  }

  /** With the callback of a load or store the block is p's, if nobody else asks for it. */
  lemma {:induction false} AnsweredMine(traces: seq<seq<Op>>, blockSize: nat, p: nat, store: bool, a: Addr, i: nat, j: nat)
    requires CountAccepted(|traces|) && p < |traces| && AnsweredIn(traces, blockSize, p, Mem(store, a), i, j)
    requires NobodyElseAsks(Run(traces, blockSize, j).bus, p, Block(blockSize, a))
    ensures var c := CacheTick(Run(traces, blockSize, j)); p < |c.coh| && St(c.coh, p, Block(blockSize, a)) == Modified
  {
    hide Inv, Tick, Run, CallsTo, Listed, ReadyOwned, CacheTick, NobodyElseAsks, Takes;
    var goal, x := Goals(traces), Block(blockSize, a);
    RunInv(traces, blockSize, i);
    RunReady(traces, blockSize, i);
    TakesMem(Run(traces, blockSize, i), goal, p, store, a);
    StaysAsked(traces, blockSize, p, x, i + 1, j);
    RunInv(traces, blockSize, j);
    RunReady(traces, blockSize, j);
    Answered(Run(traces, blockSize, j), goal, p, x);
    SameCalls(Run(traces, blockSize, j), goal, p);
  }

  /** Once an operation on a block has been called back, and as long as no other processor asks for the
      block, every later operation of the same processor on any address of the block hits: it leaves
      nothing on the bus and is called back in the very next tick. */
  lemma {:induction false} RepeatHits(traces: seq<seq<Op>>, blockSize: nat, p: nat, i: nat, j: nat, k: nat,
                                      store: bool, a: Addr, store': bool, a': Addr)
    requires CountAccepted(|traces|) && p < |traces| && blockSize >= 1 && j <= k && a' / blockSize == a / blockSize
    requires AnsweredIn(traces, blockSize, p, Mem(store, a), i, j)
    requires forall m, x :: j <= m <= k && x / blockSize == a / blockSize ==>
               NobodyElseAsks(Run(traces, blockSize, m).bus, p, x)
    requires Takes(Run(traces, blockSize, k), p, Mem(store', a'))
    ensures TxnsOf(Run(traces, blockSize, k + 1).bus, p) == []
    ensures CallsTo(Run(traces, blockSize, k + 2).calls, p) == CallsTo(Run(traces, blockSize, k + 1).calls, p) + 1
  {
    hide Inv, Tick, Run, CallsTo, Listed, ReadyOwned, CacheTick, NobodyElseAsks, Takes, TxnsOf, Block, AnsweredIn;
    var goal, x := Goals(traces), Block(blockSize, a);
    Timing.BlockCovers(blockSize, a);
    Timing.BlockCovers(blockSize, a');
    Timing.SameNumber(blockSize, x, Block(blockSize, a'));
    AnsweredMine(traces, blockSize, p, store, a, i, j);
    StaysMine(traces, blockSize, p, x, j, k);
    RunInv(traces, blockSize, k);
    RunReady(traces, blockSize, k);
    TakesMem(Run(traces, blockSize, k), goal, p, store', a');
    NothingOnBus(Run(traces, blockSize, k + 1).bus, p);
    RunInv(traces, blockSize, k + 1);
    RunReady(traces, blockSize, k + 1);
    Answered(Run(traces, blockSize, k + 1), goal, p, x);
    SameCalls(Run(traces, blockSize, k + 1), goal, p);
  }

  lemma {:induction false} NothingOnBus(b: Bus, p: nat)
    requires Outstanding(b, p).None?
    ensures TxnsOf(b, p) == []
  {}

  /** The request that a load or store of address a makes is for the one aligned block around a. */
  lemma {:induction false} RequestCovers(traces: seq<seq<Op>>, blockSize: nat, k: nat, p: nat, store: bool, a: Addr)
    returns (x: Addr)
    requires CountAccepted(|traces|) && p < |traces| && blockSize >= 1
    requires Takes(Run(traces, blockSize, k), p, Mem(store, a))
    ensures x % blockSize == 0 && x <= a < x + blockSize
    ensures var s, s' := Run(traces, blockSize, k), Run(traces, blockSize, k + 1);
            && Asked(s', p, x) && p < |CacheTick(s).coh|
            && Outstanding(s'.bus, p) == if St(CacheTick(s).coh, p, x) == Modified then None else Some(x)
  {
    hide Inv, Tick, Run, Listed, CacheTick, Takes, Block, Outstanding;
    x := Block(blockSize, a);
    Timing.BlockCovers(blockSize, a);
    RunInv(traces, blockSize, k);
    RunReady(traces, blockSize, k);
    TakesMem(Run(traces, blockSize, k), Goals(traces), p, store, a);
  }
}
