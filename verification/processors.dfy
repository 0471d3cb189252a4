/** The whole invariant: the processors' outstanding operations on top of the ownership invariant,
    kept by every tick. */
module Processors {
  import opened Protocol
  import opened Bits
  import opened Bus
  import opened Lockstep
  import opened System
  import opened Ownership

  /** Request r is the outstanding operation of its processor, with that operation's tag. */
  ghost predicate OwnTag(procs: Procs, r: Req) {
    && r.proc < |procs.pendingMem| && r.proc < |procs.memOpTag|
    && procs.pendingMem[r.proc] && r.tag == MakeTag(r.proc, procs.memOpTag[r.proc])
  }

  /** A processor has an outstanding operation exactly when the cache holds one request of it. */
  ghost predicate Tagged(procs: Procs, pend: seq<Req>, ready: seq<Req>) {
    && (forall i :: 0 <= i < |pend| ==> OwnTag(procs, pend[i]))
    && (forall i :: 0 <= i < |ready| ==> OwnTag(procs, ready[i]) && !InList(pend, ready[i].proc))
    && (forall i, j :: 0 <= i < j < |ready| ==> ready[i].proc != ready[j].proc)
    && (forall p :: 0 <= p < |procs.pendingMem| && procs.pendingMem[p] ==> InList(pend, p) || InList(ready, p))
  }

  ghost function CallsTo(calls: seq<Callback>, p: nat): nat {
    if calls == [] then 0
    else CallsTo(calls[..|calls| - 1], p) + (if calls[|calls| - 1].proc == p then 1 else 0)
  }

  /** The k-th callback to a processor is for its k-th memory operation, and is recognised. */
  ghost predicate InOrder(calls: seq<Callback>) {
    forall k :: 0 <= k < |calls| ==>
      calls[k].accepted && calls[k].tag == MakeTag(calls[k].proc, CallsTo(calls[..k], calls[k].proc))
  }

  function MemOps(trace: seq<Op>): nat {
    if trace == [] then 0 else (if trace[0].Mem? then 1 else 0) + MemOps(trace[1..])
  }

  /** Callbacks so far, the outstanding operation and the rest of the trace add up to the trace. */
  ghost predicate Counted(s: Sys, goal: seq<nat>) {
    && |goal| == |s.coh| && Sized(s, |s.coh|)
    && forall p :: 0 <= p < |goal| ==>
         && s.procs.memOpTag[p] == CallsTo(s.calls, p)
         && s.procs.memOpTag[p] + (if s.procs.pendingMem[p] then 1 else 0) + MemOps(s.procs.traces[p]) == goal[p]
  }

  ghost predicate Inv(s: Sys, goal: seq<nat>) {
    && CountAccepted(|s.coh|) && Sized(s, |s.coh|)
    && Core(s)
    && Tagged(s.procs, s.cache.pend, s.cache.ready)
    && Counted(s, goal)
    && InOrder(s.calls)
  }

  /* The bus tick. */

  lemma {:induction false} BusTickKept(s: Sys, goal: seq<nat>)
    requires Inv(s, goal)
    ensures Inv(BusTick(s), goal)
  {
    BusTickCases(s);
    CoreKept(s);
    var b, s' := s.bus, BusTick(s);
    if b.pending.Some? && b.countDown == 1 && b.pending.value.phase != WaitingCache {
      MovedToReady(s.procs, s.cache.pend, s.cache.ready,
                   FindReq(s.cache.pend, b.pending.value.proc, b.pending.value.addr).value);
    }
  }

  lemma {:induction false} MovedToReady(procs: Procs, pend: seq<Req>, ready: seq<Req>, i: nat)
    requires Tagged(procs, pend, ready) && i < |pend|
    requires forall j, k :: 0 <= j < k < |pend| ==> pend[j].proc != pend[k].proc
    ensures Tagged(procs, pend[..i] + pend[i + 1..], [pend[i]] + ready)
  {
    var pend', ready' := pend[..i] + pend[i + 1..], [pend[i]] + ready;
    WithoutOne(pend, i);
    assert InList(pend, pend[i].proc);
    forall p | InList(pend', p) ensures InList(pend, p) {
      var j :| 0 <= j < |pend'| && pend'[j].proc == p;
      assert pend'[j] in pend;
    }
    forall p | InList(ready, p) || p == pend[i].proc ensures InList(ready', p) {
      if InList(ready, p) {
        var j :| 0 <= j < |ready| && ready[j].proc == p;
        assert ready'[j + 1].proc == p;
      } else {
        assert ready'[0].proc == p;
      }
    }
  }

  /* The callbacks for the ready list. */

  /** The tag gives count and processor number back. */
  lemma {:induction false} TagSplits(p: nat, base: nat)
    requires p < 256
    ensures MakeTag(p, base) / 256 == base && MakeTag(p, base) % 256 == p
  {
    assert Pow2(8) == 256;
    OrIsSum(8, p, base);
  }

  lemma {:induction false} CallsGrow(calls: seq<Callback>, c: Callback)
    requires InOrder(calls) && c.accepted && c.tag == MakeTag(c.proc, CallsTo(calls, c.proc))
    ensures InOrder(calls + [c])
    ensures forall p :: CallsTo(calls + [c], p) == CallsTo(calls, p) + (if c.proc == p then 1 else 0)
  {
    var calls' := calls + [c];
    assert calls'[..|calls|] == calls;
    assert forall k :: 0 <= k < |calls| ==> calls'[..k] == calls[..k];
  }

  ghost function Popped(s: Sys): Sys
    requires s.cache.ready != []
  {
    var r := s.cache.ready[0];
    MemOpCallback(s.(cache := s.cache.(ready := s.cache.ready[1..])), r.proc, r.tag)
  }

  lemma {:induction false} CallbackKept(s: Sys, goal: seq<nat>)
    requires Inv(s, goal) && s.cache.ready != []
    ensures Inv(Popped(s), goal)
    ensures var r := s.cache.ready[0]; Popped(s).calls == s.calls + [Callback(r.proc, r.tag, true)]
  {
    hide Core, Tagged, InOrder, MakeTag, CallsTo;
    var r, s' := s.cache.ready[0], Popped(s);
    assert OwnTag(s.procs, r) by { FirstReady(s.procs, s.cache.pend, s.cache.ready); }
    TagSplits(r.proc, s.procs.memOpTag[r.proc]);
    CallsGrow(s.calls, Callback(r.proc, r.tag, true));
    PoppedTagged(s.procs, s.cache.pend, s.cache.ready, s'.procs);
    SameCore(s, s');
  }

  lemma {:induction false} FirstReady(procs: Procs, pend: seq<Req>, ready: seq<Req>)
    requires Tagged(procs, pend, ready) && ready != []
    ensures OwnTag(procs, ready[0])
  {}

  lemma {:induction false} PoppedTagged(procs: Procs, pend: seq<Req>, ready: seq<Req>, procs': Procs)
    requires Tagged(procs, pend, ready) && ready != []
    requires procs' == procs.(memOpTag := procs.memOpTag[ready[0].proc := procs.memOpTag[ready[0].proc] + 1],
                              pendingMem := procs.pendingMem[ready[0].proc := false])
    ensures Tagged(procs', pend, ready[1..])
  {}

  lemma {:induction false} DrainKept(s: Sys, goal: seq<nat>)
    requires Inv(s, goal)
    ensures Inv(Drain(s), goal) && Drain(s).cache.ready == []
    ensures Drain(s).cache.pend == s.cache.pend
    ensures Drain(s).procs.pendingBranch == s.procs.pendingBranch && Drain(s).procs.traces == s.procs.traces
    decreases |s.cache.ready|
  {
    if s.cache.ready != [] {
      CallbackKept(s, goal);
      DrainKept(Popped(s), goal);
    }
  }

  /* Issuing operations. */

  /** A processor without an outstanding operation has no transaction and waits for no block. */
  lemma {:induction false} IdleHasNothing(s: Sys, goal: seq<nat>, p: nat)
    requires Inv(s, goal) && p < |s.coh| && !s.procs.pendingMem[p]
    ensures Outstanding(s.bus, p).None?
    ensures !InList(s.cache.pend, p) && !InList(s.cache.ready, p)
    ensures forall a :: St(s.coh, p, a) != InvalidModified
  {}

  /** A miss of an idle processor: INVALID_MODIFIED, one bus write, one pending request. */
  ghost function Missed(s: Sys, a: Addr, p: nat, tag: int): Sys
    requires p < |s.coh|
  {
    s.(bus := Request(s.bus, BusWr, a, p), coh := s.coh[p := s.coh[p][a := InvalidModified]], issued := s.issued + 1,
       cache := s.cache.(pend := [Req(tag, a, p)] + s.cache.pend))
  }

  lemma {:induction false} MissKeepsCore(s: Sys, a: Addr, p: nat, tag: int)
    requires Core(s) && p < |s.coh|
    requires Outstanding(s.bus, p).None? && St(s.coh, p, a) == Invalid && !InList(s.cache.pend, p)
    ensures Core(Missed(s, a, p, tag))
  {
    hide InStep, QueuesOk, OneEach, Waits, Owned, Tokens, Request, Outstanding;
    var s' := Missed(s, a, p, tag);
    MissOnBus(s.mem, s.bus, a, p);
    OneEntry(s.coh, s'.coh, p, a);
    assert St(s'.coh, p, a) == InvalidModified;
    MissWaits(s.bus, s'.bus, s.coh, s'.coh, s.cache.pend, Req(tag, a, p));
    MissOwned(s.bus, s'.bus, s.coh, s'.coh, s.deliveries, p, a);
  }

  /** The new write waits for the caches or in its queue; what was pending stays. */
  lemma {:induction false} MissOnBus(m: Memory, b: Bus, a: Addr, p: nat)
    requires InStep(m, b) && QueuesOk(b) && OneEach(b) && p < |b.queues| && Outstanding(b, p).None?
    ensures var b' := Request(b, BusWr, a, p);
            && InStep(m, b') && QueuesOk(b') && OneEach(b')
            && (forall q :: Outstanding(b', q) == if q == p then Some(a) else Outstanding(b, q))
            && b'.pending.Some?
            && (if b.pending.Some? then b'.pending == b.pending else b'.pending.value.phase == WaitingCache)
  {}

  lemma {:induction false} MissWaits(b: Bus, b': Bus, coh: seq<Directory>, coh': seq<Directory>, pend: seq<Req>, r: Req)
    requires Waits(b, coh, pend) && |coh'| == |coh| && r.proc < |coh| && !InList(pend, r.proc)
    requires St(coh', r.proc, r.addr) == InvalidModified && Outstanding(b, r.proc).None?
    requires forall q, x :: 0 <= q < |coh| && (q != r.proc || x != r.addr) ==> St(coh', q, x) == St(coh, q, x)
    requires forall q :: Outstanding(b', q) == if q == r.proc then Some(r.addr) else Outstanding(b, q)
    ensures Waits(b', coh', [r] + pend)
  {
    hide Outstanding;
    NewFirst(pend, r);
    forall i | 0 <= i < |pend| ensures pend[i].proc != r.proc {
      assert !InList(pend, r.proc);
    }
  }

  lemma {:induction false} MissOwned(b: Bus, b': Bus, coh: seq<Directory>, coh': seq<Directory>, log: seq<Delivery>,
                                     p: nat, a: Addr)
    requires Owned(b, coh) && Tokens(b, coh, log) && p < |coh| && St(coh, p, a) == Invalid
    requires coh' == coh[p := coh[p][a := InvalidModified]]
    requires forall q, x :: 0 <= q < |coh| && (q != p || x != a) ==> St(coh', q, x) == St(coh, q, x)
    requires b'.pending.Some?
    requires if b.pending.Some? then b'.pending == b.pending else b'.pending.value.phase == WaitingCache
    ensures Owned(b', coh') && Tokens(b', coh', log)
  {
    hide Delivered, MemoryFirst;
    assert forall q, x :: 0 <= q < |coh| ==> (St(coh', q, x) == Modified <==> St(coh, q, x) == Modified);
    SameOwners(coh, coh');
  }

  /** The ownership invariant does not look at the processors. */
  lemma {:induction false} SameCore(s: Sys, s': Sys)
    requires Core(s) && s'.mem == s.mem && s'.bus == s.bus && s'.coh == s.coh && s'.deliveries == s.deliveries
    requires s'.cache.pend == s.cache.pend && s'.cache.failed == s.cache.failed
    ensures Core(s')
  {
    hide InStep, QueuesOk, OneEach, Waits, Owned, Tokens;
  }

  lemma {:induction false} SameOwners(coh: seq<Directory>, coh': seq<Directory>)
    requires |coh| == |coh'|
    requires forall q, x :: 0 <= q < |coh| ==> (St(coh', q, x) == Modified <==> St(coh, q, x) == Modified)
    ensures forall x :: HasOwner(coh', x) <==> HasOwner(coh, x)
  {}

  lemma {:induction false} NewFirst(reqs: seq<Req>, r: Req)
    ensures forall p :: InList([r] + reqs, p) <==> p == r.proc || InList(reqs, p)
  {
    forall p | p == r.proc || InList(reqs, p) ensures InList([r] + reqs, p) {
      if InList(reqs, p) {
        var i :| 0 <= i < |reqs| && reqs[i].proc == p;
        assert ([r] + reqs)[i + 1].proc == p;
      } else {
        assert ([r] + reqs)[0].proc == p;
      }
    }
    forall p | InList([r] + reqs, p) ensures p == r.proc || InList(reqs, p) {
      var i :| 0 <= i < |[r] + reqs| && ([r] + reqs)[i].proc == p;
      assert i > 0 ==> reqs[i - 1].proc == p;
    }
  }

  /** What memoryRequest does for an idle processor: a hit is ready, a miss goes to the bus. */
  lemma {:induction false} RequestCases(s: Sys, goal: seq<nat>, a: Addr, p: nat, tag: int)
    requires Inv(s, goal) && p < |s.coh| && !s.procs.pendingMem[p]
    ensures var x := Block(s.blockSize, a);
            MemoryRequest(s, a, p, tag)
            == if St(s.coh, p, x) == Modified then s.(cache := s.cache.(ready := [Req(tag, x, p)] + s.cache.ready))
               else Missed(s, x, p, tag)
  {
    var x := Block(s.blockSize, a);
    IdleHasNothing(s, goal, p);
    if St(s.coh, p, x) == Modified {
      assert s.coh[p][x := Modified] == s.coh[p];
      assert s.coh[p := s.coh[p]] == s.coh;
    }
  }

  /** A new request of a processor that had none. */
  lemma {:induction false} NewTagged(procs: Procs, pend: seq<Req>, ready: seq<Req>, procs': Procs, r: Req)
    requires Tagged(procs, pend, ready) && r.proc < |procs.pendingMem| && !procs.pendingMem[r.proc]
    requires procs'.memOpTag == procs.memOpTag && procs'.pendingMem == procs.pendingMem[r.proc := true]
    requires OwnTag(procs', r) && !InList(pend, r.proc) && !InList(ready, r.proc)
    ensures Tagged(procs', [r] + pend, ready) && Tagged(procs', pend, [r] + ready)
  {
    NewFirst(pend, r);
    NewFirst(ready, r);
    forall i | 0 <= i < |ready| ensures ready[i].proc != r.proc && !InList([r] + pend, ready[i].proc) {
      assert InList(ready, ready[i].proc);
    }
    forall i | 0 <= i < |pend| ensures pend[i].proc != r.proc {
      assert InList(pend, pend[i].proc);
    }
  }

  lemma {:induction false} SameTagged(procs: Procs, procs': Procs, pend: seq<Req>, ready: seq<Req>)
    requires procs'.pendingMem == procs.pendingMem && procs'.memOpTag == procs.memOpTag
    ensures Tagged(procs, pend, ready) <==> Tagged(procs', pend, ready)
  {
    hide InList, MakeTag;
  }

  lemma {:induction false} IssueKept(s: Sys, goal: seq<nat>, i: nat)
    requires Inv(s, goal) && i < |s.coh|
    ensures Inv(Issue(s, i).0, goal)
  {
    hide Core, Tagged, InOrder, MemoryRequest, CountAccepted;
    var p, s' := s.procs, Issue(s, i).0;
    if !p.pendingMem[i] && p.pendingBranch[i] == 0 && p.traces[i] != [] && p.traces[i][0].Mem? {
      IssueMemKept(s, goal, i);
    } else {
      assert s'.mem == s.mem && s'.bus == s.bus && s'.coh == s.coh && s'.cache == s.cache
             && s'.deliveries == s.deliveries && s'.calls == s.calls;
      assert s'.procs.pendingMem == p.pendingMem && s'.procs.memOpTag == p.memOpTag;
      SameCore(s, s');
      SameTagged(p, s'.procs, s.cache.pend, s.cache.ready);
      assert Counted(s', goal);
    }
  }

  lemma {:induction false} IssueMemKept(s: Sys, goal: seq<nat>, i: nat)
    requires Inv(s, goal) && i < |s.coh|
    requires !s.procs.pendingMem[i] && s.procs.pendingBranch[i] == 0
    requires s.procs.traces[i] != [] && s.procs.traces[i][0].Mem?
    ensures Inv(Issue(s, i).0, goal)
  {
    hide Core, Tagged, InOrder, MemoryRequest, Request, MakeTag;
    var p, s' := s.procs, Issue(s, i).0;
    var a := Block(s.blockSize, p.traces[i][0].addr);
    var r := Req(MakeTag(i, p.memOpTag[i]), a, i);
    IssueIs(s, goal, i);
    IdleHasNothing(s, goal, i);
    NewTagged(p, s.cache.pend, s.cache.ready, s'.procs, r);
    if St(s.coh, i, a) == Modified {
      SameCore(s, s');
    } else {
      NothingWaits(s, goal, i, a);
      MissKeepsCore(s, a, i, r.tag);
      SameCore(Missed(s, a, i, r.tag), s');
    }
  }

  /** An idle processor's block is in MODIFIED or INVALID. */
  lemma {:induction false} NothingWaits(s: Sys, goal: seq<nat>, p: nat, a: Addr)
    requires Inv(s, goal) && p < |s.coh| && !s.procs.pendingMem[p] && St(s.coh, p, a) != Modified
    ensures Core(s) && St(s.coh, p, a) == Invalid
  {
    IdleHasNothing(s, goal, p);
  }

  /** A memory operation that is issued: a hit is ready, a miss goes to the bus. */
  lemma {:induction false} IssueIs(s: Sys, goal: seq<nat>, i: nat)
    requires Inv(s, goal) && i < |s.coh|
    requires !s.procs.pendingMem[i] && s.procs.pendingBranch[i] == 0
    requires s.procs.traces[i] != [] && s.procs.traces[i][0].Mem?
    ensures var p := s.procs;
            var a, tag := Block(s.blockSize, p.traces[i][0].addr), MakeTag(i, p.memOpTag[i]);
            var procs := p.(traces := p.traces[i := p.traces[i][1..]], pendingMem := p.pendingMem[i := true]);
            Issue(s, i).0
            == if St(s.coh, i, a) == Modified
               then s.(procs := procs, cache := s.cache.(ready := [Req(tag, a, i)] + s.cache.ready))
               else Missed(s, a, i, tag).(procs := procs)
  {
    hide Core, Tagged, InOrder, Request, MakeTag;
    RequestCases(s, goal, s.procs.traces[i][0].addr, i, MakeTag(i, s.procs.memOpTag[i]));
  }

  lemma {:induction false} IssueFromKept(s: Sys, goal: seq<nat>, i: nat, progress: bool)
    requires Inv(s, goal)
    ensures Inv(IssueFrom(s, i, progress).0, goal)
    decreases |s.coh| - i
  {
    if i < |s.coh| {
      IssueKept(s, goal, i);
      var (s', more) := Issue(s, i);
      IssueFromKept(s', goal, i + 1, progress || more);
    }
  }

  /** One tick keeps everything. */
  lemma {:induction false} TickKept(s: Sys, goal: seq<nat>)
    requires Inv(s, goal)
    ensures Inv(Tick(s).0, goal)
  {
    BusTickKept(s, goal);
    DrainKept(BusTick(s), goal);
    IssueFromKept(CacheTick(s), goal, 0, false);
  }

  ghost function Goals(traces: seq<seq<Op>>): seq<nat> {
    seq(|traces|, p requires 0 <= p < |traces| => MemOps(traces[p]))
  }

  lemma {:induction false} InvAfter(s: Sys, goal: seq<nat>, k: nat) returns (r: Sys)
    requires Inv(s, goal)
    ensures r == After(s, k) && Inv(r, goal)
    decreases k
  {
    hide Core, Tagged, Counted, InOrder, Tick;
    if k == 0 {
      r := s;
    } else {
      TickKept(s, goal);
      r := InvAfter(Tick(s).0, goal, k - 1);
    }
  }

  lemma {:induction false} InitialInv(traces: seq<seq<Op>>, blockSize: nat)
    requires CountAccepted(|traces|)
    ensures Inv(Initial(traces, blockSize), Goals(traces))
  {}

  /** Every state that any run reaches satisfies the invariant. */
  lemma {:induction false} ReachableInv(traces: seq<seq<Op>>, blockSize: nat, k: nat)
    requires CountAccepted(|traces|)
    ensures Inv(After(Initial(traces, blockSize), k), Goals(traces))
  {
    InitialInv(traces, blockSize);
    var _ := InvAfter(Initial(traces, blockSize), Goals(traces), k);
  }
}
