/** What the invariant means for every state of every run of n processors over simpleCache. */
module Safety {
  import opened Protocol
  import opened Bus
  import opened Lockstep
  import opened System
  import opened Ownership
  import opened Processors

  ghost function Run(traces: seq<seq<Op>>, blockSize: nat, k: nat): (s: Sys) {
    After(Initial(traces, blockSize), k)
  }

  ghost function Owners(coh: seq<Directory>, a: Addr): set<nat> {
    set p: nat | p < |coh| && St(coh, p, a) == Modified
  }

  /** No two processors have an address in MODIFIED, and no processor at all has the address of a
      transaction that has been snooped and not yet delivered. */
  lemma {:induction false} SingleOwner(traces: seq<seq<Op>>, blockSize: nat, k: nat, a: Addr)
    requires CountAccepted(|traces|)
    ensures var s := Run(traces, blockSize, k);
            && |Owners(s.coh, a)| <= 1
            && (s.bus.pending.Some? && s.bus.pending.value.addr == a && s.bus.pending.value.phase != WaitingCache
                ==> Owners(s.coh, a) == {})
  {
    ReachableInv(traces, blockSize, k);
    AtMostOne(Run(traces, blockSize, k), a);
  }

  lemma {:induction false} AtMostOne(s: Sys, a: Addr)
    requires Owned(s.bus, s.coh)
    ensures |Owners(s.coh, a)| <= 1
    ensures HasOwner(s.coh, a) <==> |Owners(s.coh, a)| == 1
    ensures !HasOwner(s.coh, a) ==> Owners(s.coh, a) == {}
  {
    if HasOwner(s.coh, a) {
      var p: nat :| p < |s.coh| && St(s.coh, p, a) == Modified;
      assert Owners(s.coh, a) == {p};
    }
  }

  /** The ownership token: from the first delivery of an address on, its owners and its
      cache-to-cache transfer on the bus always number exactly one; before, none. */
  lemma {:induction false} TokenConserved(traces: seq<seq<Op>>, blockSize: nat, k: nat, a: Addr)
    requires CountAccepted(|traces|)
    ensures var s := Run(traces, blockSize, k);
            |Owners(s.coh, a)| + (if InFlight(s.bus, a) then 1 else 0) == if Delivered(s.deliveries, a) then 1 else 0
  {
    ReachableInv(traces, blockSize, k);
    AtMostOne(Run(traces, blockSize, k), a);
  }

  /** Memory supplies an address for its first delivery and for no other. */
  lemma {:induction false} MemorySuppliesOnce(traces: seq<seq<Op>>, blockSize: nat, k: nat, i: nat, j: nat)
    requires CountAccepted(|traces|)
    requires i < j < |Run(traces, blockSize, k).deliveries|
    ensures var log := Run(traces, blockSize, k).deliveries;
            log[i].addr == log[j].addr ==> !log[j].viaMemory
    ensures var log := Run(traces, blockSize, k).deliveries;
            log[i].viaMemory || exists h :: 0 <= h < i && log[h].addr == log[i].addr && log[h].viaMemory
  {
    ReachableInv(traces, blockSize, k);
    var log := Run(traces, blockSize, k).deliveries;
    assert log[..j][i] == log[i];
    FirstIsMemory(log, i);
  }

  lemma {:induction false} FirstIsMemory(log: seq<Delivery>, i: nat)
    requires MemoryFirst(log) && i < |log|
    ensures log[i].viaMemory || exists h :: 0 <= h < i && log[h].addr == log[i].addr && log[h].viaMemory
  {
    if !log[i].viaMemory {
      var h :| 0 <= h < |log[..i]| && log[..i][h].addr == log[i].addr;
      FirstIsMemory(log, h);
    }
  }

  /** No assertion of cache, bus or memory fails. The c-th callback to a processor carries the tag of
      its c-th memory operation and is recognised: the branch for a wrong tag is never taken. Callbacks,
      the operation outstanding and the operations not yet issued add up to those of the trace. */
  lemma {:induction false} NoFailureExactlyOnce(traces: seq<seq<Op>>, blockSize: nat, k: nat)
    requires CountAccepted(|traces|)
    ensures var s := Run(traces, blockSize, k);
            && !s.mem.failed && !s.bus.failed && !s.cache.failed && Sized(s, |traces|)
            && (forall i :: 0 <= i < |s.calls| ==>
                 var c := s.calls[i];
                 c.accepted && c.tag == MakeTag(c.proc, CallsTo(s.calls[..i], c.proc)))
            && (forall p :: 0 <= p < |traces| ==>
                 CallsTo(s.calls, p) + (if s.procs.pendingMem[p] then 1 else 0) + MemOps(s.procs.traces[p])
                 == MemOps(traces[p]))
  {
    hide Inv, After;
    ReachableInv(traces, blockSize, k);
    RunSize(Initial(traces, blockSize), k);
    ExactlyOnce(Run(traces, blockSize, k), Goals(traces));
  }

  lemma {:induction false} ExactlyOnce(s: Sys, goal: seq<nat>)
    requires Inv(s, goal)
    ensures !s.mem.failed && !s.bus.failed && !s.cache.failed && Sized(s, |s.coh|) && |goal| == |s.coh|
    ensures forall i :: 0 <= i < |s.calls| ==>
              var c := s.calls[i];
              c.accepted && c.tag == MakeTag(c.proc, CallsTo(s.calls[..i], c.proc))
    ensures forall p :: 0 <= p < |goal| ==>
              CallsTo(s.calls, p) + (if s.procs.pendingMem[p] then 1 else 0) + MemOps(s.procs.traces[p]) == goal[p]
  {
    hide Tagged, Waits, Owned, Tokens;
  }

  /** All transactions of processor p, pending and queued. */
  ghost function TxnsOf(b: Bus, p: nat): seq<Txn> {
    (if b.pending.Some? && b.pending.value.proc == p then [b.pending.value] else [])
    + if p < |b.queues| then b.queues[p] else []
  }

  /** p has one transaction on the bus: a write for a, or the cache-to-cache transfer that answers it. */
  ghost predicate OneWrite(b: Bus, p: nat, a: Addr) {
    && |TxnsOf(b, p)| == 1
    && var t := TxnsOf(b, p)[0];
       t.addr == a && t.proc == p && (t.brt == BusWr || (t.brt == Data && t.phase == TransferingCache))
  }

  /** INVALID_MODIFIED marks exactly the block a processor has its one bus write out for; that
      processor then has its one operation outstanding. */
  lemma {:induction false} WaitingMeansOutstanding(traces: seq<seq<Op>>, blockSize: nat, k: nat, p: nat, a: Addr)
    requires CountAccepted(|traces|) && p < |traces|
    ensures var s := Run(traces, blockSize, k);
            && |s.coh| == |traces|
            && (St(s.coh, p, a) == InvalidModified <==> OneWrite(s.bus, p, a))
            && |TxnsOf(s.bus, p)| <= 1
            && (St(s.coh, p, a) == InvalidModified ==> s.procs.pendingMem[p])
  {
    ReachableInv(traces, blockSize, k);
    RunSize(Initial(traces, blockSize), k);
    OneTransaction(Run(traces, blockSize, k), Goals(traces), p, a);
  }

  lemma {:induction false} OneTransaction(s: Sys, goal: seq<nat>, p: nat, a: Addr)
    requires Inv(s, goal) && p < |s.coh|
    ensures St(s.coh, p, a) == InvalidModified <==> OneWrite(s.bus, p, a)
    ensures |TxnsOf(s.bus, p)| <= 1
    ensures St(s.coh, p, a) == InvalidModified ==> s.procs.pendingMem[p]
  {
    hide Owned, Tokens, Counted, Processors.InOrder;
    assert St(s.coh, p, a) == InvalidModified <==> Outstanding(s.bus, p) == Some(a);
    if St(s.coh, p, a) == InvalidModified {
      assert InList(s.cache.pend, p);
    }
  }

  lemma {:induction false} RunSize(s: Sys, k: nat)
    requires Sized(s, |s.coh|)
    ensures |After(s, k).coh| == |s.coh|
    decreases k
  {}

  /** What the assertions of the source test, said of the states themselves. Memory and bus count down only
      with a transaction in hand; memory is free whenever the bus is about to give it one; and the request
      that the pending transaction answers is in the cache's pending list. */
  lemma {:induction false} AssertionsHold(traces: seq<seq<Op>>, blockSize: nat, k: nat)
    requires CountAccepted(|traces|)
    ensures var s := Run(traces, blockSize, k);
            && (s.mem.countDown > 0 ==> s.mem.pending.Some? && s.bus.pending.Some?)
            && (s.bus.countDown > 0 <==> s.bus.pending.Some?)
            && (s.bus.pending.Some? && s.bus.pending.value.phase == WaitingCache ==> s.mem.pending.None?)
            && (s.bus.pending.Some? ==>
                  exists i :: 0 <= i < |s.cache.pend| && s.cache.pend[i].proc == s.bus.pending.value.proc
                              && s.cache.pend[i].addr == s.bus.pending.value.addr)
  {
    ReachableInv(traces, blockSize, k);
    ListsPending(Run(traces, blockSize, k), Goals(traces));
  }

  lemma {:induction false} ListsPending(s: Sys, goal: seq<nat>)
    requires Inv(s, goal)
    ensures InStep(s.mem, s.bus)
    ensures s.bus.pending.Some? ==>
              exists i :: 0 <= i < |s.cache.pend| && s.cache.pend[i].proc == s.bus.pending.value.proc
                          && s.cache.pend[i].addr == s.bus.pending.value.addr
  {
    if s.bus.pending.Some? {
      RequesterWaits(s);
      var i := FindReq(s.cache.pend, s.bus.pending.value.proc, s.bus.pending.value.addr).value;
      assert s.cache.pend[i].proc == s.bus.pending.value.proc;
    }
  }
}
