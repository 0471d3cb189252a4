/** The inductive invariant of n processors over simpleCache and MI, below the processors: who
    waits, who owns, and which transaction is whose. Kept by every bus tick. */
module Ownership {
  import opened Protocol
  import opened Bus
  import opened Lockstep
  import opened System

  ghost function St(coh: seq<Directory>, p: nat, a: Addr): CohState
    requires p < |coh|
  {
    GetState(coh[p], a)
  }

  ghost predicate HasOwner(coh: seq<Directory>, a: Addr) {
    exists p :: 0 <= p < |coh| && St(coh, p, a) == Modified
  }

  /** The address of processor p's transaction, pending or queued. */
  ghost function Outstanding(b: Bus, p: nat): Option<Addr> {
    if b.pending.Some? && b.pending.value.proc == p then Some(b.pending.value.addr)
    else if p < |b.queues| && b.queues[p] != [] then Some(b.queues[p][0].addr)
    else None
  }

  /** Every processor has at most one transaction, always a write. */
  ghost predicate OneEach(b: Bus) {
    && (forall p :: 0 <= p < |b.queues| ==> |b.queues[p]| <= 1)
    && (forall p :: 0 <= p < |b.queues| && b.queues[p] != [] ==> b.queues[p][0].brt == BusWr)
    && (b.pending.Some? ==>
          var t := b.pending.value;
          t.proc < |b.queues| && b.queues[t.proc] == [] && (t.phase != TransferingCache ==> t.brt == BusWr))
  }

  /** The cache's pending list, the bus and INVALID_MODIFIED say the same: p waits for a. */
  ghost predicate Waits(b: Bus, coh: seq<Directory>, pend: seq<Req>) {
    && (forall i :: 0 <= i < |pend| ==>
          pend[i].proc < |coh| && Outstanding(b, pend[i].proc) == Some(pend[i].addr))
    && (forall i, j :: 0 <= i < j < |pend| ==> pend[i].proc != pend[j].proc)
    && (forall p :: 0 <= p < |coh| && Outstanding(b, p).Some? ==> InList(pend, p))
    && (forall p, a :: 0 <= p < |coh| ==> (St(coh, p, a) == InvalidModified <==> Outstanding(b, p) == Some(a)))
  }

  ghost predicate InList(reqs: seq<Req>, p: nat) {
    exists i :: 0 <= i < |reqs| && reqs[i].proc == p
  }

  /** At most one owner; none at all once the write that is being served has been snooped. */
  ghost predicate Owned(b: Bus, coh: seq<Directory>) {
    && (forall p, q, a :: 0 <= p < q < |coh| && St(coh, p, a) == Modified ==> St(coh, q, a) != Modified)
    && (b.pending.Some? && b.pending.value.phase != WaitingCache ==> !HasOwner(coh, b.pending.value.addr))
    && (forall p :: 0 <= p < |coh| ==> NoStoredInvalid(coh[p]))
  }

  ghost predicate Delivered(log: seq<Delivery>, a: Addr) {
    exists i :: 0 <= i < |log| && log[i].addr == a
  }

  ghost predicate InFlight(b: Bus, a: Addr) {
    b.pending.Some? && b.pending.value.phase == TransferingCache && b.pending.value.addr == a
  }

  /** The ownership token of an address comes into being with its first delivery and is never lost
      or doubled: it is with one owner or on the bus between two caches. */
  ghost predicate Tokens(b: Bus, coh: seq<Directory>, log: seq<Delivery>) {
    && (forall a :: Delivered(log, a) <==> HasOwner(coh, a) || InFlight(b, a))
    && (b.pending.Some? && b.pending.value.phase == WaitingMemory ==> !Delivered(log, b.pending.value.addr))
    && MemoryFirst(log)
  }

  /** Memory supplies an address the first time and never again. */
  ghost predicate MemoryFirst(log: seq<Delivery>) {
    forall k :: 0 <= k < |log| ==> (log[k].viaMemory <==> !Delivered(log[..k], log[k].addr))
  }

  ghost predicate Core(s: Sys) {
    && |s.bus.queues| == |s.coh| && !s.cache.failed
    && InStep(s.mem, s.bus) && QueuesOk(s.bus) && OneEach(s.bus)
    && Waits(s.bus, s.coh, s.cache.pend)
    && Owned(s.bus, s.coh)
    && Tokens(s.bus, s.coh, s.deliveries)
  }

  /* The snoop loop, exactly. */

  /** Snooping a write changes nothing at a processor that does not own the block. */
  lemma {:induction false} SnoopElsewhere(s: Sys, a: Addr, p: nat)
    requires p < |s.coh| && St(s.coh, p, a) != Modified && NoStoredInvalid(s.coh[p])
    requires s.cache.pend != []
    ensures CohRequest(s, BusWr, a, p) == s
  {
    var d := s.coh[p];
    assert a in d ==> d[a := InvalidModified] == d;
    assert s.coh[p := d] == s.coh;
  }

  lemma {:induction false} SnoopNobody(s: Sys, t: Txn, i: nat)
    requires t.brt == BusWr && s.cache.pend != []
    requires forall q :: i <= q < |s.coh| && q != t.proc ==> St(s.coh, q, t.addr) != Modified && NoStoredInvalid(s.coh[q])
    ensures SnoopFrom(s, t, i) == s
    decreases |s.coh| - i
  {
    if i < |s.coh| {
      if i != t.proc { SnoopElsewhere(s, t.addr, i); }
      SnoopNobody(s, t, i + 1);
    }
  }

  /** The state after owner q gave up block t.addr and put the data on the bus. */
  ghost function HandedOver(s: Sys, t: Txn, q: nat): Sys
    requires q < |s.coh|
  {
    s.(bus := s.bus.(pending := Some(t.(data := true, phase := TransferingCache)), countDown := CACHE_TRANSFER),
       coh := s.coh[q := s.coh[q] - {t.addr}])
  }

  lemma {:induction false} SnoopOwner(s: Sys, t: Txn, i: nat, q: nat)
    requires t.brt == BusWr && t.phase == WaitingMemory && s.bus.pending == Some(t) && s.cache.pend != []
    requires i <= q < |s.coh| && q != t.proc && St(s.coh, q, t.addr) == Modified
    requires forall p :: i <= p < |s.coh| && p != t.proc ==> NoStoredInvalid(s.coh[p])
    requires forall p :: i <= p < |s.coh| && p != q ==> St(s.coh, p, t.addr) != Modified
    ensures SnoopFrom(s, t, i) == HandedOver(s, t, q)
    decreases |s.coh| - i
  {
    if i < q {
      if i != t.proc { SnoopElsewhere(s, t.addr, i); }
      SnoopOwner(s, t, i + 1, q);
    } else {
      assert CohRequest(s, BusWr, t.addr, q) == HandedOver(s, t, q);
      var s' := HandedOver(s, t, q);
      forall p | q < p < |s'.coh| && p != t.proc
        ensures St(s'.coh, p, t.addr) != Modified && NoStoredInvalid(s'.coh[p])
      {
        assert s'.coh[p] == s.coh[p] && St(s.coh, p, t.addr) != Modified;
      }
      SnoopNobody(s', t, q + 1);
    }
  }

  /* What each kind of bus tick does to a whole system that satisfies the invariant. */

  /** The requester of the pending transaction waits for it. */
  lemma {:induction false} RequesterWaits(s: Sys)
    requires Core(s) && s.bus.pending.Some?
    ensures s.cache.pend != [] && s.bus.pending.value.proc < |s.coh|
    ensures St(s.coh, s.bus.pending.value.proc, s.bus.pending.value.addr) == InvalidModified
    ensures FindReq(s.cache.pend, s.bus.pending.value.proc, s.bus.pending.value.addr).Some?
  {
    var t := s.bus.pending.value;
    assert Outstanding(s.bus, t.proc) == Some(t.addr);
    assert InList(s.cache.pend, t.proc);
  }

  ghost predicate Served(s: Sys, s': Sys, viaMemory: bool)
    requires s.bus.pending.Some?
  {
    var t := s.bus.pending.value;
    var found := FindReq(s.cache.pend, t.proc, t.addr);
    && t.proc < |s.coh| && found.Some?
    && s'.bus == s.bus.(pending := None, countDown := 0)
    && s'.coh == s.coh[t.proc := s.coh[t.proc][t.addr := Modified]]
    && s'.cache == s.cache.(pend := s.cache.pend[..found.value] + s.cache.pend[found.value + 1..],
                            ready := [s.cache.pend[found.value]] + s.cache.ready)
    && s'.deliveries == s.deliveries + [Delivery(t.addr, t.proc, viaMemory)]
  }

  /** One bus tick, case by case. */
  ghost predicate TickCases(s: Sys, s': Sys)
  {
    var b := s.bus;
    && s'.procs == s.procs && s'.calls == s.calls && s'.blockSize == s.blockSize
    && InStep(s'.mem, s'.bus)
    && if b.pending.None? then
         s'.bus == Arbitrate(b) && s'.coh == s.coh && s'.cache == s.cache && s'.deliveries == s.deliveries
       else if b.countDown > 1 then
         s'.bus == b.(countDown := b.countDown - 1) && s'.coh == s.coh && s'.cache == s.cache
         && s'.deliveries == s.deliveries
       else
         var t := b.pending.value;
         match t.phase
         case WaitingCache =>
           var t' := t.(phase := WaitingMemory);
           s'.cache == s.cache && s'.deliveries == s.deliveries
           && if HasOwner(s.coh, t.addr) then
                exists q :: 0 <= q < |s.coh| && q != t.proc && St(s.coh, q, t.addr) == Modified
                  && s'.coh == s.coh[q := s.coh[q] - {t.addr}]
                  && s'.bus == b.(pending := Some(t.(brt := Data, data := true, phase := TransferingCache)),
                                  countDown := CACHE_TRANSFER)
              else
                s'.coh == s.coh && s'.bus == b.(pending := Some(t'), countDown := DRAM_FETCH_TICKS)
         case WaitingMemory => Served(s, s', true)
         case _ => Served(s, s', false)
  }

  lemma {:induction false} BusTickCases(s: Sys)
    requires Core(s)
    ensures TickCases(s, BusTick(s))
  {
    var b := s.bus;
    if b.pending.None? {
      TickWhenFree(s.mem, b);
    } else if b.countDown > 1 {
      TickCountsDown(s.mem, b);
    } else if b.pending.value.phase == WaitingCache {
      SnoopCases(s);
    } else {
      DeliveryCases(s);
    }
  }

  lemma {:induction false} DeliveryCases(s: Sys)
    requires Core(s) && s.bus.pending.Some? && s.bus.pending.value.phase != WaitingCache && s.bus.countDown <= 1
    ensures TickCases(s, BusTick(s))
  {
    if s.bus.pending.value.phase == WaitingMemory { MemoryCase(s); } else { TransferCase(s); }
  }

  lemma {:induction false} MemoryCase(s: Sys)
    requires Core(s) && s.bus.pending.Some? && s.bus.pending.value.phase == WaitingMemory && s.bus.countDown <= 1
    ensures TickCases(s, BusTick(s))
  {
    hide HasOwner;
    RequesterWaits(s);
    TickMemoryDelivers(s.mem, s.bus);
  }

  lemma {:induction false} TransferCase(s: Sys)
    requires Core(s) && s.bus.pending.Some? && s.bus.pending.value.phase == TransferingCache && s.bus.countDown <= 1
    ensures TickCases(s, BusTick(s))
  {
    hide HasOwner;
    RequesterWaits(s);
    TickCacheDelivers(s.mem, s.bus);
  }

  lemma {:induction false} SnoopCases(s: Sys)
    requires Core(s) && s.bus.pending.Some? && s.bus.pending.value.phase == WaitingCache && s.bus.countDown == 1
    ensures TickCases(s, BusTick(s))
  {
    if HasOwner(s.coh, s.bus.pending.value.addr) { OwnerCase(s); } else { NobodyCase(s); }
  }

  lemma {:induction false} OwnerCase(s: Sys)
    requires Core(s) && s.bus.pending.Some? && s.bus.pending.value.phase == WaitingCache && s.bus.countDown == 1
    requires HasOwner(s.coh, s.bus.pending.value.addr)
    ensures TickCases(s, BusTick(s))
  {
    RequesterWaits(s);
    TickStartsMemory(s.mem, s.bus);
    var (m, b, call) := Advance(s.mem, s.bus);
    var t := b.pending.value;
    var q :| 0 <= q < |s.coh| && St(s.coh, q, t.addr) == Modified;
    SnoopOwner(s.(mem := m, bus := b), t, 0, q);
  }

  lemma {:induction false} NobodyCase(s: Sys)
    requires Core(s) && s.bus.pending.Some? && s.bus.pending.value.phase == WaitingCache && s.bus.countDown == 1
    requires !HasOwner(s.coh, s.bus.pending.value.addr)
    ensures TickCases(s, BusTick(s))
  {
    RequesterWaits(s);
    TickStartsMemory(s.mem, s.bus);
    var (m, b, call) := Advance(s.mem, s.bus);
    SnoopNobody(s.(mem := m, bus := b), b.pending.value, 0);
  }

  /* Every case keeps the invariant. */

  lemma {:induction false} CoreKept(s: Sys)
    requires Core(s)
    ensures Core(BusTick(s))
  {
    BusTickCases(s);
    var b, s' := s.bus, BusTick(s);
    if b.pending.None? {
      KeptWhenFree(s, s');
    } else if b.countDown > 1 {
      KeptCountingDown(s, s');
    } else if b.pending.value.phase == WaitingCache {
      if HasOwner(s.coh, b.pending.value.addr) { KeptHandOver(s, s'); } else { KeptToMemory(s, s'); }
    } else {
      KeptServed(s, s', b.pending.value.phase == WaitingMemory);
    }
  }

  lemma {:induction false} KeptWhenFree(s: Sys, s': Sys)
    requires Core(s) && TickCases(s, s') && s.bus.pending.None?
    ensures Core(s')
  {
    TickWhenFree(s.mem, s.bus);
    forall p ensures Outstanding(s'.bus, p) == Outstanding(s.bus, p) {}
  }

  lemma {:induction false} KeptCountingDown(s: Sys, s': Sys)
    requires Core(s) && TickCases(s, s') && s.bus.pending.Some? && s.bus.countDown > 1
    ensures Core(s')
  {
    forall p ensures Outstanding(s'.bus, p) == Outstanding(s.bus, p) {}
  }

  lemma {:induction false} KeptToMemory(s: Sys, s': Sys)
    requires Core(s) && TickCases(s, s') && s.bus.pending.Some? && s.bus.countDown == 1
    requires s.bus.pending.value.phase == WaitingCache && !HasOwner(s.coh, s.bus.pending.value.addr)
    ensures Core(s')
  {
    forall p ensures Outstanding(s'.bus, p) == Outstanding(s.bus, p) {}
  }

  /** Changing one entry of one directory. */
  lemma {:induction false} OneEntry(coh: seq<Directory>, coh': seq<Directory>, p: nat, a: Addr)
    requires p < |coh| && |coh'| == |coh|
    requires forall r :: 0 <= r < |coh| && r != p ==> coh'[r] == coh[r]
    requires forall x :: x != a ==> GetState(coh'[p], x) == GetState(coh[p], x)
    ensures forall r, x :: 0 <= r < |coh| && (r != p || x != a) ==> St(coh', r, x) == St(coh, r, x)
    ensures forall x :: x != a ==> (HasOwner(coh', x) <==> HasOwner(coh, x))
  {}

  lemma {:induction false} KeptHandOver(s: Sys, s': Sys)
    requires Core(s) && TickCases(s, s') && s.bus.pending.Some? && s.bus.countDown == 1
    requires s.bus.pending.value.phase == WaitingCache && HasOwner(s.coh, s.bus.pending.value.addr)
    ensures Core(s')
  {
    var t := s.bus.pending.value;
    var a := t.addr;
    forall p ensures Outstanding(s'.bus, p) == Outstanding(s.bus, p) {}
    var q :| 0 <= q < |s.coh| && q != t.proc && St(s.coh, q, a) == Modified && s'.coh == s.coh[q := s.coh[q] - {a}];
    OneEntry(s.coh, s'.coh, q, a);
    assert St(s'.coh, q, a) == Invalid;
    HandOverWaits(s.bus, s'.bus, s.coh, s'.coh, s.cache.pend, q, a);
    HandOverOwned(s.bus, s'.bus, s.coh, s'.coh, s.deliveries, q, a);
  }

  /** Only q's entry for a has changed, from MODIFIED to INVALID. */
  ghost predicate GivesUp(coh: seq<Directory>, coh': seq<Directory>, q: nat, a: Addr) {
    && q < |coh| && |coh'| == |coh| && St(coh, q, a) == Modified && St(coh', q, a) == Invalid
    && forall r, x :: 0 <= r < |coh| && (r != q || x != a) ==> St(coh', r, x) == St(coh, r, x)
  }

  lemma {:induction false} HandOverWaits(b: Bus, b': Bus, coh: seq<Directory>, coh': seq<Directory>, pend: seq<Req>,
                                         q: nat, a: Addr)
    requires Waits(b, coh, pend) && GivesUp(coh, coh', q, a) && forall p :: Outstanding(b', p) == Outstanding(b, p)
    ensures Waits(b', coh', pend)
  {
    hide Outstanding;
  }

  lemma {:induction false} HandOverOwned(b: Bus, b': Bus, coh: seq<Directory>, coh': seq<Directory>, log: seq<Delivery>,
                                         q: nat, a: Addr)
    requires Owned(b, coh) && Tokens(b, coh, log) && GivesUp(coh, coh', q, a) && coh' == coh[q := coh[q] - {a}]
    requires forall x :: x != a ==> (HasOwner(coh', x) <==> HasOwner(coh, x))
    requires b.pending.Some? && b.pending.value.addr == a && b.pending.value.phase == WaitingCache
    requires b'.pending.Some? && b'.pending.value.addr == a && b'.pending.value.phase == TransferingCache
    ensures Owned(b', coh') && Tokens(b', coh', log)
  {
    hide Delivered, MemoryFirst;
    assert !HasOwner(coh', a);
    assert HasOwner(coh, a);
  }

  /** Taking one request out of the pending list. */
  lemma {:induction false} WithoutOne(pend: seq<Req>, i: nat)
    requires i < |pend| && forall j, k :: 0 <= j < k < |pend| ==> pend[j].proc != pend[k].proc
    ensures var rest := pend[..i] + pend[i + 1..];
            && (forall j :: 0 <= j < |rest| ==> rest[j] in pend && rest[j].proc != pend[i].proc)
            && (forall j, k :: 0 <= j < k < |rest| ==> rest[j].proc != rest[k].proc)
            && (forall p :: p != pend[i].proc && InList(pend, p) ==> InList(rest, p))
  {
    var rest := pend[..i] + pend[i + 1..];
    assert forall j :: 0 <= j < |rest| ==> rest[j] == pend[if j < i then j else j + 1];
    forall p | p != pend[i].proc && InList(pend, p)
      ensures InList(rest, p)
    {
      var j :| 0 <= j < |pend| && pend[j].proc == p;
      assert rest[if j < i then j else j - 1] == pend[j];
    }
  }

  lemma {:induction false} KeptServed(s: Sys, s': Sys, viaMemory: bool)
    requires Core(s) && TickCases(s, s') && s.bus.pending.Some? && s.bus.countDown == 1
    requires s.bus.pending.value.phase != WaitingCache && viaMemory == (s.bus.pending.value.phase == WaitingMemory)
    ensures Core(s')
  {
    var t := s.bus.pending.value;
    var i := FindReq(s.cache.pend, t.proc, t.addr).value;
    forall p ensures Outstanding(s'.bus, p) == if p == t.proc then None else Outstanding(s.bus, p) {}
    OneEntry(s.coh, s'.coh, t.proc, t.addr);
    assert St(s'.coh, t.proc, t.addr) == Modified;
    ServedWaits(s.bus, s'.bus, s.coh, s'.coh, s.cache.pend, i);
    ServedOwned(s.bus, s'.bus, s.coh, s'.coh, s.deliveries, Delivery(t.addr, t.proc, viaMemory));
  }

  lemma {:induction false} ServedWaits(b: Bus, b': Bus, coh: seq<Directory>, coh': seq<Directory>, pend: seq<Req>, i: nat)
    requires Waits(b, coh, pend) && i < |pend| && |coh'| == |coh|
    requires var p, a := pend[i].proc, pend[i].addr;
             && St(coh', p, a) == Modified && Outstanding(b, p) == Some(a)
             && (forall r, x :: 0 <= r < |coh| && (r != p || x != a) ==> St(coh', r, x) == St(coh, r, x))
             && (forall q :: Outstanding(b', q) == if q == p then None else Outstanding(b, q))
    ensures Waits(b', coh', pend[..i] + pend[i + 1..])
  {
    hide Outstanding;
    WithoutOne(pend, i);
  }

  lemma {:induction false} ServedOwned(b: Bus, b': Bus, coh: seq<Directory>, coh': seq<Directory>, log: seq<Delivery>,
                                       d: Delivery)
    requires Owned(b, coh) && Tokens(b, coh, log) && b.pending.Some? && b'.pending.None?
    requires d.addr == b.pending.value.addr && d.proc < |coh| && coh' == coh[d.proc := coh[d.proc][d.addr := Modified]]
    requires b.pending.value.phase == WaitingMemory || b.pending.value.phase == TransferingCache
    requires d.viaMemory <==> b.pending.value.phase == WaitingMemory
    requires forall r, x :: 0 <= r < |coh| && (r != d.proc || x != d.addr) ==> St(coh', r, x) == St(coh, r, x)
    requires forall x :: x != d.addr ==> (HasOwner(coh', x) <==> HasOwner(coh, x))
    ensures Owned(b', coh') && Tokens(b', coh', log + [d])
  {
    hide Delivered, MemoryFirst;
    assert St(coh', d.proc, d.addr) == Modified;
    assert HasOwner(coh', d.addr);
    LogGrows(log, d);
  }

  lemma {:induction false} LogGrows(log: seq<Delivery>, d: Delivery)
    requires MemoryFirst(log) && (d.viaMemory <==> !Delivered(log, d.addr))
    ensures MemoryFirst(log + [d])
    ensures forall a :: Delivered(log + [d], a) <==> Delivered(log, a) || a == d.addr
  {
    var log' := log + [d];
    assert forall k :: 0 <= k < |log| ==> log'[..k] == log[..k];
    assert log'[..|log|] == log && log'[|log|] == d;
    forall a | Delivered(log, a) ensures Delivered(log', a) {
      var i :| 0 <= i < |log| && log[i].addr == a;
      assert log'[i].addr == a;
    }
  }
}
