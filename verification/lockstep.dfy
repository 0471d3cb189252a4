/** Bus and memory move in lock step: what one bus tick does in every phase of a transaction. */
module Lockstep {
  import opened Protocol
  import opened Bus

  ghost predicate IdleMemory(m: Memory) { m == Memory(None, 0, false) }

  /** Memory works on transaction t and needs `left` more ticks. */
  ghost predicate Fetching(m: Memory, t: Txn, left: int) {
    m == Memory(Some(MemReq(t.addr, t.proc, false)), left, false)
  }

  /** Between ticks: the count-down runs exactly while a transaction is pending, and memory holds
      that transaction, with the same count-down, exactly while the bus waits for memory (and for
      the one tick it takes to notice a cache-to-cache transfer). */
  ghost predicate InStep(m: Memory, b: Bus) {
    !b.failed &&
    match b.pending
    case None => b.countDown == 0 && IdleMemory(m)
    case Some(t) =>
      t.brt != BusRd && t.brt != Shared &&
      match t.phase
      case WaitingCache =>
        1 <= b.countDown <= CACHE_DELAY && IdleMemory(m) && t == NewTxn(t.brt, WaitingCache, t.addr, t.proc)
      case WaitingMemory =>
        1 <= b.countDown <= DRAM_FETCH_TICKS && Fetching(m, t, b.countDown)
        && t == NewTxn(t.brt, WaitingMemory, t.addr, t.proc)
      case TransferingCache =>
        && 1 <= b.countDown <= CACHE_TRANSFER
        && (if b.countDown == CACHE_TRANSFER then Fetching(m, t, DRAM_FETCH_TICKS) else IdleMemory(m))
        && t == Txn(Data, TransferingCache, t.addr, t.proc, false, true, false)
      case _ => false
  }

  /** Queued transactions look as busReq made them. */
  ghost predicate QueuesOk(b: Bus) {
    && b.lastProc < |b.queues|
    && forall p, i :: 0 <= p < |b.queues| && 0 <= i < |b.queues[p]| ==>
         var t := b.queues[p][i]; t == NewTxn(t.brt, Queued, t.addr, p) && t.brt != BusRd && t.brt != Shared
  }

  /** No pending transaction: the tick only arbitrates, and what it takes waits for the caches. */
  lemma {:induction false} TickWhenFree(m: Memory, b: Bus)
    requires InStep(m, b) && QueuesOk(b) && b.pending.None?
    ensures Advance(m, b) == (m, Arbitrate(b), NoCall)
    ensures InStep(m, Arbitrate(b)) && QueuesOk(Arbitrate(b))
    ensures Arbitrate(b).pending.None? ==> Arbitrate(b) == b && forall p :: 0 <= p < |b.queues| ==> b.queues[p] == []
  {
    if NextProc(b, 0).None? && |b.queues| > 0 {
      forall p | 0 <= p < |b.queues| ensures b.queues[p] == [] { NoneLeft(b, 0, p); }
    }
  }

  /** Arbitration passes over every queue before it gives up. */
  lemma {:induction false} NoneLeft(b: Bus, i: nat, p: nat)
    requires NextProc(b, i).None? && p < |b.queues| && b.lastProc < |b.queues|
    requires i <= (p - b.lastProc) % |b.queues|
    ensures b.queues[p] == []
    decreases |b.queues| - i
  {
    var n := |b.queues|;
    if i == (p - b.lastProc) % n {
      RoundTrip(p, b.lastProc, n);
    } else {
      NoneLeft(b, i + 1, p);
    }
  }

  lemma {:induction false} RoundTrip(p: nat, last: nat, n: nat)
    requires p < n && last < n
    ensures (p - last) % n == (if p >= last then p - last else p - last + n)
    ensures ((p - last) % n + last) % n == p
  {
    OneWrap(p - last, n);
    OneWrap((p - last) % n + last, n);
  }

  lemma {:induction false} OneWrap(x: int, n: int)
    requires n > 0 && -n <= x < 2 * n
    ensures x % n == (if x < 0 then x + n else if x < n then x else x - n)
  {}

  /** A transaction whose count-down has not run out just counts on, and memory with it. */
  lemma {:induction false} TickCountsDown(m: Memory, b: Bus)
    requires InStep(m, b) && b.pending.Some? && b.countDown > 1
    ensures var (m', b', call) := Advance(m, b);
            && call == NoCall && b' == b.(countDown := b.countDown - 1)
            && InStep(m', b')
  {}

  /** The caches had their time: memory starts, and everybody but the requester snoops a request. */
  lemma {:induction false} TickStartsMemory(m: Memory, b: Bus)
    requires InStep(m, b) && b.pending.Some? && b.pending.value.phase == WaitingCache && b.countDown == 1
    ensures var (m', b', call) := Advance(m, b);
            var t := b.pending.value.(phase := WaitingMemory);
            && b' == b.(pending := Some(t), countDown := DRAM_FETCH_TICKS)
            && Fetching(m', t, DRAM_FETCH_TICKS) && InStep(m', b')
            && call == (if t.brt == Data then NoCall else SnoopOthers(t))
  {}

  /** Memory answers in the very tick in which the bus count-down runs out. */
  lemma {:induction false} TickMemoryDelivers(m: Memory, b: Bus)
    requires InStep(m, b) && b.pending.Some? && b.pending.value.phase == WaitingMemory && b.countDown == 1
    ensures var (m', b', call) := Advance(m, b);
            var t := b.pending.value.(phase := TransferingMemory, dataAvail := true);
            && IdleMemory(m') && b' == b.(pending := Some(t), countDown := 0)
            && call == Deliver(Data, t)
            && InStep(m', AfterDelivery(b'))
  {}

  /** A cache-to-cache transfer ends with memory idle: it never delivers as well. */
  lemma {:induction false} TickCacheDelivers(m: Memory, b: Bus)
    requires InStep(m, b) && b.pending.Some? && b.pending.value.phase == TransferingCache && b.countDown == 1
    ensures var (m', b', call) := Advance(m, b);
            && IdleMemory(m') && b' == b.(countDown := 0)
            && call == Deliver(Data, b.pending.value)
            && InStep(m', AfterDelivery(b'))
  {}
}
