/** The bus of interconnect/interconnect.c (one pending slot, a queue per processor, round-robin
    arbitration, a count-down) and the memory of memory/memory.c, as values. An assertion of the
    source that fails sets `failed`. */
module Bus {
  import opened Protocol

  const CACHE_DELAY := 10
  const CACHE_TRANSFER := 10
  const DRAM_FETCH_TICKS := 90

  datatype Phase = Queued | WaitingCache | WaitingMemory | TransferingCache | TransferingMemory

  datatype Txn = Txn(brt: BusType, phase: Phase, addr: Addr, proc: nat, shared: bool, data: bool, dataAvail: bool)

  datatype Bus = Bus(pending: Option<Txn>, queues: seq<seq<Txn>>, countDown: int, lastProc: nat, failed: bool)

  datatype MemReq = MemReq(addr: Addr, proc: nat, squelch: bool)

  datatype Memory = Memory(pending: Option<MemReq>, countDown: int, failed: bool)

  function NewTxn(brt: BusType, phase: Phase, a: Addr, p: nat): Txn {
    Txn(brt, phase, a, p, false, false, false)
  }

  /** busReq of the interconnect. */
  function Request(b: Bus, brt: BusType, a: Addr, p: nat): (r: Bus)
    ensures |r.queues| == |b.queues|
  {
    if b.pending.None? then
      b.(pending := Some(NewTxn(brt, WaitingCache, a, p)), countDown := CACHE_DELAY,
         failed := b.failed || brt == Shared)
    else
      var t := b.pending.value;
      if brt == Shared && t.addr == a then
        b.(pending := Some(t.(shared := true)))
      else if brt == Data && t.addr == a && t.phase == WaitingMemory then
        b.(pending := Some(t.(data := true, phase := TransferingCache)), countDown := CACHE_TRANSFER)
      else
        Enqueue(b, NewTxn(brt, Queued, a, p)).(failed := b.failed || brt == Shared)
  }

  function Enqueue(b: Bus, t: Txn): Bus {
    if t.proc < |b.queues| then b.(queues := b.queues[t.proc := b.queues[t.proc] + [t]]) else b
  }

  /** memReqCallback. */
  function MemAnswer(b: Bus, p: nat, a: Addr): Bus {
    if b.pending.Some? && b.pending.value.addr == a && b.pending.value.proc == p
    then b.(pending := Some(b.pending.value.(dataAvail := true)))
    else b
  }

  /** busReqCacheTransfer; it asserts a pending transaction. */
  function CacheTransfer(b: Bus, a: Addr, p: nat): bool {
    b.pending.Some? && b.pending.value.addr == a && b.pending.value.proc == p
    && b.pending.value.phase == TransferingCache
  }

  /** busReq of the memory. */
  function Fetch(m: Memory, a: Addr, p: nat): Memory {
    Memory(Some(MemReq(a, p, false)), DRAM_FETCH_TICKS, m.failed || m.pending.Some?)
  }

  /** The count-down part of the memory's tick; a cache-to-cache transfer squelches the answer. */
  function MemCountDown(m: Memory, b: Bus): Memory {
    if m.countDown <= 0 then m
    else if m.pending.None? then m.(failed := true)
    else
      var r := m.pending.value;
      var m' := m.(failed := m.failed || b.pending.None?);
      if CacheTransfer(b, r.addr, r.proc) then m'.(pending := Some(r.(squelch := true)), countDown := 0)
      else m'.(countDown := m.countDown - 1)
  }

  /** The memory's tick. */
  function MemTick(m: Memory, b: Bus): (Memory, Bus) {
    var m' := MemCountDown(m, b);
    if m'.pending.Some? && m'.countDown == 0 then
      var r := m'.pending.value;
      (m'.(pending := None), if r.squelch then b else MemAnswer(b, r.proc, r.addr))
    else (m', b)
  }

  /** The first processor with a queued transaction, from `lastProc` on; i are already passed over. */
  function NextProc(b: Bus, i: nat): (r: Option<nat>)
    ensures r.Some? ==> r.value < |b.queues| && b.queues[r.value] != []
    decreases |b.queues| - i
  {
    if i >= |b.queues| then None
    else
      var pos := (i + b.lastProc) % |b.queues|;
      if b.queues[pos] != [] then Some(pos) else NextProc(b, i + 1)
  }

  /** Round-robin arbitration: the head of the next queue enters the pending slot. */
  function Arbitrate(b: Bus): Bus {
    match NextProc(b, 0)
    case None => b
    case Some(pos) =>
      b.(pending := Some(b.queues[pos][0].(phase := WaitingCache)),
         queues := b.queues[pos := b.queues[pos][1..]],
         countDown := CACHE_DELAY,
         lastProc := (pos + 1) % |b.queues|)
  }

  /** The call up into coherence that a bus tick ends with. */
  datatype Call = NoCall | SnoopOthers(t: Txn) | Deliver(brt: BusType, t: Txn)

  /** The bus's tick up to its calls into coherence: memory first, then the count-down. */
  function Advance(m: Memory, b: Bus): (r: (Memory, Bus, Call))
    ensures |r.1.queues| == |b.queues|
  {
    var (m1, b1) := MemTick(m, b);
    if b1.countDown > 0 then
      if b1.pending.None? then (m1, b1.(failed := true), NoCall)
      else
        var t0 := b1.pending.value;
        var t := if t0.dataAvail then t0.(phase := TransferingMemory) else t0;
        var left := if t0.dataAvail then 0 else b1.countDown - 1;
        var b2 := b1.(pending := Some(t), countDown := left);
        if left != 0 then (m1, b2, NoCall)
        else
          match t.phase
          case WaitingCache =>
            var t' := t.(phase := WaitingMemory);
            (Fetch(m1, t.addr, t.proc), b2.(pending := Some(t'), countDown := DRAM_FETCH_TICKS),
             if t.brt != Data then SnoopOthers(t') else NoCall)
          case TransferingMemory => (m1, b2, Deliver(if t.shared then Shared else Data, t))
          case TransferingCache => (m1, b2, Deliver(if t.shared then Shared else t.brt, t))
          case _ => (m1, b2, NoCall)
    else if b1.countDown == 0 then (m1, Arbitrate(b1), NoCall)
    else (m1, b1, NoCall)
  }

  /** After the snoop loop: a transaction that a cache answered goes on as DATA. */
  function AfterSnoops(b: Bus): Bus {
    if b.pending.Some? && b.pending.value.data then b.(pending := Some(b.pending.value.(brt := Data))) else b
  }

  /** After a delivery the pending slot is free. */
  function AfterDelivery(b: Bus): Bus { b.(pending := None) }
}
