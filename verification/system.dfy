/** n processors over simpleCache, the MI coherence component, the bus and memory: the whole state
    as a value, and one tick of the simulation as a function on it. */
module System {
  import opened Protocol
  import opened Bits
  import opened Bus

  /** A pending or ready request of simpleCache/cache.c. */
  datatype Req = Req(tag: int, addr: Addr, proc: nat)

  datatype Cache = Cache(pend: seq<Req>, ready: seq<Req>, failed: bool)

  /** One trace operation. The branch predictor's verdict is part of the trace. */
  datatype Op = Mem(store: bool, addr: Addr) | Branch(mispredicted: bool) | Alu

  /** The processors: outstanding memory op, branch stall, number of completed memory ops, rest of trace. */
  datatype Procs = Procs(pendingMem: seq<bool>, pendingBranch: seq<nat>, memOpTag: seq<nat>, traces: seq<seq<Op>>)

  /** History: data delivered to a processor, and whether memory supplied it. */
  datatype Delivery = Delivery(addr: Addr, proc: nat, viaMemory: bool)

  /** History: a callback to a processor, and whether the processor recognised the tag. */
  datatype Callback = Callback(proc: nat, tag: int, accepted: bool)

  /** `issued` is history as well: how many bus writes have been sent. */
  datatype Sys = Sys(mem: Memory, bus: Bus, coh: seq<Directory>, cache: Cache, procs: Procs,
                     deliveries: seq<Delivery>, calls: seq<Callback>, issued: nat, blockSize: nat)

  /** The processor counts that coherence accepts; with any other it does not start. */
  ghost predicate CountAccepted(n: nat) { 1 <= n <= 256 }

  /** All per-processor sequences cover n processors. */
  ghost predicate Sized(s: Sys, n: nat) {
    && |s.bus.queues| == |s.coh| == n
    && |s.procs.pendingMem| == |s.procs.pendingBranch| == |s.procs.memOpTag| == |s.procs.traces| == n
  }

  function FindReq(reqs: seq<Req>, p: nat, a: Addr): (r: Option<nat>)
    ensures r.Some? ==> r.value < |reqs| && reqs[r.value].proc == p && reqs[r.value].addr == a
    ensures r.None? ==> forall i :: 0 <= i < |reqs| ==> reqs[i].proc != p || reqs[i].addr != a
  {
    if reqs == [] then None
    else if reqs[0].proc == p && reqs[0].addr == a then Some(0)
    else match FindReq(reqs[1..], p, a)
      case None => None
      case Some(i) => Some(i + 1)
  }

  /** coherCallback of simpleCache: a data event moves the matching request to the ready list. */
  function CoherCallback(c: Cache, act: Action, p: nat, a: Addr): Cache {
    var c' := c.(failed := c.failed || c.pend == []);
    if act != DataRecv then c'
    else match FindReq(c.pend, p, a)
      case None => c'.(failed := true)
      case Some(i) => c'.(pend := c.pend[..i] + c.pend[i + 1..], ready := [c.pend[i]] + c.ready)
  }

  /** busReq of coherence: a snoop, or the delivery of data. */
  function CohRequest(s: Sys, brt: BusType, a: Addr, p: nat): (r: Sys)
    ensures Sized(s, |s.coh|) ==> Sized(r, |s.coh|)
    ensures r.issued == s.issued
  {
    if p >= |s.coh| then s
    else
      var state := GetState(s.coh[p], a);
      var (next, act, sends) := SnoopMI(brt, state);
      s.(bus := if sends then Request(s.bus, Data, a, p) else s.bus,
         coh := s.coh[p := Snooped(s.coh[p], a, next)],
         cache := CoherCallback(s.cache, act, p, a))
  }

  /** The snoop loop, from processor i on. */
  function SnoopFrom(s: Sys, t: Txn, i: nat): (r: Sys)
    ensures Sized(s, |s.coh|) ==> Sized(r, |s.coh|)
    ensures r.issued == s.issued
    decreases |s.coh| - i
  {
    if i >= |s.coh| then s
    else SnoopFrom(if i != t.proc then CohRequest(s, t.brt, t.addr, i) else s, t, i + 1)
  }

  /** One tick of bus and memory, with the calls into coherence and cache. */
  function BusTick(s: Sys): (r: Sys)
    ensures Sized(s, |s.coh|) ==> Sized(r, |s.coh|)
    ensures r.issued == s.issued
  {
    var (m, b, call) := Advance(s.mem, s.bus);
    var s1 := s.(mem := m, bus := b);
    match call
    case NoCall => s1
    case SnoopOthers(t) =>
      var s2 := SnoopFrom(s1, t, 0);
      s2.(bus := AfterSnoops(s2.bus))
    case Deliver(brt, t) =>
      var s2 := CohRequest(s1, brt, t.addr, t.proc);
      s2.(bus := AfterDelivery(s2.bus),
          deliveries := s2.deliveries + [Delivery(t.addr, t.proc, t.phase == TransferingMemory)])
  }

  /** procNum | (baseTag << 8) */
  function MakeTag(p: nat, base: nat): nat { Or(p, 256 * base) }

  /** memOpCallback. */
  function MemOpCallback(s: Sys, p: nat, tag: int): (r: Sys)
    ensures Sized(s, |s.coh|) ==> Sized(r, |s.coh|)
    ensures r.issued == s.issued
  {
    if p < |s.procs.memOpTag| && p < |s.procs.pendingMem| && tag / 256 == s.procs.memOpTag[p] then
      s.(procs := s.procs.(memOpTag := s.procs.memOpTag[p := s.procs.memOpTag[p] + 1],
                           pendingMem := s.procs.pendingMem[p := false]),
         calls := s.calls + [Callback(p, tag, true)])
    else s.(calls := s.calls + [Callback(p, tag, false)])
  }

  /** The callbacks for the ready list, in list order. */
  function Drain(s: Sys): (r: Sys)
    ensures Sized(s, |s.coh|) ==> Sized(r, |s.coh|)
    ensures r.issued == s.issued
    decreases |s.cache.ready|
  {
    if s.cache.ready == [] then s
    else
      var r := s.cache.ready[0];
      Drain(MemOpCallback(s.(cache := s.cache.(ready := s.cache.ready[1..])), r.proc, r.tag))
  }

  function CacheTick(s: Sys): (r: Sys)
    ensures Sized(s, |s.coh|) ==> Sized(r, |s.coh|)
    ensures r.issued == s.issued
  {
    Drain(BusTick(s))
  }

  /** permReq of coherence: the state after it and whether permission is there now. */
  function PermReq(s: Sys, a: Addr, p: nat): (r: (Sys, bool))
    requires p < |s.coh|
    ensures Sized(s, |s.coh|) ==> Sized(r.0, |s.coh|)
  {
    var (next, perm, sends) := CacheMI(GetState(s.coh[p], a));
    (s.(bus := if sends then Request(s.bus, BusWr, a, p) else s.bus, coh := s.coh[p := s.coh[p][a := next]],
         issued := s.issued + if sends then 1 else 0), perm)
  }

  function Block(blockSize: nat, a: Addr): Addr {
    if blockSize == 0 then a else a - a % blockSize
  }

  /** memoryRequest of simpleCache. */
  function MemoryRequest(s: Sys, a: Addr, p: nat, tag: int): (r: Sys)
    requires p < |s.coh|
    ensures Sized(s, |s.coh|) ==> Sized(r, |s.coh|)
  {
    var addr := Block(s.blockSize, a);
    var (s', perm) := PermReq(s, addr, p);
    var r := Req(tag, addr, p);
    s'.(cache := if perm then s'.cache.(ready := [r] + s'.cache.ready) else s'.cache.(pend := [r] + s'.cache.pend))
  }

  /** Processor i's part of a tick, and whether it makes progress. */
  function Issue(s: Sys, i: nat): (r: (Sys, bool))
    requires Sized(s, |s.coh|) && i < |s.coh|
    ensures Sized(r.0, |s.coh|)
  {
    var p := s.procs;
    if p.pendingMem[i] then (s, true)
    else if p.pendingBranch[i] > 0 then
      (s.(procs := p.(pendingBranch := p.pendingBranch[i := p.pendingBranch[i] - 1])), true)
    else if p.traces[i] == [] then (s, false)
    else
      var op := p.traces[i][0];
      var p' := p.(traces := p.traces[i := p.traces[i][1..]]);
      match op
      case Mem(_, a) =>
        (MemoryRequest(s.(procs := p'.(pendingMem := p'.pendingMem[i := true])), a, i, MakeTag(i, p.memOpTag[i])), true)
      case Branch(mispredicted) =>
        (s.(procs := p'.(pendingBranch := p'.pendingBranch[i := if mispredicted then 1 else 0])), true)
      case Alu => (s.(procs := p'), true)
  }

  function IssueFrom(s: Sys, i: nat, progress: bool): (r: (Sys, bool))
    requires Sized(s, |s.coh|)
    ensures Sized(r.0, |s.coh|)
    decreases |s.coh| - i
  {
    if i >= |s.coh| then (s, progress)
    else
      var (s', more) := Issue(s, i);
      IssueFrom(s', i + 1, progress || more)
  }

  /** One tick of the whole simulation; false when nothing is left to do. */
  function Tick(s: Sys): (r: (Sys, bool))
    requires Sized(s, |s.coh|)
    ensures Sized(r.0, |s.coh|)
  {
    IssueFrom(CacheTick(s), 0, false)
  }

  function Initial(traces: seq<seq<Op>>, blockSize: nat): Sys {
    var n := |traces|;
    Sys(Memory(None, 0, false),
        Bus(None, seq(n, _ => []), 0, 0, false),
        seq(n, _ => map[]),
        Cache([], [], false),
        Procs(seq(n, _ => false), seq(n, _ => 0), seq(n, _ => 0), traces),
        [], [], 0, blockSize)
  }

  /** The state after k ticks. */
  ghost function After(s: Sys, k: nat): (r: Sys)
    requires Sized(s, |s.coh|)
    ensures Sized(r, |s.coh|)
    decreases k
  {
    if k == 0 then s else After(Tick(s).0, k - 1)
  }
}
