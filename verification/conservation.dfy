/** Nothing on the bus is lost or doubled: in every run of n processors, the bus writes sent are those
    delivered, the pending one and the queued ones. */
module Conservation {
  import opened Protocol
  import opened Bus
  import opened Lockstep
  import opened System
  import opened Ownership
  import opened Processors
  import opened Progress

  /** Transactions pending or queued. */
  ghost function Carried(b: Bus): nat {
    Sum(Lengths(b.queues)) + if b.pending.Some? then 1 else 0
  }

  ghost predicate Conserved(s: Sys) {
    s.issued == |s.deliveries| + Carried(s.bus)
  }

  lemma {:induction false} BusTickConserves(s: Sys)
    requires Core(s) && Conserved(s)
    ensures Conserved(BusTick(s))
  {
    BusTickCases(s);
    if s.bus.pending.None? {
      TickWhenFree(s.mem, s.bus);
      if NextProc(s.bus, 0).Some? {
        var pos := NextProc(s.bus, 0).value;
        LengthsUpdate(s.bus.queues, pos, s.bus.queues[pos][1..]);
      }
    }
  }

  lemma {:induction false} IssueConserves(s: Sys, goal: seq<nat>, i: nat)
    requires Inv(s, goal) && i < |s.coh| && Conserved(s)
    ensures Conserved(Issue(s, i).0)
  {
    var p := s.procs;
    if !p.pendingMem[i] && p.pendingBranch[i] == 0 && p.traces[i] != [] && p.traces[i][0].Mem? {
      var a := p.traces[i][0].addr;
      RequestCases(s, goal, a, i, MakeTag(i, p.memOpTag[i]));
      if s.bus.pending.Some? {
        LengthsUpdate(s.bus.queues, i, s.bus.queues[i] + [NewTxn(BusWr, Queued, Block(s.blockSize, a), i)]);
      }
    }
  }

  lemma {:induction false} IssueFromConserves(s: Sys, goal: seq<nat>, i: nat, progress: bool)
    requires Inv(s, goal) && Conserved(s)
    ensures Conserved(IssueFrom(s, i, progress).0)
    decreases |s.coh| - i
  {
    if i < |s.coh| {
      IssueKept(s, goal, i);
      IssueConserves(s, goal, i);
      var (s', more) := Issue(s, i);
      IssueFromConserves(s', goal, i + 1, progress || more);
    }
  }

  lemma {:induction false} TickConserves(s: Sys, goal: seq<nat>)
    requires Inv(s, goal) && Conserved(s)
    ensures Conserved(Tick(s).0)
  {
    BusTickConserves(s);
    BusTickKept(s, goal);
    DrainKeepsBus(BusTick(s));
    DrainKept(BusTick(s), goal);
    IssueFromConserves(CacheTick(s), goal, 0, false);
  }

  lemma {:induction false} ConservedAfter(traces: seq<seq<Op>>, blockSize: nat, k: nat) returns (s: Sys)
    requires CountAccepted(|traces|)
    ensures s == After(Initial(traces, blockSize), k) && Inv(s, Goals(traces)) && Conserved(s)
    decreases k
  {
    hide Tick;
    if k == 0 {
      s := Initial(traces, blockSize);
      InitialInv(traces, blockSize);
      ZeroSum(Lengths(s.bus.queues));
    } else {
      hide Inv, Conserved;
      var s0 := ConservedAfter(traces, blockSize, k - 1);
      TickConserves(s0, Goals(traces));
      TickKept(s0, Goals(traces));
      s := Tick(s0).0;
      OneMoreTick(Initial(traces, blockSize), k - 1);
    }
  }

  /** Sent equals delivered plus pending plus queued, in every state that any run reaches. */
  lemma {:induction false} TransactionsConserved(traces: seq<seq<Op>>, blockSize: nat, k: nat)
    requires CountAccepted(|traces|)
    ensures var s := After(Initial(traces, blockSize), k);
            s.issued == |s.deliveries| + Sum(Lengths(s.bus.queues)) + if s.bus.pending.Some? then 1 else 0
  {
    var s := ConservedAfter(traces, blockSize, k);
  }

  lemma {:induction false} OneMoreTick(s: Sys, k: nat)
    requires Sized(s, |s.coh|)
    ensures After(s, k + 1) == Tick(After(s, k)).0 && Sized(After(s, k), |After(s, k).coh|)
    decreases k
  {
    hide Tick;
    if k > 0 { OneMoreTick(Tick(s).0, k - 1); }
  }
}
