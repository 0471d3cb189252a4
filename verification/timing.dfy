/** How many ticks a simulation takes: exactly, for one processor; and for each of n processors, what a
    branch costs. */
module Timing {
  import opened Protocol
  import opened Bus
  import opened Lockstep
  import opened System
  import opened Ownership
  import opened Processors
  import opened Progress

  ghost function Mispredictions(trace: seq<Op>): nat {
    if trace == [] then 0
    else (if trace[0] == Branch(true) then 1 else 0) + Mispredictions(trace[1..])
  }

  /** The numbers of the blocks that a trace touches. */
  ghost function BlocksOf(trace: seq<Op>, blockSize: nat): set<int>
    requires blockSize >= 1
  {
    set i | 0 <= i < |trace| && trace[i].Mem? :: trace[i].addr / blockSize
  }

  /** The numbers of the blocks that a directory holds or awaits. */
  ghost function Have(d: Directory, blockSize: nat): set<int>
    requires blockSize >= 1
  {
    set a | a in d :: a / blockSize
  }

  /** The first address of the block that contains a. */
  lemma {:induction false} BlockCovers(blockSize: nat, a: Addr)
    requires blockSize >= 1
    ensures var x := Block(blockSize, a);
            x % blockSize == 0 && x <= a < x + blockSize && x / blockSize == a / blockSize
  {
    var n, q, r := blockSize as int, a / blockSize, a % blockSize;
    assert a == q * n + r;
    Multiple(q, n);
  }

  lemma {:induction false} Multiple(q: int, n: int)
    requires n >= 1
    ensures (q * n) % n == 0 && (q * n) / n == q
  {
    var x := q * n;
    assert x == (x / n) * n + x % n;
    var d := q - x / n;
    assert d * n == x % n;
    TimesGrows(d, n);
  }

  lemma {:induction false} TimesGrows(d: int, n: int)
    requires n >= 1
    ensures d >= 1 ==> d * n >= n
    ensures d <= -1 ==> d * n <= -n
  {}

  /** Two first addresses of blocks with the same number are the same. */
  lemma {:induction false} SameNumber(n: nat, x: int, y: int)
    requires n >= 1 && x % n == 0 && y % n == 0 && x / n == y / n
    ensures x == y
  {
    assert x == (x / n) * n && y == (y / n) * n;
  }

  lemma {:induction false} KnownBlock(d: Directory, n: nat, a: Addr)
    requires n >= 1 && Aligned(d, n)
    ensures Block(n, a) in d <==> a / n in Have(d, n)
  {
    BlockCovers(n, a);
    if a / n in Have(d, n) {
      var y :| y in d && y / n == a / n;
      SameNumber(n, Block(n, a), y);
    }
  }

  ghost predicate Aligned(d: Directory, n: nat)
    requires n >= 1
  {
    forall a :: a in d ==> a % n == 0
  }

  /* One processor. */

  ghost predicate Single(s: Sys, goal: seq<nat>) {
    && Inv(s, goal) && |s.coh| == 1 && s.blockSize >= 1 && Aligned(s.coh[0], s.blockSize)
    && (s.procs.pendingMem[0] ==> s.procs.pendingBranch[0] == 0)
    && (s.bus.pending.None? ==> s.bus.queues[0] == [])
  }

  /** Ticks before the next operation can be taken from the trace. */
  ghost function Wait(s: Sys, goal: seq<nat>): nat
    requires Single(s, goal)
  {
    if !s.procs.pendingMem[0] then s.procs.pendingBranch[0]
    else if s.bus.pending.None? then 0
    else Remaining(s) - 1
  }

  /** The blocks still to be fetched. */
  ghost function Fetches(s: Sys): set<int>
    requires |s.procs.traces| >= 1 && |s.coh| >= 1 && s.blockSize >= 1
  {
    BlocksOf(s.procs.traces[0], s.blockSize) - Have(s.coh[0], s.blockSize)
  }

  /** Ticks before the first one without progress: one for every operation, one more for every
      mispredicted branch, 99 more for every block that has to be fetched. */
  ghost function Left(s: Sys, goal: seq<nat>): nat
    requires Single(s, goal)
  {
    Wait(s, goal) + |s.procs.traces[0]| + Mispredictions(s.procs.traces[0]) + 99 * |Fetches(s)|
  }

  /** The processor can take an operation. */
  ghost predicate Free(s: Sys, goal: seq<nat>) {
    Single(s, goal) && !s.procs.pendingMem[0] && s.cache.ready == [] && s.bus.pending.None?
  }

  lemma {:induction false} NextBlocks(trace: seq<Op>, n: nat)
    requires n >= 1 && trace != []
    ensures BlocksOf(trace, n) == BlocksOf(trace[1..], n) + if trace[0].Mem? then {trace[0].addr / n} else {}
  {
    var rest := trace[1..];
    forall b | b in BlocksOf(trace, n) && !(trace[0].Mem? && b == trace[0].addr / n) ensures b in BlocksOf(rest, n) {
      var i :| 0 <= i < |trace| && trace[i].Mem? && trace[i].addr / n == b;
      assert rest[i - 1] == trace[i];
    }
    forall b | b in BlocksOf(rest, n) ensures b in BlocksOf(trace, n) {
      var i :| 0 <= i < |rest| && rest[i].Mem? && rest[i].addr / n == b;
      assert trace[i + 1] == rest[i];
    }
  }

  ghost predicate OneLess(s: Sys, s': Sys, more: bool, goal: seq<nat>) {
    && Single(s, goal) && Single(s', goal)
    && (if Left(s, goal) == 0 then !more && s'.issued == s.issued else more && Left(s', goal) == Left(s, goal) - 1)
    && s'.issued + |Fetches(s')| == s.issued + |Fetches(s)|
  }

  lemma {:induction false} Basics(s: Sys, goal: seq<nat>)
    requires Inv(s, goal)
    ensures Sized(s, |s.coh|) && |goal| == |s.coh| && InStep(s.mem, s.bus) && Owned(s.bus, s.coh)
  {}

  lemma {:induction false} HaveGrows(d: Directory, n: nat, x: Addr, st: CohState)
    requires n >= 1
    ensures Have(d[x := st], n) == Have(d, n) + {x / n}
  {
    var d' := d[x := st];
    forall b | b in Have(d, n) + {x / n} ensures b in Have(d', n) {
      if b == x / n {
        assert x in d';
      } else {
        var y :| y in d && y / n == b;
        assert y in d';
      }
    }
  }

  /** A free processor's operation costs what Left says. */
  lemma {:induction false} IssueCosts(s: Sys, goal: seq<nat>)
    requires Free(s, goal)
    ensures var (s', more) := Issue(s, 0); OneLess(s, s', more, goal)
  {
    hide Inv, MemoryRequest, Have, BlocksOf;
    IssueKept(s, goal, 0);
    Basics(s, goal);
    var p, s' := s.procs, Issue(s, 0).0;
    if p.pendingBranch[0] == 0 && p.traces[0] != [] {
      NextBlocks(p.traces[0], s.blockSize);
      if p.traces[0][0].Mem? {
        MemCosts(s, goal);
      } else {
        assert Fetches(s') == Fetches(s);
      }
    } else {
      assert Fetches(s') == Fetches(s);
      NoBlocks(s.blockSize);
    }
  }

  lemma {:induction false} NoBlocks(n: nat)
    requires n >= 1
    ensures BlocksOf([], n) == {}
  {}

  lemma {:induction false} MemCosts(s: Sys, goal: seq<nat>)
    requires Free(s, goal) && s.procs.pendingBranch[0] == 0
    requires s.procs.traces[0] != [] && s.procs.traces[0][0].Mem?
    ensures var (s', more) := Issue(s, 0); OneLess(s, s', more, goal)
  {
    hide Inv, MakeTag, Block, Have, BlocksOf, HasOwner, OneLess;
    Basics(s, goal);
    if St(s.coh, 0, Block(s.blockSize, s.procs.traces[0][0].addr)) == Modified {
      HitCosts(s, goal);
    } else {
      MissCosts(s, goal);
    }
  }

  lemma {:induction false} HitCosts(s: Sys, goal: seq<nat>)
    requires Free(s, goal) && s.procs.pendingBranch[0] == 0
    requires s.procs.traces[0] != [] && s.procs.traces[0][0].Mem?
    requires St(s.coh, 0, Block(s.blockSize, s.procs.traces[0][0].addr)) == Modified
    ensures var (s', more) := Issue(s, 0); OneLess(s, s', more, goal)
  {
    hide Inv, MakeTag, Block, Have, BlocksOf, HasOwner;
    IssueKept(s, goal, 0);
    IssueIs(s, goal, 0);
    Basics(s, goal);
    NextBlocks(s.procs.traces[0], s.blockSize);
    KnownBlock(s.coh[0], s.blockSize, s.procs.traces[0][0].addr);
    assert Fetches(Issue(s, 0).0) == Fetches(s);
  }

  lemma {:induction false} MissCosts(s: Sys, goal: seq<nat>)
    requires Free(s, goal) && s.procs.pendingBranch[0] == 0
    requires s.procs.traces[0] != [] && s.procs.traces[0][0].Mem?
    requires St(s.coh, 0, Block(s.blockSize, s.procs.traces[0][0].addr)) != Modified
    ensures var (s', more) := Issue(s, 0); OneLess(s, s', more, goal)
  {
    hide Inv, MakeTag, Block, Have, BlocksOf, HasOwner;
    IssueKept(s, goal, 0);
    IssueIs(s, goal, 0);
    Basics(s, goal);
    NextBlocks(s.procs.traces[0], s.blockSize);
    var a, n, s' := s.procs.traces[0][0].addr, s.blockSize, Issue(s, 0).0;
    var x := Block(n, a);
    Basics(s', goal);
    KnownBlock(s.coh[0], n, a);
    BlockCovers(n, a);
    IdleHasNothing(s, goal, 0);
    assert x !in s.coh[0];
    HaveGrows(s.coh[0], n, x, InvalidModified);
    assert Fetches(s) == Fetches(s') + {a / n};
    NoOwner(s', x);
  }

  lemma {:induction false} NoOwner(s: Sys, x: Addr)
    requires |s.coh| == 1 && St(s.coh, 0, x) != Modified
    ensures !HasOwner(s.coh, x)
  {}

  lemma {:induction false} QuietMeansFree(s: Sys, goal: seq<nat>)
    requires Inv(s, goal) && |s.coh| == 1 && s.cache.ready == [] && s.bus.pending.None? && s.bus.queues[0] == []
    ensures !s.procs.pendingMem[0]
  {
    assert s.procs.pendingMem[0] ==> InList(s.cache.pend, 0);
  }

  /** With its write on the bus the processor has nothing in the ready list. */
  lemma {:induction false} NothingReady(s: Sys, goal: seq<nat>)
    requires Inv(s, goal) && |s.coh| == 1 && s.bus.pending.Some?
    ensures s.cache.ready == [] && s.procs.pendingMem[0]
    ensures !HasOwner(s.coh, s.bus.pending.value.addr)
  {
    RequesterWaits(s);
    assert InList(s.cache.pend, 0);
    assert s.cache.ready != [] ==> s.cache.ready[0].proc == 0;
  }

  /** A delivery leaves the set of blocks held or awaited as it is. */
  lemma {:induction false} BusKeepsBlocks(s: Sys, goal: seq<nat>)
    requires Inv(s, goal) && |s.coh| == 1
    ensures var s' := BusTick(s);
            && s'.coh[0].Keys == s.coh[0].Keys && s'.blockSize == s.blockSize && s'.procs == s.procs
            && (s.bus.pending.None? && s.bus.queues[0] == [] ==> s'.bus == s.bus)
            && (s.bus.pending.Some? ==> s'.bus.queues == s.bus.queues && s.bus.queues[0] == [])
            && (s.bus.pending.Some? && Remaining(s) == 1 ==> s'.bus.pending.None?)
            && (s.bus.pending.Some? && Remaining(s) > 1 ==> s'.cache == s.cache && s'.bus.pending.Some?)
  {
    hide FindReq, BusTick, QueuesOk, Waits, Owned;
    BusTickCases(s);
    if s.bus.pending.Some? {
      NothingReady(s, goal);
      RequesterWaits(s);
    } else {
      TickWhenFree(s.mem, s.bus);
    }
  }

  lemma {:induction false} SameKeys(d: Directory, d': Directory, n: nat)
    requires n >= 1 && d.Keys == d'.Keys
    ensures Have(d, n) == Have(d', n) && (Aligned(d, n) <==> Aligned(d', n))
  {}

  /** Unless a fetch goes on, the cache's part of a tick leaves the processor free. */
  lemma {:induction false} TickFrees(s: Sys, goal: seq<nat>)
    requires Single(s, goal) && (s.bus.pending.Some? ==> Remaining(s) <= 1)
    ensures var c := CacheTick(s);
            && Free(c, goal) && c.procs.traces == s.procs.traces && c.procs.pendingBranch == s.procs.pendingBranch
            && Fetches(c) == Fetches(s) && c.issued == s.issued && Wait(s, goal) == s.procs.pendingBranch[0]
            && c.blockSize == s.blockSize
  {
    hide Inv, Have, BlocksOf, BusTick, Drain;
    var s1, c := BusTick(s), CacheTick(s);
    BusTickKept(s, goal);
    BusKeepsBlocks(s, goal);
    DrainKept(s1, goal);
    DrainKeepsBus(s1);
    Basics(s, goal);
    Basics(c, goal);
    SameKeys(s.coh[0], c.coh[0], s.blockSize);
    QuietMeansFree(c, goal);
  }

  lemma {:induction false} OneIssue(c: Sys)
    requires Sized(c, 1) && |c.coh| == 1
    ensures IssueFrom(c, 0, false) == Issue(c, 0)
  {
    var (s', more) := Issue(c, 0);
    assert IssueFrom(s', 1, more) == (s', more);
  }

  lemma {:induction false} TickWaits(s: Sys, goal: seq<nat>)
    requires Single(s, goal) && s.bus.pending.Some? && Remaining(s) > 1
    ensures var (s', more) := Tick(s); OneLess(s, s', more, goal)
  {
    hide Inv, Have, BlocksOf, BusTick, HasOwner, Advance;
    var s1 := BusTick(s);
    NothingReady(s, goal);
    BusKeepsBlocks(s, goal);
    OneTickCloser(s, goal);
    Basics(s, goal);
    Basics(Tick(s).0, goal);
    SameKeys(s.coh[0], s1.coh[0], s.blockSize);
    assert CacheTick(s) == s1;
    OneIssue(s1);
    assert Fetches(s1) == Fetches(s);
  }

  lemma {:induction false} TickCosts(s: Sys, goal: seq<nat>)
    requires Single(s, goal)
    ensures var (s', more) := Tick(s); OneLess(s, s', more, goal)
  {
    hide Inv, Have, BlocksOf, BusTick, Drain, Issue;
    Basics(s, goal);
    if s.bus.pending.Some? && Remaining(s) > 1 {
      TickWaits(s, goal);
    } else {
      TickFrees(s, goal);
      var c := CacheTick(s);
      IssueCosts(c, goal);
      assert Left(c, goal) == Left(s, goal);
      Basics(c, goal);
      OneIssue(c);
    }
  }

  lemma {:induction false} TicksLeft(s: Sys, goal: seq<nat>, j: nat)
    requires Single(s, goal) && j <= Left(s, goal)
    ensures Tick(After(s, j)).1 <==> j < Left(s, goal)
    ensures Single(After(s, j), goal)
    ensures After(s, j).issued + |Fetches(After(s, j))| == s.issued + |Fetches(s)|
    ensures j == Left(s, goal) ==> Tick(After(s, j)).0.issued == s.issued + |Fetches(s)|
    decreases j
  {
    hide Inv, Tick, Fetches;
    Basics(s, goal);
    TickCosts(s, goal);
    if j > 0 { TicksLeft(Tick(s).0, goal, j - 1); }
  }

  /** For one processor the number of ticks is exact: one for every operation of the trace, one more for
      every mispredicted branch, 99 more for every block that is touched, and the last one, which finds
      nothing to do. One bus write is sent for every block. */
  lemma {:induction false} OneProcessorTicks(trace: seq<Op>, blockSize: nat)
    requires blockSize >= 1
    ensures var s, n := Initial([trace], blockSize),
                        |trace| + Mispredictions(trace) + 99 * |BlocksOf(trace, blockSize)|;
            && !Tick(After(s, n)).1 && (forall j :: 0 <= j < n ==> Tick(After(s, j)).1)
            && Tick(After(s, n)).0.issued == |BlocksOf(trace, blockSize)|
  {
    hide Inv, Tick, Single, Left, Fetches, Have, BlocksOf, Mispredictions, After;
    var s, goal := Initial([trace], blockSize), Goals([trace]);
    var n := |trace| + Mispredictions(trace) + 99 * |BlocksOf(trace, blockSize)|;
    StartCosts(trace, blockSize);
    forall j | 0 <= j <= n ensures Tick(After(s, j)).1 <==> j < n { TicksLeft(s, goal, j); }
    TicksLeft(s, goal, n);
  }

  lemma {:induction false} StartCosts(trace: seq<Op>, blockSize: nat)
    requires blockSize >= 1
    ensures var s, goal := Initial([trace], blockSize), Goals([trace]);
            && Single(s, goal) && Fetches(s) == BlocksOf(trace, blockSize)
            && Left(s, goal) == |trace| + Mispredictions(trace) + 99 * |BlocksOf(trace, blockSize)|
  {
    hide Inv, BlocksOf;
    InitialInv([trace], blockSize);
    NothingHeld(blockSize);
  }

  lemma {:induction false} NothingHeld(n: nat)
    requires n >= 1
    ensures Have(map[], n) == {}
  {}
}
