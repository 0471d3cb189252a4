/** Where teamCache keeps its blocks when the write buffer is off: every block in its own set and in
    one way only, RRIP's values bounded, and under LRU exactly the most recently used blocks. */
module Placement {
  import opened Protocol
  import opened Bits
  import opened Geometry
  import opened Replacement
  import opened Split
  import opened TeamCache
  import opened LruSet
  import opened Requests

  /* What the accesses alone determine. */

  /** The tags of set k, most recently accessed first. */
  ghost function Mru(p: Params, accesses: seq<nat>, k: nat): (t: seq<nat>)
    ensures NoDup(t)
  {
    if accesses == [] then []
    else
      var a, t := accesses[|accesses| - 1], Mru(p, accesses[..|accesses| - 1], k);
      if p.SetIndex(a) == k then UsedNoDup(t, p.TagOf(a)); Used(t, p.TagOf(a)) else t
  }

  /** a is among the E most recently accessed blocks of its set. */
  ghost predicate IsRecent(p: Params, accesses: seq<nat>, a: nat) {
    p.TagOf(a) in Take(Mru(p, accesses, p.SetIndex(a)), p.E)
  }

  /** The accesses that a set-associative LRU cache must hit. */
  ghost function IdealHits(p: Params, accesses: seq<nat>): nat {
    if accesses == [] then 0
    else
      var before, a := accesses[..|accesses| - 1], accesses[|accesses| - 1];
      IdealHits(p, before) + if IsRecent(p, before, a) then 1 else 0
  }

  /** The i-th block that a request touches. */
  function NthBlock(p: Params, op: Access, i: nat): nat { (p.BlockNumber(op.addr) + i) * p.B() }

  ghost function FirstBlocks(p: Params, op: Access, n: nat): seq<nat> {
    seq(n, i requires 0 <= i < n => NthBlock(p, op, i))
  }

  /** The blocks of a list of requests, in order. */
  ghost function AllBlocks(p: Params, hist: seq<Orig>): seq<nat> {
    if hist == [] then []
    else
      var op := hist[|hist| - 1].op;
      AllBlocks(p, hist[..|hist| - 1]) + FirstBlocks(p, op, if InRange(op) then PartCount(p, op) else 0)
  }

  /* One set. */

  /** Tag and set index are those of a 64-bit address. */
  ghost predicate Home(p: Params, tag: nat, k: nat) {
    var a := p.VictimAddress(tag, k);
    a < WORD && p.TagOf(a) == tag && p.SetIndex(a) == k && p.BlockAddress(a) == a
  }

  lemma {:induction false} HomeOf(p: Params, a: nat)
    requires a < WORD
    ensures Home(p, p.TagOf(a), p.SetIndex(a))
  {
    AddressRoundTrip(p, a);
    BlockAddressIs(p, a);
  }

  ghost predicate SetOk(p: Params, lines: seq<Line>, k: nat) {
    && Unique(lines)
    && (forall w :: 0 <= w < |lines| && lines[w].valid ==> Home(p, lines[w].tag, k))
    && (p.policy == Rrip ==> forall w :: 0 <= w < |lines| ==> lines[w].stamp <= p.RripMax())
  }

  /** Under LRU, the set holds the tags t. */
  ghost predicate Recent(p: Params, lines: seq<Line>, t: seq<nat>, sequence: nat) {
    p.policy == Lru ==> Holds(lines, t, sequence)
  }

  /** What a hit or a fill may write as stamp. */
  ghost predicate StampOk(p: Params, stamp: nat, sequence: nat) {
    if p.policy == Lru then stamp == sequence + 1 else stamp <= p.RripMax()
  }

  lemma {:induction false} HitSet(p: Params, lines: seq<Line>, k: nat, t: seq<nat>, sequence: nat, w: nat, line: Line)
    requires SetOk(p, lines, k) && NoDup(t) && Recent(p, lines, Take(t, p.E), sequence)
    requires w < |lines| && lines[w].valid && line.valid && line.tag == lines[w].tag && StampOk(p, line.stamp, sequence)
    ensures SetOk(p, lines[w := line], k)
    ensures Recent(p, lines[w := line], Take(Used(t, line.tag), p.E), sequence + 1)
    ensures p.policy == Lru ==> line.tag in Take(t, p.E)
  {
    if p.policy == Lru {
      Touched(lines, Take(t, p.E), sequence, w, line);
      UsedWithin(t, p.E, line.tag);
    }
  }

  /** Aging moves no block. */
  lemma {:induction false} AgedSet(p: Params, lines: seq<Line>, k: nat, x: nat)
    requires lines != [] && SetOk(p, lines, k) && p.policy == Rrip
    ensures SetOk(p, Target(p, lines).0, k) && (Held(Target(p, lines).0, x) ==> Held(lines, x))
  {}

  /** A free way leaves room in the list; otherwise the victim is the least recently used block. */
  lemma {:induction false} LruTarget(p: Params, lines: seq<Line>, t: seq<nat>, sequence: nat)
    requires |lines| == p.E >= 1 && p.policy == Lru && Holds(lines, Take(t, p.E), sequence)
    ensures var (r, w) := Target(p, lines);
            && r == lines
            && (!r[w].valid ==> Take(t, p.E - 1) == Take(t, p.E))
            && (r[w].valid ==> |t| >= p.E && r[w].tag == t[p.E - 1])
  {
    CountFull(lines);
    if FirstInvalid(lines).None? {
      VictimIsLast(lines, Take(t, p.E), sequence);
    }
  }

  /** Choosing the target moves no block. */
  lemma {:induction false} TargetSet(p: Params, lines: seq<Line>, k: nat, t: seq<nat>, sequence: nat, x: nat)
    requires |lines| == p.E >= 1 && SetOk(p, lines, k) && Recent(p, lines, Take(t, p.E), sequence)
    ensures var (r, w) := Target(p, lines);
            && SetOk(p, r, k) && Recent(p, r, Take(t, p.E), sequence)
            && (Held(r, x) ==> Held(lines, x))
            && (!r[w].valid ==> Recent(p, r, Take(t, p.E - 1), sequence))
            && (r[w].valid && p.policy == Lru ==> |t| >= p.E && r[w].tag == t[p.E - 1])
  {
    if p.policy == Lru {
      LruTarget(p, lines, t, sequence);
    } else {
      AgedSet(p, lines, k, x);
    }
  }

  lemma {:induction false} DropHome(p: Params, lines: seq<Line>, k: nat, w: nat, x: nat)
    requires SetOk(p, lines, k) && w < |lines|
    ensures var r := lines[w := lines[w].(valid := false)]; SetOk(p, r, k) && (Held(r, x) ==> Held(lines, x))
  {
    hide Home;
    var r := lines[w := lines[w].(valid := false)];
    if Held(r, x) {
      var v :| 0 <= v < |r| && r[v].valid && r[v].tag == x;
      assert lines[v] == r[v];
    }
  }

  lemma {:induction false} DropSet(p: Params, lines: seq<Line>, k: nat, t: seq<nat>, sequence: nat, w: nat, x: nat)
    requires p.E >= 1 && SetOk(p, lines, k) && Recent(p, lines, Take(t, p.E), sequence)
    requires w < |lines| && lines[w].valid && (p.policy == Lru ==> |t| >= p.E && lines[w].tag == t[p.E - 1])
    ensures var r := lines[w := lines[w].(valid := false)];
            && SetOk(p, r, k) && Recent(p, r, Take(t, p.E - 1), sequence)
            && (Held(r, x) ==> Held(lines, x))
  {
    hide SetOk, Held, Holds;
    DropHome(p, lines, k, w, x);
    if p.policy == Lru {
      assert Shortened(Take(t, p.E), Take(t, p.E - 1), p.E - 1);
      Removed(lines, Take(t, p.E), Take(t, p.E - 1), sequence, w, p.E - 1);
    }
  }

  lemma {:induction false} FillSet(p: Params, lines: seq<Line>, k: nat, t: seq<nat>, sequence: nat, w: nat, line: Line)
    requires p.E >= 1 && SetOk(p, lines, k) && NoDup(t) && Recent(p, lines, Take(t, p.E - 1), sequence)
    requires w < |lines| && !lines[w].valid && line.valid && StampOk(p, line.stamp, sequence)
    requires Home(p, line.tag, k) && !Held(lines, line.tag) && (p.policy == Lru ==> line.tag !in Take(t, p.E))
    ensures SetOk(p, lines[w := line], k)
    ensures Recent(p, lines[w := line], Take(Used(t, line.tag), p.E), sequence + 1)
  {
    hide NoDup, Unique, Held, Holds, Home, Take, Used, Params.RripMax;
    HeldOrNot(lines, line.tag);
    PutUnique(lines, w, line);
    if p.policy == Lru {
      ShorterTake(t, p.E, line.tag);
      Put(lines, Take(t, p.E - 1), sequence, w, line);
      UsedBeyond(t, p.E, line.tag);
    }
  }

  lemma {:induction false} HeldOrNot(lines: seq<Line>, x: nat)
    ensures !Held(lines, x) ==> forall v :: 0 <= v < |lines| && lines[v].valid ==> lines[v].tag != x
  {}

  lemma {:induction false} ShorterTake(t: seq<nat>, n: nat, x: nat)
    requires n >= 1 && x !in Take(t, n)
    ensures x !in Take(t, n - 1)
  {
    assert Take(t, n - 1) <= Take(t, n);
  }

  /* The whole cache. */

  ghost predicate Filling(c: Cache, k: nat) {
    c.active.Some? && c.active.value.status == WaitingData && c.active.value.target.Some?
    && c.active.value.target.value.set_ == k
  }

  /** The tags that set k holds under LRU; one way is being refilled while data is awaited. */
  ghost function Contents(c: Cache, k: nat): seq<nat> {
    Take(Mru(c.params, c.accesses, k), if Filling(c, k) && c.params.E >= 1 then c.params.E - 1 else c.params.E)
  }

  ghost predicate Plain(c: Cache) {
    c.params.Valid() && c.params.mode == 0 && Sized(c) && c.buffer.None? && c.failed.None?
  }

  ghost predicate CountsOk(c: Cache) {
    c.params.policy == Lru ==> c.sequence == |c.accesses| && c.hits == IdealHits(c.params, c.accesses)
  }

  ghost predicate SetsOk(c: Cache) {
    forall k :: 0 <= k < |c.sets| ==>
      SetOk(c.params, c.sets[k], k) && Recent(c.params, c.sets[k], Contents(c, k), c.sequence)
  }

  /** The blocks accessed so far: those of the finished requests and n of the started one. */
  ghost predicate Logged(c: Cache, hist: seq<Orig>, n: nat) {
    && |c.calls| + Started(c) <= |hist|
    && c.accesses == AllBlocks(c.params, hist[..|c.calls|])
                     + if c.completion.Some? then FirstBlocks(c.params, hist[|c.calls|].op, n) else []
  }

  ghost function Accessed(c: Cache): nat {
    if c.completion.None? then 0
    else c.completion.value.completed + if c.active.Some? && c.active.value.status == Ready then 1 else 0
  }

  /** A request that waits: its block is in no way of its set, and not among the recent ones; the way
      it will be filled into is free, or holds the victim it names. */
  ghost predicate Awaited(c: Cache, r: Part) {
    var k, x := c.params.SetIndex(r.addr), c.params.TagOf(r.addr);
    && r.addr < WORD && k < |c.sets| && r.target.Some? && r.target.value.set_ == k
    && r.target.value.way < |c.sets[k]| && !Held(c.sets[k], x)
    && (c.params.policy == Lru ==> !IsRecent(c.params, c.accesses, r.addr))
    && var line := c.sets[k][r.target.value.way];
       if r.status == WaitingData then !line.valid
       else line.valid && r.victim == c.params.VictimAddress(line.tag, k) && Oldest(c, k, line.tag)
  }

  ghost predicate Oldest(c: Cache, k: nat, x: nat) {
    var t := Mru(c.params, c.accesses, k);
    c.params.policy == Lru ==> |t| >= c.params.E >= 1 && x == t[c.params.E - 1]
  }

  ghost predicate Placed(c: Cache, hist: seq<Orig>) {
    && Plain(c) && CountsOk(c) && SetsOk(c) && Logged(c, hist, Accessed(c))
    && (c.active.Some? && Waiting(c.active.value) ==> Awaited(c, c.active.value))
  }

  /** As Placed, between two blocks: nothing is being refilled, n blocks of the request are done. */
  ghost predicate Settled(c: Cache, hist: seq<Orig>, n: nat) {
    && Plain(c) && CountsOk(c) && Logged(c, hist, n)
    && forall k :: 0 <= k < |c.sets| ==>
         && SetOk(c.params, c.sets[k], k)
         && Recent(c.params, c.sets[k], Take(Mru(c.params, c.accesses, k), c.params.E), c.sequence)
  }

  ghost predicate PlacedOrFailed(c: Cache, hist: seq<Orig>) {
    c.failed.None? ==> Placed(c, hist)
  }

  /** Passing stamps by keeps a set that is not touched. */
  lemma {:induction false} LaterRecent(p: Params, lines: seq<Line>, t: seq<nat>, sequence: nat)
    requires Recent(p, lines, t, sequence)
    ensures Recent(p, lines, t, sequence + 1)
  {}

  /** One more access: how the histories of the sets change. */
  lemma {:induction false} MruAfter(p: Params, accesses: seq<nat>, a: nat, k: nat)
    ensures Mru(p, accesses + [a], k) ==
            if p.SetIndex(a) == k then Used(Mru(p, accesses, k), p.TagOf(a)) else Mru(p, accesses, k)
    ensures IdealHits(p, accesses + [a]) == IdealHits(p, accesses) + if IsRecent(p, accesses, a) then 1 else 0
  {}

  lemma {:induction false} LoggedAfter(c: Cache, hist: seq<Orig>, n: nat)
    requires Logged(c, hist, n) && c.completion.Some?
    ensures Logged(c.(accesses := c.accesses + [NthBlock(c.params, hist[|c.calls|].op, n)]), hist, n + 1)
  {}

  /** The block of the started request's part n. */
  lemma {:induction false} PartBlock(c: Cache, hist: seq<Orig>, r: Part)
    requires Current(c, hist, r)
    ensures r.addr < WORD
    ensures c.params.BlockAddress(r.addr) == NthBlock(c.params, hist[|c.calls|].op, c.completion.value.completed)
    ensures var a := c.params.BlockAddress(r.addr);
            a <= r.addr && c.params.TagOf(a) == c.params.TagOf(r.addr) && c.params.SetIndex(a) == c.params.SetIndex(r.addr)
    ensures c.params.SetIndex(r.addr) < c.params.S()
  {
    OnePart(c.params, hist[|c.calls|].op, c.completion.value.completed);
    BlockAddressIs(c.params, r.addr);
  }

  /** All sets but k are settled. */
  ghost predicate OthersOk(c: Cache, k: nat) {
    forall j :: 0 <= j < |c.sets| && j != k ==>
      && SetOk(c.params, c.sets[j], j)
      && Recent(c.params, c.sets[j], Take(Mru(c.params, c.accesses, j), c.params.E), c.sequence)
  }

  /** A request that is ready leaves everything settled. */
  lemma {:induction false} ReadyIsSettled(c: Cache, hist: seq<Orig>)
    requires Plain(c) && c.active.Some? && c.active.value.status == Ready && c.completion.Some?
    ensures Placed(c, hist) <==> Settled(c, hist, c.completion.value.completed + 1)
  {}

  /** Set k became `lines` by a hit on block a or its filling: all is settled, one access later. */
  lemma {:induction false} OneMore(c: Cache, c': Cache, hist: seq<Orig>, n: nat, k: nat, a: nat, lines: seq<Line>)
    requires Plain(c) && CountsOk(c) && c.completion.Some? && n == c.completion.value.completed && Logged(c, hist, n)
    requires a == NthBlock(c.params, hist[|c.calls|].op, n) && c.params.SetIndex(a) == k < |c.sets| && OthersOk(c, k)
    requires c'.active.Some? && c'.active.value.status == Ready
    requires c' == c.(sets := c.sets[k := lines], sequence := c'.sequence, active := c'.active,
                      accesses := c.accesses + [a], hits := c'.hits)
    requires |lines| == c.params.E && SetOk(c.params, lines, k)
    requires Recent(c.params, lines, Take(Used(Mru(c.params, c.accesses, k), c.params.TagOf(a)), c.params.E), c.sequence + 1)
    requires c.params.policy == Lru ==>
               && c'.sequence == c.sequence + 1
               && c'.hits == c.hits + if IsRecent(c.params, c.accesses, a) then 1 else 0
    ensures Placed(c', hist)
  {
    hide SetOk, Recent, Mru, IdealHits, IsRecent, FirstBlocks, AllBlocks, Params.TagOf, Params.SetIndex;
    LoggedAfter(c, hist, n);
    MruAfter(c.params, c.accesses, a, k);
    forall j | 0 <= j < |c.sets|
      ensures SetOk(c.params, c'.sets[j], j)
      ensures Recent(c.params, c'.sets[j], Take(Mru(c.params, c'.accesses, j), c.params.E), c'.sequence)
    {
      MruAfter(c.params, c.accesses, a, j);
      if j != k { LaterRecent(c.params, c.sets[j], Take(Mru(c.params, c.accesses, j), c.params.E), c.sequence); }
      if c.params.policy != Lru {
        NotLru(c.params, c'.sets[j], Take(Mru(c.params, c'.accesses, j), c.params.E), c'.sequence);
      }
    }
    assert Settled(c', hist, n + 1);
    ReadyIsSettled(c', hist);
  }

  lemma {:induction false} NotLru(p: Params, lines: seq<Line>, t: seq<nat>, sequence: nat)
    requires p.policy != Lru
    ensures Recent(p, lines, t, sequence)
  {}

  lemma {:induction false} HitPlaced(c: Cache, k: nat, w: nat, r: Part, hist: seq<Orig>)
    requires Current(c, hist, r) && Settled(c, hist, c.completion.value.completed)
    requires k == c.params.SetIndex(r.addr) < |c.sets| && w < |c.sets[k]|
    requires c.sets[k][w].valid && c.sets[k][w].tag == c.params.TagOf(r.addr)
    ensures PlacedOrFailed(Hit(c, Loc(k, w), r), hist)
  {
    hide SetOk, Recent, Home, Mru, Take, Used;
    var c', n := Hit(c, Loc(k, w), r), c.completion.value.completed;
    HitIs(c, Loc(k, w), r);
    if c'.failed.None? {
      var line := Dirtied(c.sets[k][w].(stamp := Stamp(c, false).1), r.kind);
      PartBlock(c, hist, r);
      HitSet(c.params, c.sets[k], k, Mru(c.params, c.accesses, k), c.sequence, w, line);
      OneMore(c, c', hist, n, k, c.params.BlockAddress(r.addr), c.sets[k][w := line]);
    }
  }

  /** The set k and the request r that a miss may leave behind. */
  ghost predicate WaitOk(c: Cache, k: nat, lines: seq<Line>, r: Part) {
    && |lines| == c.params.E >= 1 && SetOk(c.params, lines, k) && Waiting(r)
    && r.addr < WORD && k == c.params.SetIndex(r.addr) && !Held(lines, c.params.TagOf(r.addr))
    && (c.params.policy == Lru ==> !IsRecent(c.params, c.accesses, r.addr))
    && r.target.Some? && r.target.value.set_ == k && r.target.value.way < |lines|
    && var line := lines[r.target.value.way];
       if r.status == WaitingData then
         !line.valid && Recent(c.params, lines, Take(Mru(c.params, c.accesses, k), c.params.E - 1), c.sequence)
       else
         && line.valid && r.victim == c.params.VictimAddress(line.tag, k) && Oldest(c, k, line.tag)
         && Recent(c.params, lines, Take(Mru(c.params, c.accesses, k), c.params.E), c.sequence)
  }

  lemma {:induction false} WaitPlaced(c: Cache, c': Cache, hist: seq<Orig>, k: nat, lines: seq<Line>, r: Part)
    requires c.completion.Some? && Settled(c, hist, c.completion.value.completed)
    requires k < |c.sets| && c' == c.(sets := c.sets[k := lines], active := Some(r), lower := c'.lower)
    requires WaitOk(c, k, lines, r)
    ensures Placed(c', hist)
  {
    hide Home, Holds, Mru, Take, Params.VictimAddress, Params.TagOf, Params.SetIndex;
  }

  /** What lookup does not find in a set is not among its recent blocks. */
  lemma {:induction false} NotFound(c: Cache, a: nat)
    requires var k := c.params.SetIndex(a);
             && k < |c.sets| && FindWay(c.sets[k], c.params.TagOf(a)).None?
             && Recent(c.params, c.sets[k], Take(Mru(c.params, c.accesses, k), c.params.E), c.sequence)
    ensures !Held(c.sets[c.params.SetIndex(a)], c.params.TagOf(a))
    ensures c.params.policy == Lru ==> !IsRecent(c.params, c.accesses, a)
  {}

  /** What a miss leaves of its set, and what it makes its request wait for. */
  lemma {:induction false} MissedOk(c: Cache, view: View, r: Part, k: nat)
    requires Plain(c) && r.addr < WORD && k == c.params.SetIndex(r.addr) < |c.sets| && SetOk(c.params, c.sets[k], k)
    requires !Held(c.sets[k], c.params.TagOf(r.addr)) && (c.params.policy == Lru ==> !IsRecent(c.params, c.accesses, r.addr))
    requires Recent(c.params, c.sets[k], Take(Mru(c.params, c.accesses, k), c.params.E), c.sequence)
    ensures WaitOk(c, k, Missed(c, view, r).0, Missed(c, view, r).1)
  {
    hide Home, Holds;
    var t := Mru(c.params, c.accesses, k);
    var (lines, way) := Target(c.params, c.sets[k]);
    TargetSet(c.params, c.sets[k], k, t, c.sequence, c.params.TagOf(r.addr));
    var (lines', r') := Missed(c, view, r);
    if !lines[way].valid {
      assert WaitOk(c, k, lines', r');
    } else if r'.status == WaitingEviction {
      assert WaitOk(c, k, lines', r');
    } else {
      DropSet(c.params, lines, k, t, c.sequence, way, c.params.TagOf(r.addr));
      assert WaitOk(c, k, lines', r');
    }
  }

  /** Starting a miss. */
  lemma {:induction false} MissPlaced(c: Cache, view: View, r: Part, hist: seq<Orig>)
    requires Current(c, hist, r) && Settled(c, hist, c.completion.value.completed)
    requires var k := c.params.SetIndex(r.addr); k < |c.sets| && FindWay(c.sets[k], c.params.TagOf(r.addr)).None?
    ensures PlacedOrFailed(StartMiss(c, view, r), hist)
  {
    var k, c' := c.params.SetIndex(r.addr), StartMiss(c, view, r);
    var (lines, r') := Missed(c, view, r);
    PartBlock(c, hist, r);
    NotFound(c, r.addr);
    MissedOk(c, view, r, k);
    EvictThenFetchIs(c, view, false, r);
    if c'.failed.None? {
      WaitPlaced(c, c', hist, k, lines, r');
    }
  }

  lemma {:induction false} NextBlockPlaced(c: Cache, view: View, hist: seq<Orig>)
    requires NextBlock(c, hist) && Settled(c, hist, c.completion.value.completed)
    ensures PlacedOrFailed(StartNextBlock(c, view), hist)
  {
    var r := c.queue[0].(status := WaitingData);
    var c1 := c.(queue := c.queue[1..], active := Some(r));
    assert Current(c1, hist, r);
    assert Settled(c1, hist, c.completion.value.completed);
    var k := c.params.SetIndex(r.addr);
    match FindWay(SetAt(c, k), c.params.TagOf(r.addr))
    case Some(way) => HitPlaced(c1, k, way, r, hist);
    case None => MissPlaced(c1, view, r, hist);
  }

  lemma {:induction false} NextRequestPlaced(c: Cache, view: View, hist: seq<Orig>)
    requires Structure(c, hist) && Placed(c, hist)
    ensures PlacedOrFailed(StartNextRequest(c, view), hist)
  {
    if Idle(c) && c.arrivals != [] {
      var o := c.arrivals[0];
      var c1 := Prepare(c.(arrivals := c.arrivals[1..]), o);
      assert hist[|c.calls|] == o;
      if InRange(o.op) {
        assert NextBlock(c1, hist);
        assert Settled(c1, hist, 0);
        NextBlockPlaced(c1, view, hist);
      }
    }
  }

  /** The last block of a request: its blocks join those of the finished requests. */
  lemma {:induction false} LoggedDone(c: Cache, hist: seq<Orig>, d: Done)
    requires c.completion.Some? && |c.calls| < |hist| && InRange(hist[|c.calls|].op)
    requires Logged(c, hist, PartCount(c.params, hist[|c.calls|].op))
    ensures Logged(c.(completion := None, active := None, calls := c.calls + [d]), hist, 0)
  {
    assert hist[..|c.calls| + 1][..|c.calls|] == hist[..|c.calls|];
  }

  lemma {:induction false} RetirePlaced(c: Cache, view: View, hist: seq<Orig>)
    requires Structure(c, hist) && Placed(c, hist) && c.active.Some? && c.active.value.status == Ready
    ensures PlacedOrFailed(Retire(c, view, c.active.value), hist)
  {
    hide SetOk, Recent, CompleteOne, Params.VictimAddress;
    var r := c.active.value;
    var c0 := c.(active := None);
    assert Current(c0, hist, r);
    CompleteOneKept(c0, r, hist);
    var (c1, done) := CompleteOne(c0, r);
    if done {
      LoggedDone(c, hist, Done(r.proc, r.tag));
    } else {
      assert NextBlock(c1, hist);
      assert Settled(c1, hist, c1.completion.value.completed);
      NextBlockPlaced(c1, view, hist);
    }
  }

  lemma {:induction false} TickPlaced(c: Cache, view: View, hist: seq<Orig>)
    requires Structure(c, hist) && Placed(c, hist)
    ensures PlacedOrFailed(AccessTick(c, view), hist)
  {
    if c.active.Some? && c.active.value.status == Ready {
      RetirePlaced(c, view, hist);
    } else {
      NextRequestPlaced(c, view, hist);
    }
  }

  /** The flush is done: the victim's way is free. */
  lemma {:induction false} FlushPlaced(c: Cache, view: View, hist: seq<Orig>)
    requires Placed(c, hist) && c.active.Some? && c.active.value.status == WaitingEviction && c.completion.Some?
    ensures var r := c.active.value;
            EvictionComplete(c, r).failed.None? && PlacedOrFailed(Fetch(EvictionComplete(c, r), view, false, r), hist)
  {
    hide Home, Holds, SetOk, Mru, Take, Params.TagOf, Params.SetIndex, Params.VictimAddress;
    var r := c.active.value;
    var k, w := r.target.value.set_, r.target.value.way;
    var lines := c.sets[k][w := c.sets[k][w].(valid := false)];
    DropSet(c.params, c.sets[k], k, Mru(c.params, c.accesses, k), c.sequence, w, c.params.TagOf(r.addr));
    FlushedIs(c, view, false, r);
    var c' := Fetch(EvictionComplete(c, r), view, false, r);
    if c'.failed.None? {
      assert Settled(c, hist, c.completion.value.completed);
      WaitPlaced(c, c', hist, k, lines, r.(status := WaitingData));
    }
  }

  /** The data is there: the way that was kept free takes the block. */
  lemma {:induction false} FilledSet(c: Cache, r: Part, line: Line)
    requires c.params.E >= 1 && SetsOk(c) && c.active == Some(r) && r.status == WaitingData && Awaited(c, r)
    requires line.valid && line.tag == c.params.TagOf(r.addr) && StampOk(c.params, line.stamp, c.sequence)
    ensures var p, k := c.params, c.params.SetIndex(r.addr);
            var lines := c.sets[k][r.target.value.way := line];
            SetOk(p, lines, k) && Recent(p, lines, Take(Used(Mru(p, c.accesses, k), line.tag), p.E), c.sequence + 1)
    ensures OthersOk(c, c.params.SetIndex(r.addr))
  {
    var k := c.params.SetIndex(r.addr);
    HomeOf(c.params, r.addr);
    FillSet(c.params, c.sets[k], k, Mru(c.params, c.accesses, k), c.sequence, r.target.value.way, line);
  }

  lemma {:induction false} FillPlaced(c: Cache, view: View, hist: seq<Orig>)
    requires Placed(c, hist) && c.active.Some? && c.active.value.status == WaitingData && Current(c, hist, c.active.value)
    ensures var r := c.active.value;
            PlacedOrFailed(Filled(c, view, false, r, r.target.value, c.params.BlockAddress(r.addr)), hist)
  {
    hide SetOk, Recent, Home, Mru;
    var r, n := c.active.value, c.completion.value.completed;
    var a, k, w := c.params.BlockAddress(r.addr), r.target.value.set_, r.target.value.way;
    var c' := Filled(c, view, false, r, r.target.value, a);
    FilledIs(c, view, false, r, r.target.value, a);
    if c'.failed.None? {
      var line := Dirtied(Line(true, c.params.TagOf(a), Stamp(c, true).1, false), r.kind);
      PartBlock(c, hist, r);
      FilledSet(c, r, line);
      OneMore(c, c', hist, n, k, a, c.sets[k][w := line]);
    }
  }

  lemma {:induction false} EventPlaced(c: Cache, view: View, act: Action, proc: int, a: Addr, hist: seq<Orig>)
    requires Structure(c, hist) && Placed(c, hist)
    ensures PlacedOrFailed(AccessEvent(c, view, act, proc, a), hist)
  {
    hide Waiting, Filled, Fetch, SetOk, Params.TagOf, Params.SetIndex;
    if WaitsForFlush(c.active, proc, a) {
      FlushPlaced(c, view, hist);
    } else if WaitsForData(c.params, c.active, proc, a) {
      FillPlaced(c, view, hist);
    }
  }

  /* Whole runs. */

  lemma {:induction false} EmptySet(E: nat)
    ensures var lines := seq(E, _ => Line(false, 0, 0, false));
            ValidCount(lines) == 0 && forall w :: 0 <= w < E ==> lines[w] == Line(false, 0, 0, false)
  {
    var lines := seq(E, _ => Line(false, 0, 0, false));
    if E > 0 {
      EmptySet(E - 1);
      assert lines[1..] == seq(E - 1, _ => Line(false, 0, 0, false));
    }
  }

  lemma {:induction false} InitialPlaced(p: Params)
    requires p.Valid() && p.mode == 0
    ensures Placed(InitialCache(p), [])
  {
    EmptySet(p.E);
    var c := InitialCache(p);
    assert forall k :: 0 <= k < |c.sets| ==> c.sets[k] == seq(p.E, _ => Line(false, 0, 0, false));
  }

  lemma {:induction false} ArrivePlaced(c: Cache, o: Orig, hist: seq<Orig>)
    requires Structure(c, hist) && Placed(c, hist)
    ensures PlacedOrFailed(AccessRequest(c, o), if Accepted(o) then hist + [o] else hist)
  {
    hide SetOk, Recent, Mru;
    var hist' := if Accepted(o) then hist + [o] else hist;
    assert hist'[..|c.calls|] == hist[..|c.calls|];
  }

  lemma {:induction false} StepPlaced(c: Cache, i: Input, hist: seq<Orig>)
    requires Structure(c, hist) && Placed(c, hist)
    ensures PlacedOrFailed(Step(c, i), if i.Arrive? && Accepted(i.o) then hist + [i.o] else hist)
  {
    match i
    case Arrive(o) => ArrivePlaced(c, o, hist);
    case Event(view, act, proc, a) => EventPlaced(c, view, act, proc, a, hist);
    case Clock(view) => TickPlaced(c, view, hist);
  }

  /** Everything above holds in every reachable state that has not failed. */
  lemma {:induction false} RunPlaced(p: Params, inputs: seq<Input>) returns (c: Cache, hist: seq<Orig>)
    requires p.Valid() && p.mode == 0
    ensures c == After(InitialCache(p), inputs) && hist == History(InitialCache(p), inputs) && c.params == p
    ensures c.failed.None? ==> Structure(c, hist) && Placed(c, hist)
  {
    RunKept(p, inputs);
    if inputs == [] {
      InitialPlaced(p);
      c, hist := InitialCache(p), [];
    } else {
      var i := inputs[|inputs| - 1];
      c, hist := RunPlaced(p, inputs[..|inputs| - 1]);
      if c.failed.None? {
        StepPlaced(c, i, hist);
        hist := if i.Arrive? && Accepted(i.o) then hist + [i.o] else hist;
      }
      c := Step(c, i);
      assert hist + [] == hist;
    }
  }

  /** Every valid line sits in the set of the block it stands for, and no block sits in two ways:
      looking up the address a victim would be flushed under finds exactly that line. */
  lemma {:induction false} OneHomePerBlock(p: Params, inputs: seq<Input>, k: nat, w: nat)
    requires p.Valid() && p.mode == 0
    requires var c := After(InitialCache(p), inputs);
             c.failed.None? && k < |c.sets| && w < |c.sets[k]| && c.sets[k][w].valid
    ensures var c := After(InitialCache(p), inputs);
            var a := p.VictimAddress(c.sets[k][w].tag, k);
            && a < WORD && p.BlockAddress(a) == a && p.SetIndex(a) == k
            && FindWay(c.sets[k], p.TagOf(a)) == Some(w)
  {
    var c, hist := RunPlaced(p, inputs);
    TheWay(c.sets[k], w);
  }

  /** The cache finds the block of a. */
  ghost predicate Finds(c: Cache, a: nat) {
    FindWay(SetAt(c, c.params.SetIndex(a)), c.params.TagOf(a)).Some?
  }

  /** Unless a miss is under way, the cache finds exactly the recent blocks. */
  lemma {:induction false} FindsRecent(c: Cache, hist: seq<Orig>, a: nat)
    requires Placed(c, hist) && c.params.policy == Lru
    ensures Finds(c, a) <==> c.params.TagOf(a) in Contents(c, c.params.SetIndex(a))
    ensures Finds(c, a) ==> IsRecent(c.params, c.accesses, a)
  {}

  /** LRU refinement: unless a miss is under way, the cache finds a block exactly if it is among the
      E most recently accessed blocks of its set; the accesses are those of the requests, in order; and
      the hits are those of the ideal LRU cache. */
  lemma {:induction false} LruRefinement(p: Params, inputs: seq<Input>, a: nat)
    requires p.Valid() && p.mode == 0 && p.policy == Lru && After(InitialCache(p), inputs).failed.None?
    ensures var c, hist := After(InitialCache(p), inputs), History(InitialCache(p), inputs);
            && (!(c.active.Some? && Waiting(c.active.value)) ==> (Finds(c, a) <==> IsRecent(p, c.accesses, a)))
            && (Finds(c, a) ==> IsRecent(p, c.accesses, a))
            && Logged(c, hist, Accessed(c))
            && c.hits == IdealHits(p, c.accesses) && c.sequence == |c.accesses|
  {
    var c, hist := RunPlaced(p, inputs);
    FindsRecent(c, hist, a);
  }

  /** All requests are finished. */
  ghost predicate Drained(c: Cache) { Idle(c) && c.arrivals == [] }

  lemma {:induction false} DrainedAccesses(p: Params, inputs: seq<Input>)
    requires p.Valid() && p.mode == 0
    requires var c := After(InitialCache(p), inputs); c.failed.None? && Drained(c)
    ensures After(InitialCache(p), inputs).accesses == AllBlocks(p, History(InitialCache(p), inputs))
  {
    var c, hist := RunPlaced(p, inputs);
    assert hist[..|hist|] == hist;
  }

  lemma {:induction false} SameBlocks(p: Params, q: Params, hist: seq<Orig>)
    requires p.b == q.b
    ensures AllBlocks(p, hist) == AllBlocks(q, hist)
  {
    if hist != [] {
      SameBlocks(p, q, hist[..|hist| - 1]);
      var op := hist[|hist| - 1].op;
      var n := if InRange(op) then PartCount(p, op) else 0;
      assert FirstBlocks(p, op, n) == FirstBlocks(q, op, n);
    }
  }

  lemma {:induction false} SameMru(p: Params, q: Params, accesses: seq<nat>, k: nat)
    requires p.s == q.s && p.b == q.b
    ensures Mru(p, accesses, k) == Mru(q, accesses, k)
  {
    if accesses != [] { SameMru(p, q, accesses[..|accesses| - 1], k); }
  }

  /** LRU is a stack algorithm. */
  lemma {:induction false} MoreWaysMoreRecent(p: Params, q: Params, accesses: seq<nat>, a: nat)
    requires p.s == q.s && p.b == q.b && p.E <= q.E
    ensures IsRecent(p, accesses, a) ==> IsRecent(q, accesses, a)
  {
    SameMru(p, q, accesses, p.SetIndex(a));
  }

  lemma {:induction false} MoreWaysMoreHits(p: Params, q: Params, accesses: seq<nat>)
    requires p.s == q.s && p.b == q.b && p.E <= q.E
    ensures IdealHits(p, accesses) <= IdealHits(q, accesses)
  {
    if accesses != [] {
      MoreWaysMoreHits(p, q, accesses[..|accesses| - 1]);
      MoreWaysMoreRecent(p, q, accesses[..|accesses| - 1], accesses[|accesses| - 1]);
    }
  }

  /** Inclusion: two LRU caches with the same sets and blocks that have finished the same requests,
      whatever the timing of their events. What the one with fewer ways holds, the other holds, and it
      had no more hits. */
  lemma {:induction false} Inclusion(p: Params, q: Params, small: seq<Input>, large: seq<Input>, a: nat)
    requires p.Valid() && p.mode == 0 && p.policy == Lru && q.Valid() && q.mode == 0 && q.policy == Lru
    requires p.s == q.s && p.b == q.b && p.E <= q.E
    requires History(InitialCache(p), small) == History(InitialCache(q), large)
    requires var c, d := After(InitialCache(p), small), After(InitialCache(q), large);
             c.failed.None? && d.failed.None? && Drained(c) && Drained(d)
    ensures var c, d := After(InitialCache(p), small), After(InitialCache(q), large);
            (Finds(c, a) ==> Finds(d, a)) && c.hits <= d.hits
  {
    var hist := History(InitialCache(p), small);
    LruRefinement(p, small, a);
    LruRefinement(q, large, a);
    DrainedAccesses(p, small);
    DrainedAccesses(q, large);
    SameBlocks(p, q, hist);
    MoreWaysMoreRecent(p, q, AllBlocks(p, hist), a);
    MoreWaysMoreHits(p, q, AllBlocks(p, hist));
  }
}
