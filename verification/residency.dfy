/** Which blocks are in the cache, and how each of its steps changes that; what each step asks of
    coherence. With the write buffer on or off, for requests of one processor. */
module Residency {
  import opened Protocol
  import opened Bits
  import opened Geometry
  import opened Replacement
  import opened Split
  import opened TeamCache
  import opened LruSet
  import opened Requests
  import opened Placement

  /** a is the address of a block that some valid line holds. */
  ghost predicate Resident(c: Cache, a: Addr) {
    0 <= a < WORD && c.params.BlockAddress(a) == a && Finds(c, a)
  }

  /** The request that waits for coherence, in either slot. */
  ghost function Working(c: Cache): Option<Part> {
    if c.active.Some? && Waiting(c.active.value) then c.active else BufferWork(c)
  }

  ghost function BufferWork(c: Cache): Option<Part> {
    if c.buffer.Some? && Waiting(c.buffer.value.request) then Some(c.buffer.value.request) else None
  }

  /** The victim whose flush is outstanding. */
  ghost function Flushing(c: Cache): Option<Addr> {
    if Working(c).Some? && Working(c).value.status == WaitingEviction then Some(Working(c).value.victim) else None
  }

  /** The block whose data is awaited. */
  ghost function Awaiting(c: Cache): Option<Addr> {
    if Working(c).Some? && Working(c).value.status == WaitingData
    then Some(c.params.BlockAddress(Working(c).value.addr)) else None
  }

  ghost predicate SameResidents(c: Cache, c': Cache) {
    forall a: Addr :: Resident(c', a) <==> Resident(c, a)
  }

  /* One set. */

  ghost predicate SameTags(lines: seq<Line>, lines': seq<Line>) {
    |lines| == |lines'|
    && forall w :: 0 <= w < |lines| ==> lines'[w].valid == lines[w].valid && lines'[w].tag == lines[w].tag
  }

  lemma {:induction false} GivenUp(lines: seq<Line>, w: nat, x: nat)
    requires Unique(lines) && w < |lines| && lines[w].valid
    ensures FindWay(lines[w := lines[w].(valid := false)], x).Some? <==> FindWay(lines, x).Some? && x != lines[w].tag
  {
    if FindWay(lines, x).Some? && x != lines[w].tag {
      var v := FindWay(lines, x).value;
      assert lines[w := lines[w].(valid := false)][v] == lines[v];
    }
  }

  /* The whole cache. */

  /** No block sits in two ways, and each sits in its own set. */
  ghost predicate SetHome(p: Params, lines: seq<Line>, k: nat) {
    Unique(lines) && forall w :: 0 <= w < |lines| && lines[w].valid ==> Home(p, lines[w].tag, k)
  }

  ghost predicate Homed(c: Cache) {
    Sized(c) && c.params.Valid() && forall k :: 0 <= k < |c.sets| ==> SetHome(c.params, c.sets[k], k)
  }

  /** Nothing but stamps and dirty flags differs. */
  ghost predicate SameLines(c: Cache, c': Cache) {
    && c'.params == c.params && |c'.sets| == |c.sets|
    && forall k :: 0 <= k < |c.sets| ==> SameTags(c.sets[k], c'.sets[k])
  }

  lemma {:induction false} SameSetHome(p: Params, lines: seq<Line>, lines': seq<Line>, k: nat, x: nat)
    requires SameTags(lines, lines')
    ensures SetHome(p, lines, k) ==> SetHome(p, lines', k)
    ensures FindWay(lines', x) == FindWay(lines, x)
  {
    hide Home;
  }

  lemma {:induction false} SameLinesKeep(c: Cache, c': Cache)
    requires SameLines(c, c')
    ensures Homed(c) ==> Homed(c')
    ensures SameResidents(c, c') && forall a: nat :: Finds(c', a) <==> Finds(c, a)
  {
    hide SetHome, FindWay, Params.TagOf, Params.SetIndex, Params.BlockAddress;
    forall k | 0 <= k < |c.sets| ensures SetHome(c.params, c.sets[k], k) ==> SetHome(c.params, c'.sets[k], k) {
      SameSetHome(c.params, c.sets[k], c'.sets[k], k, 0);
    }
    forall a: nat ensures Finds(c', a) <==> Finds(c, a) {
      var k := c.params.SetIndex(a);
      if k < |c.sets| { SameSetHome(c.params, c.sets[k], c'.sets[k], k, c.params.TagOf(a)); }
    }
  }

  lemma {:induction false} OneSetSameLines(c: Cache, c': Cache, k: nat, lines: seq<Line>)
    requires c'.params == c.params && k < |c.sets| && c'.sets == c.sets[k := lines] && SameTags(c.sets[k], lines)
    ensures SameLines(c, c')
  {}

  /** Only one block address has this tag and set. */
  lemma {:induction false} TheBlock(p: Params, a: nat, b: nat)
    requires p.BlockAddress(a) == a && p.BlockAddress(b) == b
    ensures a == b <==> p.TagOf(a) == p.TagOf(b) && p.SetIndex(a) == p.SetIndex(b)
  {
    if p.TagOf(a) == p.TagOf(b) && p.SetIndex(a) == p.SetIndex(b) {
      DivMod(p.BlockNumber(a), p.S());
      DivMod(p.BlockNumber(b), p.S());
      BlockAddressIs(p, a);
      BlockAddressIs(p, b);
    }
  }

  /** An address and its block are found alike. */
  lemma {:induction false} FindsBlock(c: Cache, a: nat)
    requires a < WORD
    ensures var b := c.params.BlockAddress(a);
            && b <= a && c.params.TagOf(b) == c.params.TagOf(a) && c.params.SetIndex(b) == c.params.SetIndex(a)
            && c.params.BlockAddress(b) == b && (Resident(c, b) <==> Finds(c, a))
  {
    hide FindWay;
    BlockAddressIs(c.params, a);
  }

  /** Way w of set k is given up: its block, and no other, leaves the cache. */
  lemma {:induction false} DroppedResident(c: Cache, c': Cache, k: nat, w: nat, v: nat)
    requires Homed(c) && c'.params == c.params && k < |c.sets| && w < |c.sets[k]| && c.sets[k][w].valid
    requires c'.sets == c.sets[k := c.sets[k][w := c.sets[k][w].(valid := false)]]
    requires v == c.params.VictimAddress(c.sets[k][w].tag, k)
    ensures Homed(c') && Resident(c, v) && forall a: Addr :: Resident(c', a) <==> Resident(c, a) && a != v
  {
    hide Params.VictimAddress, Params.TagOf, Params.SetIndex, Params.BlockAddress;
    TheWay(c.sets[k], w);
    assert Home(c.params, c.sets[k][w].tag, k);
    forall a: Addr ensures Resident(c', a) <==> Resident(c, a) && a != v {
      if 0 <= a < WORD && c.params.BlockAddress(a) == a {
        GivenUp(c.sets[k], w, c.params.TagOf(a));
        TheBlock(c.params, a, v);
      }
    }
  }

  /** A free way takes a line with tag x that no other way has. */
  lemma {:induction false} TakenIn(p: Params, lines: seq<Line>, k: nat, w: nat, line: Line, x: nat)
    requires SetHome(p, lines, k) && w < |lines| && !lines[w].valid && line.valid && Home(p, line.tag, k)
    requires FindWay(lines, line.tag).None?
    ensures SetHome(p, lines[w := line], k)
    ensures FindWay(lines[w := line], x).Some? <==> FindWay(lines, x).Some? || x == line.tag
  {
    hide Home;
    var r := lines[w := line];
    assert r[w] == line;
    if FindWay(lines, x).Some? {
      var v := FindWay(lines, x).value;
      assert r[v] == lines[v];
    }
  }

  /** A free way takes block b: it, and no other, joins the blocks in the cache. */
  lemma {:induction false} FilledResident(c: Cache, c': Cache, k: nat, w: nat, line: Line, b: nat)
    requires Homed(c) && c'.params == c.params && k < |c.sets| && w < |c.sets[k]| && !c.sets[k][w].valid && line.valid
    requires c'.sets == c.sets[k := c.sets[k][w := line]]
    requires b < WORD && c.params.BlockAddress(b) == b && line.tag == c.params.TagOf(b) && k == c.params.SetIndex(b)
    requires !Finds(c, b)
    ensures Homed(c') && forall a: Addr :: Resident(c', a) <==> Resident(c, a) || a == b
  {
    HomeOf(c.params, b);
    hide Params.TagOf, Params.SetIndex, Params.BlockAddress, Params.VictimAddress, Home, FindWay;
    TakenIn(c.params, c.sets[k], k, w, line, 0);
    forall a: Addr ensures Resident(c', a) <==> Resident(c, a) || a == b {
      if 0 <= a < WORD && c.params.BlockAddress(a) == a {
        TakenIn(c.params, c.sets[k], k, w, line, c.params.TagOf(a));
        TheBlock(c.params, a, b);
      }
    }
  }
  /* The invariant. */

  /** A request that waits: the way it will be filled into is free and its block is nowhere, or that way
      holds the victim it names. */
  ghost predicate WorkOk(c: Cache, r: Part) {
    var k := c.params.SetIndex(r.addr);
    && r.proc == 0 && r.addr < WORD && k < |c.sets| && r.target.Some? && r.target.value.set_ == k
    && r.target.value.way < |c.sets[k]|
    && var line := c.sets[k][r.target.value.way];
       if r.status == WaitingData then !line.valid && !Finds(c, r.addr)
       else line.valid && r.victim == c.params.VictimAddress(line.tag, k)
  }

  /** A parked request was not found. */
  ghost predicate ParkedOk(c: Cache) {
    c.active.Some? && c.active.value.status == WaitingBuffer ==> c.active.value.addr < WORD && !Finds(c, c.active.value.addr)
  }

  ghost predicate Housed(c: Cache) {
    Homed(c) && ParkedOk(c) && (Working(c).Some? ==> WorkOk(c, Working(c).value))
  }

  /** A request waits for a flush though its own block is there and is not the victim: once the flush is
      done, coherence will grant the block at once. */
  ghost predicate DoomedPart(c: Cache, r: Part) {
    r.status == WaitingEviction && Finds(c, r.addr) && r.victim != c.params.BlockAddress(r.addr)
  }

  ghost predicate Doomed(c: Cache) { Working(c).Some? && DoomedPart(c, Working(c).value) }

  lemma {:induction false} SameWork(c: Cache, c': Cache, r: Part)
    requires SameLines(c, c')
    ensures WorkOk(c, r) ==> WorkOk(c', r)
    ensures DoomedPart(c', r) <==> DoomedPart(c, r)
  {
    hide SetHome, FindWay, Params.TagOf, Params.SetIndex, Params.BlockAddress, Params.VictimAddress;
    SameLinesKeep(c, c');
    if c.params.SetIndex(r.addr) < |c.sets| {
      assert SameTags(c.sets[c.params.SetIndex(r.addr)], c'.sets[c.params.SetIndex(r.addr)]);
    }
  }

  /* The steps. */

  /** Some request's last byte has no 64-bit address. */
  ghost predicate Overflows(hist: seq<Orig>) {
    exists i :: 0 <= i < |hist| && (hist[i].op.size > 0 ==> hist[i].op.addr + hist[i].op.size - 1 >= 0x1_0000_0000_0000_0000)
  }

  /** No failure, or one of the two that only depend on the requests and on how many there were. */
  ghost predicate Excused(c: Cache, hist: seq<Orig>) {
    || c.failed.None?
    || (c.failed == Some(SequenceExhausted) && c.params.policy == Lru && c.sequence == WORD - 1)
    || (c.failed == Some(RangeOverflow) && Overflows(hist))
  }

  ghost predicate OneProcessor(hist: seq<Orig>) {
    forall i :: 0 <= i < |hist| ==> hist[i].proc == 0
  }

  /** Coherence holds, and owns, exactly the blocks in the cache. */
  ghost predicate Agrees(c: Cache, view: View) {
    forall a: Addr :: (a in view.held <==> Resident(c, a)) && (a in view.owned <==> Resident(c, a))
  }

  /** The call that goes with the request that now waits: a fetch of a block that is not there, or the
      flush of one that is. */
  ghost predicate Called(c: Cache, c': Cache) {
    if Awaiting(c').Some? then !Resident(c, Awaiting(c').value) && c'.lower == [PermReq(Awaiting(c').value, 0)]
    else Flushing(c').Some? && Resident(c, Flushing(c').value) && c'.lower == [InvlReq(Flushing(c').value, 0)]
  }

  /** The way that a miss of r will take. */
  ghost function TargetWay(c: Cache, r: Part): nat
    requires SetAt(c, c.params.SetIndex(r.addr)) != []
  {
    Target(c.params, SetAt(c, c.params.SetIndex(r.addr))).1
  }

  ghost predicate TargetFree(c: Cache, r: Part) {
    var lines := SetAt(c, c.params.SetIndex(r.addr));
    lines != [] && !lines[TargetWay(c, r)].valid
  }

  /** The way that a miss of r will take does not hold r's own block. */
  ghost predicate TargetElsewhere(c: Cache, r: Part) {
    var lines := SetAt(c, c.params.SetIndex(r.addr));
    lines != [] && !(lines[TargetWay(c, r)].valid && lines[TargetWay(c, r)].tag == c.params.TagOf(r.addr))
  }

  /** What a miss leaves in its slot: the same lines, and a request that waits with the matching call,
      unless coherence grants the block at once. */
  lemma {:induction false} MissStarts(c: Cache, view: View, background: bool, r: Part)
    requires Homed(c) && c.failed.None? && c.lower == [] && Agrees(c, view) && (background ==> c.buffer.Some?)
    requires r.addr < WORD && r.proc == 0
    ensures var c' := EvictThenFetch(c, view, background, r);
            && SameLines(c, c') && Owner(c', background).Some?
            && c'.failed == (if Finds(c, r.addr) && TargetFree(c, r) then Some(GrantedOnMiss) else None)
            && var r' := Owner(c', background).value;
               && SamePart(r', r) && Waiting(r') && (r'.status == WaitingData <==> TargetFree(c, r))
               && c'.active == (if background then c.active else Some(r'))
               && (background ==> c'.buffer.Some? && c'.buffer.value.request == r')
               && (!background ==> c'.buffer == c.buffer)
               && (c'.failed.None? ==> WorkOk(c', r'))
               && (if r'.status == WaitingData then c'.lower == [PermReq(c.params.BlockAddress(r.addr), 0)]
                   else Resident(c, r'.victim) && c'.lower == [InvlReq(r'.victim, 0)])
               && (DoomedPart(c', r') <==> Finds(c, r.addr) && !TargetFree(c, r) && TargetElsewhere(c, r))
  {
    var p, k, c' := c.params, c.params.SetIndex(r.addr), EvictThenFetch(c, view, background, r);
    var (lines, way) := Target(p, c.sets[k]);
    EvictThenFetchIs(c, view, background, r);
    FindsBlock(c, r.addr);
    AgedTags(p, c.sets[k]);
    var aged := c.(sets := c.sets[k := lines]);
    OneSetSameLines(c, aged, k, lines);
    SameLinesKeep(c, aged);
    if lines[way].valid {
      VictimIsThere(c, aged, k, way, r.addr);
    }
    OneSetSameLines(c, c', k, lines);
    SameLinesKeep(c, c');
  }

  /** The line of a valid way is resident under its victim address, which is a's block iff it has a's tag. */
  lemma {:induction false} VictimIsThere(c: Cache, aged: Cache, k: nat, way: nat, a: nat)
    requires Homed(c) && SameLines(c, aged) && k < |aged.sets| && way < |aged.sets[k]| && aged.sets[k][way].valid
    requires a < WORD && k == c.params.SetIndex(a)
    ensures var v := c.params.VictimAddress(aged.sets[k][way].tag, k);
            Resident(c, v) && (v == c.params.BlockAddress(a) <==> aged.sets[k][way].tag == c.params.TagOf(a))
  {
    hide Params.VictimAddress, Params.TagOf, Params.SetIndex, Params.BlockAddress, FindWay;
    SameLinesKeep(c, aged);
    var v := c.params.VictimAddress(aged.sets[k][way].tag, k);
    assert Home(c.params, aged.sets[k][way].tag, k);
    DroppedResident(aged, aged.(sets := aged.sets[k := aged.sets[k][way := aged.sets[k][way].(valid := false)]]), k, way, v);
    FindsBlock(c, a);
    TheBlock(c.params, v, c.params.BlockAddress(a));
  }

  lemma {:induction false} AgedTags(p: Params, lines: seq<Line>)
    requires lines != []
    ensures SameTags(lines, Target(p, lines).0)
  {}

  /** start_miss with the buffer empty. The block may be there already only if the request was parked. */
  lemma {:induction false} StartMissEffect(c: Cache, view: View, r: Part)
    requires Homed(c) && c.failed.None? && c.lower == [] && c.buffer.None? && c.completion.Some? && Agrees(c, view)
    requires r.addr < WORD && r.proc == 0
    ensures var c' := StartMiss(c, view, r);
            && c'.failed == (if Finds(c, r.addr) && TargetFree(c, r) then Some(GrantedOnMiss) else None)
            && (c'.failed.None? ==> Housed(c') && SameLines(c, c') && Working(c').Some? && Called(c, c'))
            && (c'.failed.Some? || Doomed(c') <==> Finds(c, r.addr) && TargetElsewhere(c, r))
  {
    hide SetHome, WorkOk, EvictThenFetch, Params.TagOf, Params.SetIndex, Params.BlockAddress;
    FindsBlock(c, r.addr);
    var c' := StartMiss(c, view, r);
    if Eligible(c, r) {
      var c0 := c.(buffer := Some(Buffer(r, false, false)), active := None);
      assert SameLines(c, c0);
      SameLinesKeep(c, c0);
      MissStarts(c0, view, true, r);
      SameLinesKeep(c0, c');
    } else {
      MissStarts(c, view, false, r);
      SameLinesKeep(c, c');
    }
  }

  /** Between two blocks: the buffer may still be at work; if it is empty, coherence agrees. */
  ghost predicate Ready4Block(c: Cache, view: View) {
    && Homed(c) && c.failed.None? && c.lower == [] && BufferBusy(c)
    && (BufferWork(c).Some? ==> WorkOk(c, BufferWork(c).value))
    && (c.buffer.None? ==> Agrees(c, view))
  }

  /** What starting a block can come to: no call, and the buffer works on; or one call, for a request
      that waits now and did not before. No block comes or goes. */
  ghost predicate Started(c: Cache, c': Cache) {
    && Housed(c') && SameLines(c, c')
    && ((Working(c') == BufferWork(c) && c'.lower == [])
        || (BufferWork(c).None? && Working(c').Some? && Called(c, c') && !Doomed(c')))
  }

  lemma {:induction false} HitEffect(c: Cache, view: View, l: Loc, r: Part, hist: seq<Orig>)
    requires Ready4Block(c, view) && LineAt(c, l).Some?
    ensures var c' := Hit(c, l, r); Excused(c', hist) && (c'.failed.None? ==> Started(c, c'))
  {
    hide SetHome, WorkOk, Params.TagOf, Params.SetIndex, Params.BlockAddress;
    HitIs(c, l, r);
    var c' := Hit(c, l, r);
    if c'.failed.None? {
      OneSetSameLines(c, c', l.set_, c'.sets[l.set_]);
      SameLinesKeep(c, c');
      if BufferWork(c).Some? { SameWork(c, c', BufferWork(c).value); }
    }
  }

  /** A block that lookup did not find: parked behind the buffer, or a miss. */
  lemma {:induction false} MissEffect(c: Cache, view: View, r: Part, hist: seq<Orig>)
    requires Ready4Block(c, view) && c.completion.Some? && r.addr < WORD && r.proc == 0 && !Finds(c, r.addr)
    ensures var c' := StartMiss(c, view, r); c'.failed.None? && Started(c, c')
  {
    hide SetHome, WorkOk, EvictThenFetch, Params.TagOf, Params.SetIndex, Params.BlockAddress;
    var c' := StartMiss(c, view, r);
    if c.buffer.Some? {
      assert SameLines(c, c');
      SameLinesKeep(c, c');
      SameWork(c, c', BufferWork(c).value);
    } else {
      StartMissEffect(c, view, r);
    }
  }

  /** Started does not look at the other fields. */
  lemma {:induction false} StartedFrom(c: Cache, c1: Cache, c': Cache)
    requires c1.params == c.params && c1.sets == c.sets && BufferWork(c1) == BufferWork(c) && Started(c1, c')
    ensures Started(c, c')
  {
    hide Housed, Params.TagOf, Params.SetIndex, Params.BlockAddress;
    assert SameLines(c, c1);
    SameLinesKeep(c, c1);
  }

  lemma {:induction false} NextBlockEffect(c: Cache, view: View, hist: seq<Orig>)
    requires NextBlock(c, hist) && OneProcessor(hist) && Ready4Block(c, view)
    ensures var c' := StartNextBlock(c, view); Excused(c', hist) && (c'.failed.None? ==> Started(c, c'))
  {
    hide SetHome, WorkOk, Started, Hit, StartMiss, Params.TagOf, Params.SetIndex, Params.BlockAddress;
    var r := c.queue[0].(status := WaitingData);
    var c1 := c.(queue := c.queue[1..], active := Some(r));
    assert Current(c1, hist, r);
    PartBlock(c1, hist, r);
    SameReady(c, c1, view);
    var k := c.params.SetIndex(r.addr);
    var c' := StartNextBlock(c, view);
    match FindWay(SetAt(c, k), c.params.TagOf(r.addr))
    case Some(way) =>
      HitEffect(c1, view, Loc(k, way), r, hist);
      if c'.failed.None? { StartedFrom(c, c1, c'); }
    case None =>
      MissEffect(c1, view, r, hist);
      StartedFrom(c, c1, c');
  }

  lemma {:induction false} SameReady(c: Cache, c1: Cache, view: View)
    requires Ready4Block(c, view)
    requires c1 == c.(queue := c1.queue, active := c1.active, arrivals := c1.arrivals,
                      completion := c1.completion, calls := c1.calls)
    ensures Ready4Block(c1, view)
  {
    hide SetHome, Params.TagOf, Params.SetIndex, Params.BlockAddress;
    assert SameLines(c, c1);
    SameLinesKeep(c, c1);
  }

  /** start_next_request with its slot empty. */
  lemma {:induction false} NextRequestEffect(c: Cache, view: View, hist: seq<Orig>)
    requires Structure(c, hist) && OneProcessor(hist) && Ready4Block(c, view) && Idle(c) && c.arrivals != []
    ensures var c' := StartNextRequest(c, view); Excused(c', hist) && (c'.failed.None? ==> Started(c, c'))
  {
    hide Homed, WorkOk, Started, StartNextBlock, BufferBusy, Agrees;
    var o := c.arrivals[0];
    var c1 := Prepare(c.(arrivals := c.arrivals[1..]), o);
    assert hist[|c.calls|] == o;
    if InRange(o.op) {
      assert NextBlock(c1, hist);
      SameReady(c, c1, view);
      NextBlockEffect(c1, view, hist);
      var c' := StartNextRequest(c, view);
      if c'.failed.None? { StartedFrom(c, c1, c'); }
    }
  }

  /** What a tick of the cache can come to: no call, and what worked works on; or one call, for a request
      that waits now and did not before. No block comes or goes. */
  ghost predicate Ticked(c: Cache, c': Cache) {
    && Housed(c') && SameLines(c, c')
    && ((Working(c') == Working(c) && c'.lower == [])
        || (Working(c).None? && Working(c').Some? && Called(c, c') && !Doomed(c')))
  }

  lemma {:induction false} AcknowledgeEffect(c: Cache, view: View, hist: seq<Orig>)
    requires Structure(c, hist) && OneProcessor(hist) && Housed(c) && c.failed.None? && c.lower == []
    requires Working(c).None? ==> Agrees(c, view)
    requires c.buffer.Some? && !c.buffer.value.notified
    ensures var c' := Acknowledge(c, view); Excused(c', hist) && (c'.failed.None? ==> Ticked(c, c'))
  {
    hide SetHome, WorkOk, StartNextRequest, Params.TagOf, Params.SetIndex, Params.BlockAddress;
    AcknowledgedIs(c, view, hist);
    var c1, c' := Acknowledged(c), Acknowledge(c, view);
    assert SameLines(c, c1);
    SameLinesKeep(c, c1);
    if c.buffer.value.dataComplete {
      if c1.arrivals != [] {
        NextRequestEffect(c1, view, hist);
        if c'.failed.None? { StartedFrom(c, c1, c'); }
      } else {
        assert c' == c1 by { NothingToStart(c1, view); }
      }
    } else {
      SameWork(c, c1, c.buffer.value.request);
    }
  }

  lemma {:induction false} NothingToStart(c: Cache, view: View)
    requires !Idle(c) || c.arrivals == []
    ensures StartNextRequest(c, view) == c
  {}

  lemma {:induction false} RetireEffect(c: Cache, view: View, hist: seq<Orig>)
    requires Structure(c, hist) && OneProcessor(hist) && Housed(c) && c.failed.None? && c.lower == [] && Agrees(c, view)
    requires c.buffer.None? && c.active.Some? && c.active.value.status == Ready
    ensures var c' := Retire(c, view, c.active.value); Excused(c', hist) && (c'.failed.None? ==> Ticked(c, c'))
  {
    hide SetHome, WorkOk, StartNextBlock, Params.TagOf, Params.SetIndex, Params.BlockAddress;
    var r, c' := c.active.value, Retire(c, view, c.active.value);
    var c0 := c.(active := None);
    assert Current(c0, hist, r);
    CompleteOneKept(c0, r, hist);
    var (c1, done) := CompleteOne(c0, r);
    assert SameLines(c, c1);
    SameLinesKeep(c, c1);
    if done {
      SameLinesKeep(c, c');
    } else {
      assert NextBlock(c1, hist);
      NextBlockEffect(c1, view, hist);
      if c'.failed.None? { StartedFrom(c, c1, c'); }
    }
  }

  lemma {:induction false} TickEffect(c: Cache, view: View, hist: seq<Orig>)
    requires Structure(c, hist) && OneProcessor(hist) && Housed(c) && c.failed.None? && c.lower == []
    requires Working(c).None? ==> Agrees(c, view)
    ensures var c' := AccessTick(c, view); Excused(c', hist) && (c'.failed.None? ==> Ticked(c, c'))
  {
    hide Homed, WorkOk, StartNextRequest, Retire, Acknowledge, Agrees, SameLines;
    if c.buffer.Some? && !c.buffer.value.notified {
      AcknowledgeEffect(c, view, hist);
    } else if c.buffer.None? && c.active.Some? && c.active.value.status == Ready {
      RetireEffect(c, view, hist);
    } else if Idle(c) && c.arrivals != [] {
      NextRequestEffect(c, view, hist);
    } else {
      NothingToStart(c, view);
      SameItself(c);
    }
  }

  lemma {:induction false} SameItself(c: Cache)
    ensures SameLines(c, c)
  {}

  /** Which slot works. */
  ghost function InBuffer(c: Cache): bool { !(c.active.Some? && Waiting(c.active.value)) }

  /** A parked request stays one that is not found as long as its own block does not come. */
  lemma {:induction false} StillParkedOk(c: Cache, c': Cache)
    requires ParkedOk(c) && c'.active == c.active && c'.params == c.params
    requires c.active.Some? ==> c.active.value.addr < WORD
    requires c.active.Some? ==>
               var b := c.params.BlockAddress(c.active.value.addr); (Resident(c', b) ==> Resident(c, b))
    ensures ParkedOk(c')
  {
    if c.active.Some? {
      FindsBlock(c, c.active.value.addr);
      FindsBlock(c', c.active.value.addr);
    }
  }

  lemma {:induction false} WorkIsOwner(c: Cache, hist: seq<Orig>)
    requires Structure(c, hist) && Working(c).Some?
    ensures Owner(c, InBuffer(c)) == Working(c)
    ensures !InBuffer(c) ==> c.buffer.None?
  {
    hide Sized, Requests.InOrder, OneOwner, TargetOk;
  }

  /** The event that answers the flush reaches the request that waits for it. */
  lemma {:induction false} FlushReaches(c: Cache, view: View, hist: seq<Orig>)
    requires Structure(c, hist) && Housed(c) && c.failed.None? && Flushing(c).Some?
    ensures var r := Working(c).value;
            && EvictionComplete(c, r).failed.None?
            && AccessEvent(c, view, FlushComplete, 0, r.victim) == Fetch(EvictionComplete(c, r), view, InBuffer(c), r)
  {
    hide Sized, Requests.InOrder, OneOwner, Homed, Finds, ParkedOk, Fetch;
    WorkIsOwner(c, hist);
    FlushedIs(c, view, InBuffer(c), Working(c).value);
  }

  /** The answer to a flush: the victim leaves, the data of the block is asked for; the one failure is
      that of a doomed request. */
  lemma {:induction false} FlushEffect(c: Cache, view: View, hist: seq<Orig>)
    requires Structure(c, hist) && Housed(c) && c.failed.None? && c.lower == [] && Flushing(c).Some?
    requires c.active.Some? ==> c.active.value.addr < WORD
    requires forall a: Addr :: a in view.owned <==> Resident(c, a) && Some(a) != Flushing(c)
    ensures var r := Working(c).value;
            var c', a := AccessEvent(c, view, FlushComplete, 0, r.victim), c.params.BlockAddress(r.addr);
            && c'.failed == (if Doomed(c) then Some(GrantedOnMiss) else None)
            && Resident(c, r.victim)
            && (forall b: Addr :: Resident(c', b) <==> Resident(c, b) && b != r.victim)
            && (c'.failed.None? ==>
                  && Housed(c') && Awaiting(c') == Some(a) && !Resident(c', a) && c'.lower == [PermReq(a, 0)]
                  && c'.queue == c.queue && c'.arrivals == c.arrivals)
  {
    hide SetHome, Structure, AccessEvent, EvictionComplete, Fetch, FindWay,
      Params.TagOf, Params.SetIndex, Params.BlockAddress, Params.VictimAddress;
    var r, background := Working(c).value, InBuffer(c);
    var k, w, c' := r.target.value.set_, r.target.value.way, AccessEvent(c, view, FlushComplete, 0, r.victim);
    FlushReaches(c, view, hist);
    FlushedIs(c, view, background, r);
    FindsBlock(c, r.addr);
    DroppedResident(c, c', k, w, r.victim);
    FindsBlock(c', r.addr);
    if c'.failed.None? && background { StillParkedOk(c, c'); }
  }

  /** The state right after the awaited data is in its line. */
  ghost function FilledCache(c: Cache): Cache
    requires Working(c).Some? && Working(c).value.target.Some? && LineAt(c, Working(c).value.target.value).Some?
  {
    var r := Working(c).value;
    FilledLine(c, InBuffer(c), r, r.target.value, c.params.BlockAddress(r.addr))
  }

  lemma {:induction false} WorkHasLine(c: Cache)
    requires Housed(c) && Working(c).Some?
    ensures Working(c).value.target.Some? && LineAt(c, Working(c).value.target.value).Some?
  {}

  /** The event that brings the data reaches the request that waits for it. */
  lemma {:induction false} DataReaches(c: Cache, view: View, hist: seq<Orig>)
    requires Structure(c, hist) && Housed(c) && c.failed.None? && Awaiting(c).Some?
    ensures Working(c).value.target.Some? && LineAt(c, Working(c).value.target.value).Some?
    ensures var c', stamped := AccessEvent(c, view, DataRecv, 0, Awaiting(c).value), Stamp(c, true).0;
            if stamped.failed.Some? then c' == stamped && stamped.failed == Some(SequenceExhausted)
            else if InBuffer(c) then c' == BufferFilled(FilledCache(c), view)
            else c' == FilledCache(c)
  {
    hide Sized, Requests.InOrder, OneOwner, Homed, Finds, ParkedOk, BufferFilled;
    WorkIsOwner(c, hist);
    var r := Working(c).value;
    FilledIs(c, view, InBuffer(c), r, r.target.value, c.params.BlockAddress(r.addr));
  }

  /** The data is in: exactly its block has joined, and nothing waits any more. */
  lemma {:induction false} FilledEffect(c: Cache)
    requires Housed(c) && Awaiting(c).Some? && LineAt(c, Working(c).value.target.value).Some?
    requires c.buffer.Some? ==> InBuffer(c)
    ensures var c' := FilledCache(c);
            && Homed(c') && BufferWork(c') == None && c'.failed == c.failed && c'.lower == c.lower
            && c' == c.(sets := c'.sets, sequence := c'.sequence, accesses := c'.accesses,
                        active := c'.active, buffer := c'.buffer)
            && (InBuffer(c) ==> c'.active == c.active && c'.buffer.Some?
                                && c'.buffer.value == c.buffer.value.(request := c'.buffer.value.request)
                                && c'.buffer.value.request.status == Ready)
            && (!InBuffer(c) ==> c'.buffer == c.buffer && c'.active.Some? && c'.active.value.status == Ready)
            && forall b: Addr :: Resident(c', b) <==> Resident(c, b) || Some(b) == Awaiting(c)
  {
    hide SetHome, FindWay, Params.TagOf, Params.SetIndex, Params.BlockAddress, Params.VictimAddress;
    var r, c' := Working(c).value, FilledCache(c);
    var k, w := r.target.value.set_, r.target.value.way;
    FindsBlock(c, r.addr);
    FilledResident(c, c', k, w, c'.sets[k][w], c.params.BlockAddress(r.addr));
  }

  /** The parked request is for the very block that the buffer waits for. */
  ghost predicate Clash(c: Cache) {
    && c.buffer.Some? && c.buffer.value.notified && c.buffer.value.request.status == WaitingData
    && c.active.Some? && c.active.value.status == WaitingBuffer
    && c.params.BlockAddress(c.active.value.addr) == c.params.BlockAddress(c.buffer.value.request.addr)
  }

  /** ... and the way it will take once the block is in is not the one that holds it. */
  ghost predicate ClashElsewhere(c: Cache) {
    && Clash(c) && Working(c).Some? && Working(c).value.target.Some? && LineAt(c, Working(c).value.target.value).Some?
    && TargetElsewhere(FilledCache(c), c.active.value)
  }

  /** The failure of fetch, or the certainty of it. */
  ghost predicate Lost(c: Cache) {
    c.failed == Some(GrantedOnMiss) || (c.failed.None? && Doomed(c))
  }

  /** What the end of a fill can come to: nothing waits; or one call, for a request that starts now. */
  ghost predicate Refilled(c: Cache, c': Cache) {
    && Housed(c') && (forall b: Addr :: Resident(c', b) <==> Resident(c, b) || Some(b) == Awaiting(c))
    && (if Working(c').Some? then Called(c', c') else c'.lower == [])
  }

  /** The parked request starts. */
  lemma {:induction false} ParkedStarts(c: Cache, c1: Cache, view: View)
    requires Housed(c) && Awaiting(c).Some? && LineAt(c, Working(c).value.target.value).Some? && InBuffer(c)
    requires c.active.Some? && c.active.value.status == WaitingBuffer && c.active.value.proc == 0
    requires c.buffer.Some? && c.buffer.value.notified && c.completion.Some? && c.failed.None? && c.lower == []
    requires c1 == FilledCache(c).(buffer := None) && Agrees(FilledCache(c), view)
    ensures var c' := StartMiss(c1, view, c.active.value);
            && (c'.failed.None? || c'.failed == Some(GrantedOnMiss)) && (c'.failed.None? ==> Refilled(c, c'))
            && (Lost(c') <==> ClashElsewhere(c))
  {
    hide Homed, StartMiss, FindWay, FilledCache, TargetFree, TargetElsewhere,
      Params.TagOf, Params.SetIndex, Params.VictimAddress;
    var r, a := c.active.value, c.params.BlockAddress(c.active.value.addr);
    FilledEffect(c);
    SameHomed(FilledCache(c), c1);
    StartMissEffect(c1, view, r);
    FindsBlock(c, r.addr);
    FindsBlock(c1, r.addr);
    var c' := StartMiss(c1, view, r);
    if c'.failed.None? { SameLinesKeep(c1, c'); }
  }

  lemma {:induction false} SameHomed(c: Cache, c1: Cache)
    requires c1.params == c.params && c1.sets == c.sets
    ensures Homed(c) ==> Homed(c1)
    ensures SameResidents(c, c1) && forall r: Part :: TargetElsewhere(c1, r) <==> TargetElsewhere(c, r)
  {
    hide SetHome, FindWay;
  }

  /** The next request starts once the buffer is empty. */
  lemma {:induction false} NextStarts(c: Cache, c1: Cache, view: View, hist: seq<Orig>)
    requires Structure(c, hist) && OneProcessor(hist) && Housed(c) && Awaiting(c).Some? && InBuffer(c)
    requires LineAt(c, Working(c).value.target.value).Some?
    requires c.active.None? && c.buffer.value.notified && c.failed.None? && c.lower == []
    requires c1 == FilledCache(c).(buffer := None) && Agrees(FilledCache(c), view)
    ensures var c' := StartNextRequest(c1, view); Excused(c', hist) && !Lost(c') && (c'.failed.None? ==> Refilled(c, c'))
  {
    hide SetHome, StartNextRequest, FindWay, WorkOk,
      Params.TagOf, Params.SetIndex, Params.BlockAddress, Params.VictimAddress;
    FilledEffect(c);
    SameHomed(FilledCache(c), c1);
    if Idle(c1) && c1.arrivals != [] {
      assert Structure(c1, hist);
      NextRequestEffect(c1, view, hist);
      var c' := StartNextRequest(c1, view);
      if c'.failed.None? { SameLinesKeep(c1, c'); }
    } else {
      NothingToStart(c1, view);
    }
  }

  /** The end of a buffered fill. */
  lemma {:induction false} BufferEffect(c: Cache, view: View, hist: seq<Orig>)
    requires Structure(c, hist) && OneProcessor(hist) && Housed(c) && Awaiting(c).Some? && InBuffer(c)
    requires LineAt(c, Working(c).value.target.value).Some? && c.failed.None? && c.lower == []
    requires Agrees(FilledCache(c), view)
    ensures var c' := BufferFilled(FilledCache(c), view);
            && (Excused(c', hist) || c'.failed == Some(GrantedOnMiss))
            && (c'.failed.None? ==> Refilled(c, c')) && (Lost(c') <==> ClashElsewhere(c))
  {
    hide Homed, StartMiss, StartNextRequest, FilledCache, TargetElsewhere, WorkOk, Agrees, Called;
    WorkIsOwner(c, hist);
    FilledEffect(c);
    var c2 := FilledCache(c);
    var c', c1 := BufferFilled(c2, view), c2.(buffer := None);
    SameHomed(c2, c1);
    if c.buffer.value.notified {
      if c.active.None? {
        NextStarts(c, c1, view, hist);
      } else if c.active.value.status == WaitingBuffer {
        ParkedStarts(c, c1, view);
      }
    } else {
      SameHomed(c2, c');
    }
  }

  /** The data is there: its block joins; a request that was parked, or the next one, may start. The
      request is lost exactly if it was parked for this very block and takes another way. */
  lemma {:induction false} FillEffect(c: Cache, view: View, hist: seq<Orig>)
    requires Structure(c, hist) && OneProcessor(hist) && Housed(c) && c.failed.None? && c.lower == [] && Awaiting(c).Some?
    requires forall b: Addr :: (b in view.held <==> Resident(c, b) || Some(b) == Awaiting(c))
                               && (b in view.owned <==> Resident(c, b) || Some(b) == Awaiting(c))
    ensures var c' := AccessEvent(c, view, DataRecv, 0, Awaiting(c).value);
            && (Excused(c', hist) || c'.failed == Some(GrantedOnMiss))
            && (c'.failed.None? ==> Refilled(c, c'))
            && (c'.failed != Some(SequenceExhausted) ==> (Lost(c') <==> ClashElsewhere(c)))
  {
    hide Homed, AccessEvent, BufferFilled, FilledCache, TargetElsewhere, WorkOk;
    WorkHasLine(c);
    DataReaches(c, view, hist);
    WorkIsOwner(c, hist);
    FilledEffect(c);
    if !Stamp(c, true).0.failed.Some? && InBuffer(c) {
      BufferEffect(c, view, hist);
    }
  }
}
