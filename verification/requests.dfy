/** teamCache's requests, in both write-buffer modes and whatever coherence answers: arrival order,
    exactly one callback, one owner each, and no assertion of the source can fail. */
module Requests {
  import opened Protocol
  import opened Bits
  import opened Geometry
  import opened Replacement
  import opened Split
  import opened TeamCache

  ghost predicate Sized(c: Cache) {
    && c.params.E >= 1 && |c.sets| == c.params.S()
    && forall k :: 0 <= k < |c.sets| ==> |c.sets[k]| == c.params.E
  }

  ghost function Ids(hist: seq<Orig>): seq<Done> {
    seq(|hist|, i requires 0 <= i < |hist| => Done(hist[i].proc, hist[i].tag))
  }

  /** One if a request is between its start and its callback. */
  ghost function Started(c: Cache): nat { if c.completion.Some? then 1 else 0 }

  /** Called back, started, waiting: together the accepted requests, in order of arrival. */
  ghost predicate InOrder(c: Cache, hist: seq<Orig>) {
    && |c.calls| + Started(c) + |c.arrivals| == |hist|
    && c.calls == Ids(hist[..|c.calls|])
    && c.arrivals == hist[|c.calls| + Started(c)..]
  }

  ghost predicate SamePart(r: Part, q: Part) {
    r == q.(status := r.status, target := r.target, victim := r.victim)
  }

  /** r is the block that counts next for the started request, the blocks after it are queued. */
  ghost predicate Current(c: Cache, hist: seq<Orig>, r: Part) {
    && |c.calls| < |hist| && c.completion.Some?
    && var o, n := hist[|c.calls|], c.completion.value;
       && InRange(o.op)
       && n.proc == o.proc && n.tag == o.tag && n.total == PartCount(c.params, o.op) && n.completed < n.total
       && SamePart(r, MakePart(c.params, o.op, o.proc, o.tag, n.completed))
       && c.queue == Parts(c.params, o.op, o.proc, o.tag)[n.completed + 1..]
  }

  /** A request waiting for a flush points to a valid line, one waiting for data to an invalid one. */
  ghost predicate TargetOk(c: Cache, r: Part) {
    (r.status == WaitingEviction || r.status == WaitingData) ==>
      r.target.Some? && LineAt(c, r.target.value).Some?
      && (LineAt(c, r.target.value).value.valid <==> r.status == WaitingEviction)
  }

  ghost predicate Waiting(r: Part) { r.status == WaitingEviction || r.status == WaitingData }

  /** The started request belongs to the active slot, or to a buffer the processor does not know of. */
  ghost predicate OneOwner(c: Cache, hist: seq<Orig>) {
    && (c.completion.None? ==> c.active.None? && c.queue == [])
    && (c.active.Some? ==> Current(c, hist, c.active.value))
    && (c.active.None? && c.completion.Some? ==> c.buffer.Some? && !c.buffer.value.notified)
  }

  /** With the buffer occupied, the foreground is absent, waits for the buffer, or is ready. */
  ghost predicate Exclusive(c: Cache, hist: seq<Orig>) {
    match c.buffer
    case None => c.active.Some? ==> (Waiting(c.active.value) || c.active.value.status == Ready)
    case Some(b) =>
      && c.params.mode == 1 && b.request.kind == Store
      && (c.active.Some? ==> c.active.value.status == WaitingBuffer || c.active.value.status == Ready)
      && (!b.notified ==> c.active.None? && Current(c, hist, b.request) && c.completion.value.total == 1)
      && (if b.dataComplete then !b.notified && b.request.status == Ready else Waiting(b.request))
  }

  ghost predicate Structure(c: Cache, hist: seq<Orig>) {
    && Sized(c) && InOrder(c, hist) && OneOwner(c, hist) && Exclusive(c, hist)
    && (c.active.Some? ==> TargetOk(c, c.active.value))
    && (c.buffer.Some? ==> TargetOk(c, c.buffer.value.request))
  }

  /** The ways a run can stop that depend on what it is given. */
  ghost predicate Excusable(f: Option<Failure>) {
    f.None? || f.value == InvalidRequest || f.value == RangeOverflow || f.value == SequenceExhausted
    || f.value == GrantedOnMiss || f.value == UnsupportedEvent || f.value == UnmatchedEviction || f.value == UnmatchedData
  }

  ghost predicate Inv(c: Cache, hist: seq<Orig>) {
    Excusable(c.failed) && (c.failed.None? ==> Structure(c, hist))
  }

  /* Everything but lines, the two slots and the calls to coherence is left alone. */
  ghost predicate SameRest(c: Cache, c': Cache) {
    c' == c.(sets := c'.sets, active := c'.active, buffer := c'.buffer, failed := c'.failed, lower := c'.lower)
  }

  /** What a miss does to its set and to its request: the target's way, and whether a flush is needed. */
  ghost function Missed(c: Cache, view: View, r: Part): (seq<Line>, Part)
    requires SetAt(c, c.params.SetIndex(r.addr)) != []
  {
    var k := c.params.SetIndex(r.addr);
    var (lines, way) := Target(c.params, SetAt(c, k));
    var r1 := r.(target := Some(Loc(k, way)));
    var victim := c.params.VictimAddress(lines[way].tag, k);
    if !lines[way].valid then (lines, r1.(status := WaitingData))
    else if victim in view.held then (lines, r1.(victim := victim, status := WaitingEviction))
    else (lines[way := lines[way].(valid := false)], r1.(victim := victim, status := WaitingData))
  }

  /** The calls to coherence that a miss makes. */
  ghost function MissCalls(c: Cache, view: View, r: Part): seq<LowerCall>
    requires SetAt(c, c.params.SetIndex(r.addr)) != []
  {
    var (lines, way) := Target(c.params, SetAt(c, c.params.SetIndex(r.addr)));
    var victim := c.params.VictimAddress(lines[way].tag, c.params.SetIndex(r.addr));
    (if lines[way].valid then [InvlReq(victim, r.proc)] else [])
    + (if lines[way].valid && victim in view.held then [] else [PermReq(c.params.BlockAddress(r.addr), r.proc)])
  }

  lemma {:induction false} EvictVictimIs(c: Cache, view: View, background: bool, r: Part, l: Loc, victim: nat)
    requires r.target == Some(l) && LineAt(c, l).Some? && LineAt(c, l).value.valid
    requires c.failed.None? && (background ==> c.buffer.Some?)
    ensures var flush := victim in view.held;
            var c1 := if flush then c else WithLine(c, l, LineAt(c, l).value.(valid := false));
            var r' := r.(victim := victim, status := if flush then WaitingEviction else WaitingData);
            var c', a := EvictVictim(c, view, background, r, victim), c.params.BlockAddress(r.addr);
            && c' == PutBack(c1, background, r').(lower := c'.lower, failed := c'.failed)
            && (c'.failed == if !flush && a in view.owned then Some(GrantedOnMiss) else None)
            && c'.lower == c.lower + [InvlReq(victim, r.proc)] + if flush then [] else [PermReq(a, r.proc)]
  {
    hide Params.BlockAddress;
  }

  lemma {:induction false} EvictThenFetchIs(c: Cache, view: View, background: bool, r: Part)
    requires SetAt(c, c.params.SetIndex(r.addr)) != [] && c.failed.None? && (background ==> c.buffer.Some?)
    ensures var (lines, r') := Missed(c, view, r);
            var c', k, a := EvictThenFetch(c, view, background, r), c.params.SetIndex(r.addr), c.params.BlockAddress(r.addr);
            && c' == PutBack(WithSet(c, k, lines), background, r').(lower := c'.lower, failed := c'.failed)
            && (c'.failed == if r'.status == WaitingData && a in view.owned then Some(GrantedOnMiss) else None)
            && c'.lower == c.lower + MissCalls(c, view, r)
  {
    hide Target, Params.VictimAddress, Params.TagOf, Params.SetIndex, Params.BlockAddress, EvictVictim;
    var k := c.params.SetIndex(r.addr);
    var (lines, way) := Target(c.params, SetAt(c, k));
    if lines[way].valid {
      var c1, l := WithSet(c, k, lines), Loc(k, way);
      EvictVictimIs(c1, view, background, r.(target := Some(l)), l, c.params.VictimAddress(lines[way].tag, k));
    }
  }

  /** Starting a miss: the request ends up waiting, for a flush or for data, in the slot it was in. */
  lemma {:induction false} EvictThenFetchKept(c: Cache, view: View, background: bool, r: Part)
    requires Sized(c) && c.failed.None? && c.params.SetIndex(r.addr) < |c.sets|
    requires background ==> c.buffer.Some?
    ensures var c' := EvictThenFetch(c, view, background, r);
            && SameRest(c, c') && Sized(c')
            && (c'.failed.None? || c'.failed == Some(GrantedOnMiss))
            && Owner(c', background).Some? && var r' := Owner(c', background).value;
               && SamePart(r', r) && Waiting(r') && TargetOk(c', r')
               && (if background then c'.active == c.active && c'.buffer == Some(c.buffer.value.(request := r'))
                   else c'.buffer == c.buffer)
  {
    EvictThenFetchIs(c, view, background, r);
  }

  /** An occupied buffer whose store the processor knows of and whose data is still to come. */
  ghost predicate BufferBusy(c: Cache) {
    c.buffer.Some? ==>
      c.params.mode == 1 && c.buffer.value.request.kind == Store && c.buffer.value.notified && !c.buffer.value.dataComplete
      && Waiting(c.buffer.value.request) && TargetOk(c, c.buffer.value.request)
  }

  lemma {:induction false} StartMissKept(c: Cache, view: View, r: Part, hist: seq<Orig>)
    requires Sized(c) && InOrder(c, hist) && c.failed.None? && c.active.Some?
    requires Current(c, hist, r) && BufferBusy(c)
    ensures Inv(StartMiss(c, view, r), hist)
  {
    if c.buffer.None? {
      if Eligible(c, r) {
        EvictThenFetchKept(c.(buffer := Some(Buffer(r, false, false)), active := None), view, true, r);
      } else {
        EvictThenFetchKept(c, view, false, r);
      }
    }
  }

  /** The started request's next block is at the head of the queue. */
  ghost predicate NextBlock(c: Cache, hist: seq<Orig>) {
    && |c.calls| < |hist| && c.completion.Some? && c.active.None?
    && var o, n := hist[|c.calls|], c.completion.value;
       && InRange(o.op)
       && n.proc == o.proc && n.tag == o.tag && n.total == PartCount(c.params, o.op) && n.completed < n.total
       && c.queue == Parts(c.params, o.op, o.proc, o.tag)[n.completed..]
  }

  lemma {:induction false} HitIs(c: Cache, l: Loc, r: Part)
    requires c.failed.None? && LineAt(c, l).Some?
    ensures var c' := Hit(c, l, r);
            var (c1, stamp) := Stamp(c, false);
            if c1.failed.Some? then c' == c1 && c1.failed == Some(SequenceExhausted)
            else c' == c.(sets := c.sets[l.set_ := c.sets[l.set_][l.way :=
                                     Dirtied(LineAt(c, l).value.(stamp := stamp), r.kind)]],
                          sequence := c1.sequence, active := Some(r.(status := Ready)),
                          accesses := c.accesses + [c.params.BlockAddress(r.addr)], hits := c.hits + 1)
  {}

  /** A hit writes one line: RRIP's value becomes 0 and an LRU stamp the newest, a store makes the line
      dirty, and block and validity stay. */
  lemma {:induction false} HitWrites(c: Cache, l: Loc, r: Part)
    requires c.failed.None? && LineAt(c, l).Some?
    ensures var c', line := Hit(c, l, r), LineAt(c, l).value;
            && (c'.failed.None? <==> c.params.policy == Rrip || c.sequence != WORD - 1)
            && (c'.failed.None? ==>
                  && LineAt(c', l) == Some(Line(line.valid, line.tag, if c.params.policy == Rrip then 0 else c.sequence + 1,
                                                line.dirty || r.kind == Store))
                  && (forall m: Loc :: m != l ==> LineAt(c', m) == LineAt(c, m))
                  && c'.sequence == (if c.params.policy == Rrip then c.sequence else c.sequence + 1))
  {}

  lemma {:induction false} HitKept(c: Cache, l: Loc, r: Part, hist: seq<Orig>)
    requires Sized(c) && InOrder(c, hist) && c.failed.None? && c.active.Some? && Current(c, hist, r) && BufferBusy(c)
    requires LineAt(c, l).Some? && LineAt(c, l).value.valid
    ensures Inv(Hit(c, l, r), hist)
  {
    HitIs(c, l, r);
  }

  lemma {:induction false} StartNextBlockKept(c: Cache, view: View, hist: seq<Orig>)
    requires Sized(c) && InOrder(c, hist) && c.failed.None? && NextBlock(c, hist) && BufferBusy(c)
    ensures Inv(StartNextBlock(c, view), hist)
  {
    var r := c.queue[0].(status := WaitingData);
    var c1 := c.(queue := c.queue[1..], active := Some(r));
    assert Current(c1, hist, r);
    var k := c.params.SetIndex(r.addr);
    match FindWay(SetAt(c, k), c.params.TagOf(r.addr))
    case Some(way) => HitKept(c1, Loc(k, way), r, hist);
    case None => StartMissKept(c1, view, r, hist);
  }

  lemma {:induction false} StartNextRequestKept(c: Cache, view: View, hist: seq<Orig>)
    requires Structure(c, hist) && c.failed.None? && BufferBusy(c)
    ensures Inv(StartNextRequest(c, view), hist)
  {
    if Idle(c) && c.arrivals != [] {
      var o := c.arrivals[0];
      var c0 := c.(arrivals := c.arrivals[1..]);
      assert hist[|c.calls|] == o;
      if InRange(o.op) {
        var c1 := Prepare(c0, o);
        assert c1.arrivals == hist[|c.calls| + 1..];
        assert NextBlock(c1, hist);
        StartNextBlockKept(c1, view, hist);
      }
    }
  }

  /** A request cannot be started exactly if its last byte has no 64-bit address. */
  lemma {:induction false} OverflowExactly(c: Cache, view: View)
    requires c.failed.None? && Idle(c) && c.arrivals != [] && c.arrivals[0].op.size > 0
    ensures var op := c.arrivals[0].op;
            StartNextRequest(c, view).failed == Some(RangeOverflow)
            <==> op.addr + op.size - 1 >= 0x1_0000_0000_0000_0000
  {
    hide StartNextBlock, Parts;
    var o := c.arrivals[0];
    var c0 := c.(arrivals := c.arrivals[1..]);
    if InRange(o.op) { BlockNeverOverflows(Prepare(c0, o), view); }
  }

  lemma {:induction false} BlockNeverOverflows(c: Cache, view: View)
    requires c.failed.None?
    ensures StartNextBlock(c, view).failed != Some(RangeOverflow)
  {
    hide EvictThenFetch, Params.SetIndex, Params.TagOf, Params.BlockAddress;
    forall d: Cache, background, r | d.failed.None?
      ensures EvictThenFetch(d, view, background, r).failed != Some(RangeOverflow)
    {
      FetchNeverOverflows(d, view, background, r);
    }
  }

  lemma {:induction false} FetchNeverOverflows(c: Cache, view: View, background: bool, r: Part)
    requires c.failed.None?
    ensures EvictThenFetch(c, view, background, r).failed != Some(RangeOverflow)
  {
    hide Target, Params.SetIndex, Params.TagOf, Params.VictimAddress, Params.BlockAddress;
  }

  /** Counting a block: no assertion fails, and the request is done exactly with its last block. */
  lemma {:induction false} CompleteOneKept(c: Cache, r: Part, hist: seq<Orig>)
    requires Current(c, hist, r) && c.failed.None?
    ensures var (c', done) := CompleteOne(c, r);
            var n := c.completion.value;
            && c'.failed.None? && (done <==> n.completed + 1 == n.total)
            && c' == c.(completion := if done then None else Some(n.(completed := n.completed + 1)))
            && (done ==> c.queue == [])
  {}

  /** A callback hands the started request over to the history. */
  lemma {:induction false} CalledBack(c: Cache, hist: seq<Orig>, d: Done)
    requires InOrder(c, hist) && c.completion.Some? && |c.calls| < |hist|
    requires d == Done(hist[|c.calls|].proc, hist[|c.calls|].tag)
    ensures InOrder(c.(completion := None, calls := c.calls + [d]), hist)
  {}

  lemma {:induction false} RetireKept(c: Cache, view: View, hist: seq<Orig>)
    requires Structure(c, hist) && c.failed.None? && c.buffer.None? && c.active.Some? && c.active.value.status == Ready
    ensures Inv(Retire(c, view, c.active.value), hist)
  {
    var r := c.active.value;
    var c0 := c.(active := None);
    assert Current(c0, hist, r);
    CompleteOneKept(c0, r, hist);
    var (c1, done) := CompleteOne(c0, r);
    if done {
      CalledBack(c0, hist, Done(r.proc, r.tag));
    } else {
      assert NextBlock(c1, hist);
      StartNextBlockKept(c1, view, hist);
    }
  }

  /** The state after the callback of a buffered store. */
  ghost function Acknowledged(c: Cache): Cache
    requires c.buffer.Some?
  {
    var b := c.buffer.value;
    c.(completion := None, buffer := if b.dataComplete then None else Some(b.(notified := true)),
       calls := c.calls + [Done(b.request.proc, b.request.tag)])
  }

  lemma {:induction false} AcknowledgedIs(c: Cache, view: View, hist: seq<Orig>)
    requires Structure(c, hist) && c.failed.None? && c.buffer.Some? && !c.buffer.value.notified
    ensures Acknowledge(c, view) ==
            if c.buffer.value.dataComplete then StartNextRequest(Acknowledged(c), view) else Acknowledged(c)
    ensures Structure(Acknowledged(c), hist)
  {
    var b := c.buffer.value;
    CompleteOneKept(c, b.request, hist);
    CalledBack(c, hist, Done(b.request.proc, b.request.tag));
    assert c.queue == [];
  }

  lemma {:induction false} AcknowledgeKept(c: Cache, view: View, hist: seq<Orig>)
    requires Structure(c, hist) && c.failed.None? && c.buffer.Some? && !c.buffer.value.notified
    ensures Inv(Acknowledge(c, view), hist)
  {
    AcknowledgedIs(c, view, hist);
    if c.buffer.value.dataComplete {
      StartNextRequestKept(Acknowledged(c), view, hist);
    }
  }

  lemma {:induction false} TickKept(c: Cache, view: View, hist: seq<Orig>)
    requires Structure(c, hist) && c.failed.None?
    ensures Inv(AccessTick(c, view), hist)
  {
    if c.buffer.Some? && !c.buffer.value.notified {
      AcknowledgeKept(c, view, hist);
    } else if c.buffer.None? && c.active.Some? && c.active.value.status == Ready {
      RetireKept(c, view, hist);
    } else {
      StartNextRequestKept(c, view, hist);
    }
  }

  lemma {:induction false} FlushedIs(c: Cache, view: View, background: bool, r: Part)
    requires c.failed.None? && r.status == WaitingEviction && (background ==> c.buffer.Some?)
    requires r.target.Some? && LineAt(c, r.target.value).Some? && LineAt(c, r.target.value).value.valid
    ensures EvictionComplete(c, r).failed.None?
    ensures var l, c' := r.target.value, Fetch(EvictionComplete(c, r), view, background, r);
            && c' == PutBack(c.(sets := c.sets[l.set_ := c.sets[l.set_][l.way := c.sets[l.set_][l.way].(valid := false)]]),
                             background, r.(status := WaitingData)).(lower := c'.lower, failed := c'.failed)
            && (c'.failed == if c.params.BlockAddress(r.addr) in view.owned then Some(GrantedOnMiss) else None)
            && c'.lower == c.lower + [PermReq(c.params.BlockAddress(r.addr), r.proc)]
  {}

  /** The answer to a flush: the victim's line is given up and the data asked for. */
  lemma {:induction false} FlushedKept(c: Cache, view: View, background: bool, hist: seq<Orig>)
    requires Structure(c, hist) && c.failed.None?
    requires Owner(c, background).Some? && Owner(c, background).value.status == WaitingEviction
    ensures var r := Owner(c, background).value;
            Inv(Fetch(EvictionComplete(c, r), view, background, r), hist) && EvictionComplete(c, r).failed.None?
  {
    var r := Owner(c, background).value;
    FlushedIs(c, view, background, r);
    var c' := Fetch(EvictionComplete(c, r), view, background, r);
    assert Sized(c') && InOrder(c', hist);
  }

  /** What a fill does before a buffered request's end is looked at. */
  ghost function FilledLine(c: Cache, background: bool, r: Part, l: Loc, a: nat): Cache
    requires LineAt(c, l).Some?
  {
    var (c1, stamp) := Stamp(c, true);
    var line := Dirtied(Line(true, c.params.TagOf(a), stamp, false), r.kind);
    PutBack(c.(sets := c.sets[l.set_ := c.sets[l.set_][l.way := line]], sequence := c1.sequence,
               accesses := c.accesses + [a]), background, r.(status := Ready))
  }

  lemma {:induction false} FilledIs(c: Cache, view: View, background: bool, r: Part, l: Loc, a: nat)
    requires c.failed.None? && LineAt(c, l).Some?
    ensures var c', stamped := Filled(c, view, background, r, l, a), Stamp(c, true).0;
            if stamped.failed.Some? then c' == stamped && stamped.failed == Some(SequenceExhausted)
            else if background then c' == BufferFilled(FilledLine(c, background, r, l, a), view)
            else c' == FilledLine(c, background, r, l, a)
  {}

  /** A fill writes one line: valid, with the block's tag, RRIP's value one below the maximum or the newest
      LRU stamp, and dirty exactly for a store. */
  lemma {:induction false} FillWrites(c: Cache, background: bool, r: Part, l: Loc, a: nat)
    requires c.failed.None? && LineAt(c, l).Some? && c.params.rripBits >= 1
    requires c.params.policy == Rrip || c.sequence < WORD - 1
    ensures var c' := FilledLine(c, background, r, l, a);
            && c'.failed.None?
            && LineAt(c', l) == Some(Line(true, c.params.TagOf(a),
                                          if c.params.policy == Rrip then c.params.RripMax() - 1 else c.sequence + 1,
                                          r.kind == Store))
            && (forall m: Loc :: m != l ==> LineAt(c', m) == LineAt(c, m))
            && c'.sequence == (if c.params.policy == Rrip then c.sequence else c.sequence + 1)
  {
    RripMaxIs(c.params);
  }

  lemma {:induction false} FilledKept(c: Cache, view: View, background: bool, a: nat, hist: seq<Orig>)
    requires Structure(c, hist) && c.failed.None?
    requires Owner(c, background).Some? && Owner(c, background).value.status == WaitingData
    ensures var r := Owner(c, background).value;
            Inv(Filled(c, view, background, r, r.target.value, a), hist)
  {
    hide FilledLine, Filled, BufferFilled, InOrder, OneOwner, Sized, Current;
    var r := Owner(c, background).value;
    FilledIs(c, view, background, r, r.target.value, a);
    FilledRest(c, background, r, r.target.value, a);
    if !Stamp(c, true).0.failed.Some? {
      var c2 := FilledLine(c, background, r, r.target.value, a);
      if background { BackgroundFilled(c, c2, view, hist); } else { ForegroundFilled(c, c2, hist); }
    }
  }

  /** A fill leaves everything alone but the lines, the stamps, the accesses and its own slot. */
  lemma {:induction false} FilledRest(c: Cache, background: bool, r: Part, l: Loc, a: nat)
    requires LineAt(c, l).Some? && Sized(c) && (background ==> c.buffer.Some?)
    ensures var c', r' := FilledLine(c, background, r, l, a), r.(status := Ready);
            && c' == c.(sets := c'.sets, sequence := c'.sequence, accesses := c'.accesses,
                        active := if background then c.active else Some(r'),
                        buffer := if background then Some(c.buffer.value.(request := r')) else c.buffer)
            && Sized(c')
  {}

  lemma {:induction false} ForegroundFilled(c: Cache, c': Cache, hist: seq<Orig>)
    requires Structure(c, hist) && c.active.Some? && c.active.value.status == WaitingData && c.failed.None? && Sized(c')
    requires c' == c.(sets := c'.sets, sequence := c'.sequence, accesses := c'.accesses,
                      active := Some(c.active.value.(status := Ready)))
    ensures Structure(c', hist)
  {
    assert Current(c', hist, c'.active.value);
  }

  lemma {:induction false} BackgroundFilled(c: Cache, c': Cache, view: View, hist: seq<Orig>)
    requires Structure(c, hist) && c.buffer.Some? && c.buffer.value.request.status == WaitingData
    requires c.failed.None? && Sized(c')
    requires c' == c.(sets := c'.sets, sequence := c'.sequence, accesses := c'.accesses,
                      buffer := Some(c.buffer.value.(request := c.buffer.value.request.(status := Ready))))
    ensures Inv(BufferFilled(c', view), hist)
  {
    BufferFilledKept(c', view, hist);
  }

  lemma {:induction false} BufferFilledKept(c: Cache, view: View, hist: seq<Orig>)
    requires Sized(c) && InOrder(c, hist) && OneOwner(c, hist) && c.failed.None?
    requires c.buffer.Some? && !c.buffer.value.dataComplete && c.buffer.value.request.status == Ready
    requires c.params.mode == 1 && c.buffer.value.request.kind == Store
    requires c.active.Some? ==> c.active.value.status == WaitingBuffer || c.active.value.status == Ready
    requires !c.buffer.value.notified ==>
               c.active.None? && Current(c, hist, c.buffer.value.request) && c.completion.value.total == 1
    ensures Inv(BufferFilled(c, view), hist)
  {
    if c.buffer.value.notified {
      var c1 := c.(buffer := None);
      if c.active.Some? {
        if c.active.value.status == WaitingBuffer { StartMissKept(c1, view, c.active.value, hist); }
      } else {
        StartNextRequestKept(c1, view, hist);
      }
    }
  }

  lemma {:induction false} EventKept(c: Cache, view: View, act: Action, proc: int, a: Addr, hist: seq<Orig>)
    requires Structure(c, hist) && c.failed.None?
    ensures Inv(AccessEvent(c, view, act, proc, a), hist)
  {
    hide Sized, InOrder, OneOwner, Current, DataEvent;
    var foreground := WaitsForFlush(c.active, proc, a);
    var background := WaitsForFlush(Owner(c, true), proc, a);
    if foreground || background {
      FlushedKept(c, view, background, hist);
    }
    DataEventKept(c, view, proc, a, hist);
  }

  lemma {:induction false} DataEventKept(c: Cache, view: View, proc: int, a: Addr, hist: seq<Orig>)
    requires Structure(c, hist) && c.failed.None?
    ensures Inv(DataEvent(c, view, proc, a), hist)
  {
    var foreground := WaitsForData(c.params, c.active, proc, a);
    var background := WaitsForData(c.params, Owner(c, true), proc, a);
    if foreground || background {
      FilledKept(c, view, background, a, hist);
    }
  }

  ghost predicate Accepted(o: Orig) { o.proc >= 0 && o.op.kind != NotMemory && o.op.size > 0 }

  lemma {:induction false} ArriveKept(c: Cache, o: Orig, hist: seq<Orig>)
    requires Structure(c, hist) && c.failed.None?
    ensures Inv(AccessRequest(c, o), if Accepted(o) then hist + [o] else hist)
  {}

  /* Whole runs. */

  ghost function After(c: Cache, inputs: seq<Input>): Cache {
    if inputs == [] then c else Step(After(c, inputs[..|inputs| - 1]), inputs[|inputs| - 1])
  }

  /** The requests a run accepted before it stopped. */
  ghost function History(c: Cache, inputs: seq<Input>): seq<Orig> {
    if inputs == [] then []
    else
      var before, i := inputs[..|inputs| - 1], inputs[|inputs| - 1];
      History(c, before) + (if After(c, before).failed.None? && i.Arrive? && Accepted(i.o) then [i.o] else [])
  }

  lemma {:induction false} StepKept(c: Cache, i: Input, hist: seq<Orig>)
    requires Inv(c, hist)
    ensures Inv(Step(c, i), if c.failed.None? && i.Arrive? && Accepted(i.o) then hist + [i.o] else hist)
  {
    if c.failed.None? {
      match i
      case Arrive(o) => ArriveKept(c, o, hist);
      case Event(view, act, proc, a) => EventKept(c, view, act, proc, a, hist);
      case Clock(view) => TickKept(c, view, hist);
    }
  }

  lemma {:induction false} RunKept(p: Params, inputs: seq<Input>)
    requires p.Valid()
    ensures Inv(After(InitialCache(p), inputs), History(InitialCache(p), inputs))
  {
    if inputs != [] {
      var before := inputs[..|inputs| - 1];
      RunKept(p, before);
      StepKept(After(InitialCache(p), before), inputs[|inputs| - 1], History(InitialCache(p), before));
      assert History(InitialCache(p), before) + [] == History(InitialCache(p), before);
    }
  }

  lemma {:induction false} RunParams(p: Params, inputs: seq<Input>)
    ensures After(InitialCache(p), inputs).params == p
  {
    if inputs != [] { RunParams(p, inputs[..|inputs| - 1]); }
  }

  lemma {:induction false} OrderOf(c: Cache, hist: seq<Orig>)
    requires InOrder(c, hist) && OneOwner(c, hist) && Exclusive(c, hist)
    ensures c.calls + (if c.completion.Some? then [Done(c.completion.value.proc, c.completion.value.tag)] else [])
            + Ids(c.arrivals) == Ids(hist)
  {}

  /** For both buffer modes and any answers of coherence: as long as the run has not stopped, the
      callbacks made, the started request and the waiting ones are the accepted requests in order of
      arrival, so callbacks come in that order and once each. */
  lemma {:induction false} CallbacksInArrivalOrder(p: Params, inputs: seq<Input>)
    requires p.Valid() && After(InitialCache(p), inputs).failed.None?
    ensures var c, hist := After(InitialCache(p), inputs), History(InitialCache(p), inputs);
            c.calls + (if c.completion.Some? then [Done(c.completion.value.proc, c.completion.value.tag)] else [])
            + Ids(c.arrivals) == Ids(hist)
  {
    RunKept(p, inputs);
    OrderOf(After(InitialCache(p), inputs), History(InitialCache(p), inputs));
  }

  /** The write buffer and the foreground never compete: whenever the buffer is occupied, which is only
      with a store and with the buffer turned on, the active request is absent, waits for the buffer, or
      is ready. So no event matches both, and neither an assertion nor the target check can fail. */
  lemma {:induction false} BufferIsExclusive(p: Params, inputs: seq<Input>)
    requires p.Valid()
    ensures var c := After(InitialCache(p), inputs);
            && c.failed != Some(TwoEvictions) && c.failed != Some(TwoFills)
            && c.failed != Some(TargetTaken) && c.failed != Some(AssertionFailed)
            && (c.failed.None? && c.buffer.Some? ==> c.params.mode == 1 && c.buffer.value.request.kind == Store)
            && (c.failed.None? && c.buffer.Some? && c.active.Some? ==>
                  c.active.value.status == WaitingBuffer || c.active.value.status == Ready)
  {
    RunKept(p, inputs);
  }
}
