/** Which misses go into the write buffer, what the buffer gains them, and what every other request
    still waits for. For both buffer modes and whatever coherence answers. */
module WriteBuffer {
  import opened Protocol
  import opened Bits
  import opened Geometry
  import opened Replacement
  import opened Split
  import opened TeamCache
  import opened Requests

  /** A miss that need not wait: the buffer is turned on, and it is the only block of a store. */
  ghost predicate OneBlockStore(c: Cache, r: Part) {
    c.params.mode == 1 && r.kind == Store && c.completion.Some? && c.completion.value.total == 1
  }

  /** With the buffer empty a miss goes into it exactly if it is the only block of a store and the buffer
      is turned on; otherwise it stays in the foreground. */
  lemma {:induction false} BuffersExactly(c: Cache, view: View, r: Part)
    requires Sized(c) && c.params.SetIndex(r.addr) < |c.sets| && c.failed.None? && c.buffer.None?
    requires c.completion.Some?
    ensures var c' := StartMiss(c, view, r);
            if c.params.mode == 1 && r.kind == Store && c.completion.value.total == 1 then
              c'.active.None? && c'.buffer.Some? && !c'.buffer.value.notified && !c'.buffer.value.dataComplete
              && SamePart(c'.buffer.value.request, r) && Waiting(c'.buffer.value.request)
            else c'.buffer.None? && c'.active.Some? && SamePart(c'.active.value, r) && Waiting(c'.active.value)
  {
    hide EvictThenFetch, Params.SetIndex;
    EvictThenFetchKept(c.(buffer := Some(Buffer(r, false, false)), active := None), view, true, r);
    EvictThenFetchKept(c, view, false, r);
  }

  /** A foreground request that waits could not have been buffered, and its target is in its own set. */
  ghost predicate RightlyWaits(c: Cache) {
    c.failed.None? && c.active.Some? && Waiting(c.active.value) ==>
      && !OneBlockStore(c, c.active.value)
      && c.active.value.target.Some? && c.active.value.target.value.set_ == c.params.SetIndex(c.active.value.addr)
  }

  lemma {:induction false} MissWaits(c: Cache, view: View, r: Part)
    requires Sized(c) && c.params.SetIndex(r.addr) < |c.sets| && c.failed.None? && c.active == Some(r) && c.completion.Some?
    ensures RightlyWaits(StartMiss(c, view, r))
    ensures StartMiss(c, view, r).active.Some? ==> StartMiss(c, view, r).active.value.status != Ready
    ensures StartMiss(c, view, r).calls == c.calls && StartMiss(c, view, r).completion == c.completion
  {
    hide Target, Params.SetIndex, Params.TagOf, Params.VictimAddress, Params.BlockAddress;
    if c.buffer.None? {
      EvictThenFetchIs(c.(buffer := Some(Buffer(r, false, false)), active := None), view, true, r);
      EvictThenFetchIs(c, view, false, r);
    }
  }

  /** The block of address a is in the cache. */
  ghost predicate Found(c: Cache, a: nat) {
    FindWay(SetAt(c, c.params.SetIndex(a)), c.params.TagOf(a)).Some?
  }

  /** What a step may do to the foreground: it becomes ready only with its block in the cache. */
  ghost predicate Moved(c: Cache, c': Cache) {
    c'.failed.None? ==>
      && RightlyWaits(c')
      && (c'.active.Some? && c'.active.value.status == Ready ==>
            c'.active == c.active || Found(c', c'.active.value.addr))
  }

  lemma {:induction false} HitMoves(c: Cache, l: Loc, r: Part)
    requires c.failed.None? && LineAt(c, l).Some? && LineAt(c, l).value.valid && c.active == Some(r)
    requires l.set_ == c.params.SetIndex(r.addr) && LineAt(c, l).value.tag == c.params.TagOf(r.addr)
    ensures Moved(c, Hit(c, l, r)) && Hit(c, l, r).calls == c.calls && Hit(c, l, r).completion == c.completion
  {
    hide Params.SetIndex, Params.TagOf, Params.BlockAddress;
    HitIs(c, l, r);
    var c' := Hit(c, l, r);
    if c'.failed.None? {
      var lines := c'.sets[l.set_];
      assert lines[l.way].valid && lines[l.way].tag == c.params.TagOf(r.addr);
    }
  }

  lemma {:induction false} BlockMoves(c: Cache, view: View)
    requires Sized(c) && c.failed.None? && c.active.None? && c.completion.Some?
    ensures Moved(c, StartNextBlock(c, view))
    ensures StartNextBlock(c, view).calls == c.calls && StartNextBlock(c, view).completion == c.completion
  {
    hide Hit, StartMiss, Params.TagOf;
    if c.queue != [] {
      var r := c.queue[0].(status := WaitingData);
      var c1 := c.(queue := c.queue[1..], active := Some(r));
      var k := c.params.SetIndex(r.addr);
      match FindWay(SetAt(c, k), c.params.TagOf(r.addr))
      case Some(way) => HitMoves(c1, Loc(k, way), r);
      case None => MissWaits(c1, view, r);
    }
  }

  /** The started request is the same or a new one, of which no block has been counted. */
  ghost predicate SameOrNew(c: Cache, c': Cache) {
    c'.completion == c.completion
    || (c.active.None? && c'.completion.Some? && c'.completion.value.completed == 0)
  }

  lemma {:induction false} RequestMoves(c: Cache, view: View)
    requires Sized(c) && c.failed.None? && RightlyWaits(c)
    ensures var c' := StartNextRequest(c, view); Moved(c, c') && c'.calls == c.calls && SameOrNew(c, c')
  {
    hide StartNextBlock, Parts, RightlyWaits;
    if Idle(c) && c.arrivals != [] {
      var c1 := Prepare(c.(arrivals := c.arrivals[1..]), c.arrivals[0]);
      if c1.failed.None? { BlockMoves(c1, view); }
    }
  }

  /** A callback is for a store in the buffer that the processor does not know of yet, at the very next
      tick, or for the last block of the foreground's request, which is ready. */
  ghost function CallbackOf(c: Cache, i: Input): seq<Done> {
    if c.failed.Some? || !i.Clock? then []
    else if c.buffer.Some? && !c.buffer.value.notified then
      [Done(c.buffer.value.request.proc, c.buffer.value.request.tag)]
    else if c.buffer.None? && c.active.Some? && c.active.value.status == Ready
            && c.completion.Some? && c.completion.value.completed + 1 == c.completion.value.total then
      [Done(c.active.value.proc, c.active.value.tag)]
    else []
  }

  /** The started request is a new one, or the same with the same blocks counted or the ready one added. */
  ghost predicate Counts(c: Cache, c': Cache) {
    c'.completion.Some? ==>
      || (c.active.None? && c'.completion.value.completed == 0)
      || (c'.calls == c.calls && c.completion.Some?
          && (c'.completion == c.completion
              || (c.active.Some? && c.active.value.status == Ready
                  && c'.completion == Some(c.completion.value.(completed := c.completion.value.completed + 1)))))
  }

  lemma {:induction false} TickMoves(c: Cache, view: View, hist: seq<Orig>)
    requires Structure(c, hist) && c.failed.None? && RightlyWaits(c)
    ensures var c' := AccessTick(c, view);
            Moved(c, c') && c'.calls == c.calls + CallbackOf(c, Clock(view)) && Counts(c, c')
  {
    hide StartNextRequest, StartNextBlock;
    if c.buffer.Some? && !c.buffer.value.notified {
      AcknowledgedIs(c, view, hist);
      RequestMoves(Acknowledged(c), view);
    } else if c.buffer.None? && c.active.Some? && c.active.value.status == Ready {
      var r := c.active.value;
      CompleteOneKept(c.(active := None), r, hist);
      var (c1, done) := CompleteOne(c.(active := None), r);
      if !done { BlockMoves(c1, view); }
    } else {
      RequestMoves(c, view);
    }
  }

  /** The end of a flush: the request goes on waiting. */
  lemma {:induction false} FlushMoves(c: Cache, view: View, background: bool, hist: seq<Orig>)
    requires Structure(c, hist) && c.failed.None? && RightlyWaits(c)
    requires Owner(c, background).Some? && Owner(c, background).value.status == WaitingEviction
    ensures var c' := Fetch(EvictionComplete(c, Owner(c, background).value), view, background, Owner(c, background).value);
            && Moved(c, c') && c'.calls == c.calls && c'.completion == c.completion
            && EvictionComplete(c, Owner(c, background).value).failed.None?
  {
    hide Params.SetIndex, Params.BlockAddress, Fetch, EvictionComplete;
    FlushedIs(c, view, background, Owner(c, background).value);
  }

  lemma {:induction false} FillMoves(c: Cache, view: View, background: bool, proc: int, a: nat, hist: seq<Orig>)
    requires Structure(c, hist) && c.failed.None? && RightlyWaits(c)
    requires WaitsForData(c.params, Owner(c, background), proc, a)
    ensures var r := Owner(c, background).value;
            && r.target.Some?
            && var c' := Filled(c, view, background, r, r.target.value, a);
               Moved(c, c') && c'.calls == c.calls && SameOrNew(c, c')
  {
    hide Found, Filled, StartMiss, BufferFilled, Requests.InOrder, Params.SetIndex, Params.TagOf, Params.BlockAddress;
    var r := Owner(c, background).value;
    var l := r.target.value;
    FilledIs(c, view, background, r, l, a);
    if !Stamp(c, true).0.failed.Some? {
      var c2 := FilledLine(c, background, r, l, a);
      assert Sized(c2) && c2.failed.None? && c2.calls == c.calls;
      if background {
        BufferMoves(c2, view);
      } else {
        FilledIsFound(c, r, l, a);
      }
    }
  }

  lemma {:induction false} BufferMoves(c: Cache, view: View)
    requires Sized(c) && c.failed.None? && c.buffer.Some?
    requires c.active.Some? ==> c.completion.Some? && !Waiting(c.active.value)
    ensures var c' := BufferFilled(c, view); Moved(c, c') && c'.calls == c.calls && SameOrNew(c, c')
  {
    hide StartMiss, StartNextRequest, Params.TagOf;
    if c.buffer.value.notified {
      if c.active.Some? && c.active.value.status == WaitingBuffer {
        MissWaits(c.(buffer := None), view, c.active.value);
      } else if c.active.None? {
        RequestMoves(c.(buffer := None), view);
      }
    }
  }

  lemma {:induction false} FilledIsFound(c: Cache, r: Part, l: Loc, a: nat)
    requires l.set_ == c.params.SetIndex(r.addr) && LineAt(c, l).Some? && a == c.params.BlockAddress(r.addr)
    ensures Found(FilledLine(c, false, r, l, a), r.addr)
  {
    hide Params.SetIndex, Params.TagOf, Params.BlockAddress;
    SameBlock(c.params, r.addr);
    var lines := FilledLine(c, false, r, l, a).sets[l.set_];
    assert lines[l.way].valid && lines[l.way].tag == c.params.TagOf(r.addr);
  }

  lemma {:induction false} SameBlock(p: Params, a: nat)
    ensures p.SetIndex(p.BlockAddress(a)) == p.SetIndex(a) && p.TagOf(p.BlockAddress(a)) == p.TagOf(a)
  {
    BlockAddressIs(p, a);
  }

  lemma {:induction false} StepMoves(c: Cache, i: Input, hist: seq<Orig>)
    requires Structure(c, hist) && c.failed.None? && RightlyWaits(c)
    ensures var c' := Step(c, i); Moved(c, c') && c'.calls == c.calls + CallbackOf(c, i) && Counts(c, c')
  {
    hide RightlyWaits, Moved, AccessTick, Filled, Fetch, EvictionComplete, Sized, Requests.InOrder, OneOwner;
    match i
    case Arrive(o) => SameSlots(c, Step(c, i));
    case Clock(view) => TickMoves(c, view, hist);
    case Event(view, act, proc, a) => EventMoves(c, view, act, proc, a, hist);
  }

  lemma {:induction false} SameSlots(c: Cache, c': Cache)
    requires RightlyWaits(c) && c.failed.None?
    requires c'.params == c.params && c'.active == c.active && c'.completion == c.completion
    ensures Moved(c, c')
  {}

  lemma {:induction false} EventMoves(c: Cache, view: View, act: Action, proc: int, a: Addr, hist: seq<Orig>)
    requires Structure(c, hist) && c.failed.None? && RightlyWaits(c)
    ensures var c' := AccessEvent(c, view, act, proc, a); Moved(c, c') && c'.calls == c.calls && SameOrNew(c, c')
  {
    hide RightlyWaits, Moved, Filled, Fetch, EvictionComplete, Sized, Requests.InOrder, OneOwner, Params.BlockAddress;
    var foreground := WaitsForFlush(c.active, proc, a);
    var background := WaitsForFlush(Owner(c, true), proc, a);
    if foreground || background { FlushMoves(c, view, background, hist); }
    if WaitsForData(c.params, c.active, proc, a) && a >= 0 { FillMoves(c, view, false, proc, a, hist); }
    else if WaitsForData(c.params, Owner(c, true), proc, a) && a >= 0 { FillMoves(c, view, true, proc, a, hist); }
    SameSlots(c, c);
    FailedMoves(c, AccessEvent(c, view, act, proc, a));
  }

  lemma {:induction false} FailedMoves(c: Cache, c': Cache)
    ensures c'.failed.Some? ==> Moved(c, c')
  {}

  /* Whole runs. */

  lemma {:induction false} RunMoves(p: Params, inputs: seq<Input>)
    requires p.Valid()
    ensures RightlyWaits(After(InitialCache(p), inputs))
  {
    hide Inv, RightlyWaits, Step;
    if inputs == [] {
      StartsRightly(p);
    } else {
      var before := inputs[..|inputs| - 1];
      RunMoves(p, before);
      RunKept(p, before);
      NextMoves(After(InitialCache(p), before), inputs[|inputs| - 1], History(InitialCache(p), before));
    }
  }

  lemma {:induction false} StartsRightly(p: Params)
    ensures RightlyWaits(InitialCache(p))
  {}

  lemma {:induction false} NextMoves(c: Cache, i: Input, hist: seq<Orig>)
    requires Inv(c, hist) && RightlyWaits(c)
    ensures RightlyWaits(Step(c, i)) && (c.failed.None? ==> Moved(c, Step(c, i)) && Counts(c, Step(c, i)))
    ensures Step(c, i).calls == c.calls + CallbackOf(c, i)
  {
    hide Structure, AccessTick, AccessEvent;
    if c.failed.None? { StepMoves(c, i, hist); }
  }

  /** The block that is worked on for the started request. */
  ghost function UnderWay(c: Cache): Option<Part> {
    if c.active.Some? then c.active else if c.buffer.Some? && !c.buffer.value.notified then Owner(c, true) else None
  }

  /** With the buffer turned on, a store of one block that has missed and is not parked behind the buffer
      is called back by the very next tick, whatever coherence answers, and long before its data. */
  lemma {:induction false} StoreMissAnswered(p: Params, inputs: seq<Input>, view: View)
    requires p.Valid() && p.mode == 1
    requires var c := After(InitialCache(p), inputs);
             && c.failed.None? && c.completion.Some? && c.completion.value.total == 1
             && UnderWay(c).Some? && UnderWay(c).value.kind == Store && Waiting(UnderWay(c).value)
    ensures var c := After(InitialCache(p), inputs);
            Step(c, Clock(view)).calls == c.calls + [Done(c.completion.value.proc, c.completion.value.tag)]
  {
    var c, hist := After(InitialCache(p), inputs), History(InitialCache(p), inputs);
    RunKept(p, inputs);
    RunMoves(p, inputs);
    RunParams(p, inputs);
    NextMoves(c, Clock(view), hist);
  }

  /** At some moment of the run, up to now, the block q was in the foreground, ready, and in the cache. */
  ghost predicate WasFound(p: Params, inputs: seq<Input>, q: Part) {
    exists m :: 0 <= m <= |inputs| && FoundAt(After(InitialCache(p), inputs[..m]), q)
  }

  ghost predicate FoundAt(c: Cache, q: Part) {
    c.active.Some? && SamePart(c.active.value, q) && c.active.value.status == Ready && Found(c, q.addr)
  }

  lemma {:induction false} StillFound(p: Params, inputs: seq<Input>, i: Input, q: Part)
    requires WasFound(p, inputs, q)
    ensures WasFound(p, inputs + [i], q)
  {
    var m :| 0 <= m <= |inputs| && FoundAt(After(InitialCache(p), inputs[..m]), q);
    assert (inputs + [i])[..m] == inputs[..m];
  }

  /** Of the started request, the blocks counted so far and a ready one were all found. */
  ghost predicate BlocksFound(p: Params, inputs: seq<Input>, c: Cache, hist: seq<Orig>) {
    c.failed.None? && c.completion.Some? && |c.calls| < |hist| ==>
      var o := hist[|c.calls|];
      && (forall k :: 0 <= k < c.completion.value.completed ==> WasFound(p, inputs, MakePart(p, o.op, o.proc, o.tag, k)))
      && (c.active.Some? && c.active.value.status == Ready ==> WasFound(p, inputs, c.active.value))
  }

  lemma {:induction false} NextFinds(p: Params, before: seq<Input>, i: Input, c: Cache, hist: seq<Orig>, hist': seq<Orig>)
    requires p.Valid() && c == After(InitialCache(p), before) && c.params == p
    requires Structure(c, hist) && c.failed.None? && RightlyWaits(c) && BlocksFound(p, before, c, hist)
    requires hist <= hist'
    ensures BlocksFound(p, before + [i], Step(c, i), hist')
  {
    hide Sized, Exclusive, WasFound, Step, Found, RightlyWaits;
    var c', inputs := Step(c, i), before + [i];
    StepMoves(c, i, hist);
    if c'.failed.None? && c'.completion.Some? && |c'.calls| < |hist'| {
      var o := hist'[|c'.calls|];
      if c'.active.Some? && c'.active.value.status == Ready {
        if c'.active == c.active && c.completion.Some? {
          StillFound(p, before, i, c.active.value);
        } else {
          FoundNow(p, before, i, c'.active.value);
        }
      }
      forall k | 0 <= k < c'.completion.value.completed
        ensures WasFound(p, inputs, MakePart(p, o.op, o.proc, o.tag, k))
      {
        assert hist[|c.calls|] == o;
        var q := MakePart(p, o.op, o.proc, o.tag, k);
        if k == c.completion.value.completed { SameFound(p, before, c.active.value, q); }
        StillFound(p, before, i, q);
      }
    }
  }

  lemma {:induction false} FoundNow(p: Params, before: seq<Input>, i: Input, q: Part)
    requires FoundAt(Step(After(InitialCache(p), before), i), q)
    ensures WasFound(p, before + [i], q)
  {
    hide FoundAt, Step;
    var inputs := before + [i];
    assert inputs[..|inputs| - 1] == before && inputs[..|inputs|] == inputs;
    assert FoundAt(After(InitialCache(p), inputs[..|inputs|]), q);
  }

  lemma {:induction false} SameFound(p: Params, inputs: seq<Input>, r: Part, q: Part)
    requires WasFound(p, inputs, r) && SamePart(r, q)
    ensures WasFound(p, inputs, q)
  {
    var m :| 0 <= m <= |inputs| && FoundAt(After(InitialCache(p), inputs[..m]), r);
    assert FoundAt(After(InitialCache(p), inputs[..m]), q);
  }

  lemma {:induction false} RunFinds(p: Params, inputs: seq<Input>)
    requires p.Valid()
    ensures BlocksFound(p, inputs, After(InitialCache(p), inputs), History(InitialCache(p), inputs))
  {
    hide BlocksFound, Step, Structure, RightlyWaits;
    if inputs == [] {
      NothingStarted(p);
    } else {
      var before, i := inputs[..|inputs| - 1], inputs[|inputs| - 1];
      var c, hist := After(InitialCache(p), before), History(InitialCache(p), before);
      RunFinds(p, before);
      RunKept(p, before);
      RunMoves(p, before);
      RunParams(p, before);
      assert before + [i] == inputs;
      if c.failed.None? {
        NextFinds(p, before, i, c, hist, History(InitialCache(p), inputs));
      } else {
        StaysFailed(c, i);
        FailedFinds(p, inputs, Step(c, i), History(InitialCache(p), inputs));
      }
    }
  }

  lemma {:induction false} NothingStarted(p: Params)
    ensures BlocksFound(p, [], InitialCache(p), [])
  {}

  lemma {:induction false} StaysFailed(c: Cache, i: Input)
    requires c.failed.Some?
    ensures Step(c, i) == c
  {}

  lemma {:induction false} FailedFinds(p: Params, inputs: seq<Input>, c: Cache, hist: seq<Orig>)
    requires c.failed.Some?
    ensures BlocksFound(p, inputs, c, hist)
  {}

  /** Every callback is for the oldest request not yet called back. A store of one block may be called
      back while the buffer holds it; any other request, and every load, only after each of its blocks has
      been in the cache. */
  lemma {:induction false} CallbackMeansFound(p: Params, inputs: seq<Input>, i: Input)
    requires p.Valid() && After(InitialCache(p), inputs).failed.None?
    ensures var c, hist := After(InitialCache(p), inputs), History(InitialCache(p), inputs);
            var calls := Step(c, i).calls;
            calls != c.calls ==>
              && |c.calls| < |hist|
              && var o := hist[|c.calls|];
                 && calls == c.calls + [Done(o.proc, o.tag)]
                 && InRange(o.op)
                 && (|| (p.mode == 1 && o.op.kind == Store && PartCount(p, o.op) == 1
                         && c.buffer.Some? && SamePart(c.buffer.value.request, MakePart(p, o.op, o.proc, o.tag, 0)))
                     || forall k :: 0 <= k < PartCount(p, o.op) ==> WasFound(p, inputs, MakePart(p, o.op, o.proc, o.tag, k)))
  {
    hide WasFound, Step, RightlyWaits, Found;
    var c, hist := After(InitialCache(p), inputs), History(InitialCache(p), inputs);
    RunKept(p, inputs);
    RunMoves(p, inputs);
    RunFinds(p, inputs);
    RunParams(p, inputs);
    NextMoves(c, i, hist);
    if Step(c, i).calls != c.calls && !(c.buffer.Some? && !c.buffer.value.notified) {
      var o, r := hist[|c.calls|], c.active.value;
      SameFound(p, inputs, r, MakePart(p, o.op, o.proc, o.tag, c.completion.value.completed));
    }
  }
}
