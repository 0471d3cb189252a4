/** What teamCache does with every event that coherence may send, in any state a run reaches. */
module Events {
  import opened Protocol
  import opened Bits
  import opened Geometry
  import opened Replacement
  import opened Split
  import opened TeamCache
  import opened Requests

  /** Request r of processor proc waits for the flush of block a, or for its data. */
  ghost predicate Awaits(c: Cache, r: Part, act: Action, proc: int, a: Addr) {
    && r.proc == proc
    && if act == DataRecv then r.status == WaitingData && c.params.BlockAddress(r.addr) == a
       else r.status == WaitingEviction && r.victim == a
  }

  /** The slot that the event is for: the foreground (false) or the buffer (true). */
  ghost predicate For(c: Cache, background: bool, act: Action, proc: int, a: Addr) {
    Owner(c, background).Some? && Awaits(c, Owner(c, background).value, act, proc, a)
  }

  /** Never both slots await the same event. */
  lemma {:induction false} OneSlot(p: Params, inputs: seq<Input>, act: Action, proc: int, a: Addr)
    requires p.Valid()
    ensures var c := After(InitialCache(p), inputs);
            c.failed.None? ==> !(For(c, false, act, proc, a) && For(c, true, act, proc, a))
  {
    RunKept(p, inputs);
  }

  /** An event that no request of that processor awaits stops the program, with the message for its kind;
      only NO_ACTION is then ignored. INVALIDATE is never supported. */
  lemma {:induction false} Unawaited(p: Params, inputs: seq<Input>, view: View, act: Action, proc: int, a: Addr)
    requires p.Valid() && After(InitialCache(p), inputs).failed.None?
    ensures var c := After(InitialCache(p), inputs);
            var c' := Step(c, Event(view, act, proc, a));
            (forall background :: !For(c, background, act, proc, a)) ==>
              c' == c.(failed := match act
                                 case NoAction => None
                                 case FlushComplete => Some(UnmatchedEviction)
                                 case DataRecv => Some(UnmatchedData)
                                 case Invalidate => Some(UnsupportedEvent))
  {
    hide Step, After;
    OneSlot(p, inputs, FlushComplete, proc, a);
    UnawaitedIs(After(InitialCache(p), inputs), view, act, proc, a);
  }

  lemma {:induction false} UnawaitedIs(c: Cache, view: View, act: Action, proc: int, a: Addr)
    requires c.failed.None? && !(For(c, false, FlushComplete, proc, a) && For(c, true, FlushComplete, proc, a))
    ensures var c' := Step(c, Event(view, act, proc, a));
            (act == Invalidate || forall background :: !For(c, background, act, proc, a)) ==>
              c' == c.(failed := match act
                                 case NoAction => None
                                 case FlushComplete => Some(UnmatchedEviction)
                                 case DataRecv => Some(UnmatchedData)
                                 case Invalidate => Some(UnsupportedEvent))
  {
    hide Params.BlockAddress, Filled, Fetch, EvictionComplete;
    if forall background :: !For(c, background, act, proc, a) {
      assert !For(c, false, act, proc, a) && !For(c, true, act, proc, a);
    }
  }

  /** INVALIDATE stops the program whatever is awaited. */
  lemma {:induction false} InvalidateStops(p: Params, inputs: seq<Input>, view: View, proc: int, a: Addr)
    requires p.Valid() && After(InitialCache(p), inputs).failed.None?
    ensures Step(After(InitialCache(p), inputs), Event(view, Invalidate, proc, a)).failed == Some(UnsupportedEvent)
  {
    hide Step, After;
    OneSlot(p, inputs, FlushComplete, proc, a);
    UnawaitedIs(After(InitialCache(p), inputs), view, Invalidate, proc, a);
  }

  /** The end of a flush, however coherence reports it: the awaiting request's way is free, its data is
      asked for, and nothing else changes. */
  lemma {:induction false} FlushAwaited(p: Params, inputs: seq<Input>, view: View, act: Action, proc: int, a: Addr,
                                        background: bool)
    requires p.Valid() && After(InitialCache(p), inputs).failed.None? && (act == NoAction || act == FlushComplete)
    requires For(After(InitialCache(p), inputs), background, act, proc, a)
    ensures var c := After(InitialCache(p), inputs);
            var c', r := Step(c, Event(view, act, proc, a)), Owner(c, background).value;
            && r.target.Some? && LineAt(c, r.target.value).Some? && LineAt(c, r.target.value).value.valid
            && LineAt(c', r.target.value) == Some(LineAt(c, r.target.value).value.(valid := false))
            && (forall l: Loc :: l != r.target.value ==> LineAt(c', l) == LineAt(c, l))
            && Owner(c', background) == Some(r.(status := WaitingData)) && Owner(c', !background) == Owner(c, !background)
            && c'.lower == c.lower + [PermReq(p.BlockAddress(r.addr), proc)]
            && c'.failed == (if p.BlockAddress(r.addr) in view.owned then Some(GrantedOnMiss) else None)
            && c'.calls == c.calls && c'.arrivals == c.arrivals && c'.completion == c.completion && c'.queue == c.queue
  {
    hide Params.BlockAddress, Fetch, EvictionComplete, Requests.InOrder, OneOwner;
    var c := After(InitialCache(p), inputs);
    RunKept(p, inputs);
    OneSlot(p, inputs, act, proc, a);
    RunParams(p, inputs);
    FlushedIs(c, view, background, Owner(c, background).value);
  }

  /** Awaited data for the foreground: the way is filled and the request is ready. Only exhausted LRU
      stamps can stop it. */
  lemma {:induction false} DataAwaited(p: Params, inputs: seq<Input>, view: View, proc: int, a: Addr)
    requires p.Valid() && After(InitialCache(p), inputs).failed.None?
    requires For(After(InitialCache(p), inputs), false, DataRecv, proc, a)
    ensures var c := After(InitialCache(p), inputs);
            var c', r := Step(c, Event(view, DataRecv, proc, a)), c.active.value;
            && r.target.Some? && LineAt(c, r.target.value).Some? && !LineAt(c, r.target.value).value.valid
            && a >= 0 && c.params == p
            && if p.policy == Lru && c.sequence == WORD - 1 then c'.failed == Some(SequenceExhausted)
               else c' == FilledLine(c, false, r, r.target.value, a)
  {
    hide Params.BlockAddress, Filled, Requests.InOrder, OneOwner;
    var c := After(InitialCache(p), inputs);
    RunKept(p, inputs);
    OneSlot(p, inputs, DataRecv, proc, a);
    RunParams(p, inputs);
    FilledIs(c, view, false, c.active.value, c.active.value.target.value, a);
  }

  /** Awaited data for the buffer, of which the processor knows: the way is filled, the buffer is free, and
      a request that has not started, if the foreground is empty, is started at once. */
  lemma {:induction false} BufferedDataAwaited(p: Params, inputs: seq<Input>, view: View, proc: int, a: Addr)
    requires p.Valid() && After(InitialCache(p), inputs).failed.None?
    requires For(After(InitialCache(p), inputs), true, DataRecv, proc, a)
    requires After(InitialCache(p), inputs).buffer.value.notified
    ensures var c := After(InitialCache(p), inputs);
            var c', b := Step(c, Event(view, DataRecv, proc, a)), c.buffer.value;
            && b.request.target.Some? && LineAt(c, b.request.target.value).Some? && a >= 0 && c.params == p
            && if p.policy == Lru && c.sequence == WORD - 1 then c'.failed == Some(SequenceExhausted)
               else
                 var c1 := FilledLine(c, true, b.request, b.request.target.value, a).(buffer := None);
                 if c.active.None? then
                   if c.arrivals == [] then c' == c1
                   else c'.arrivals == c.arrivals[1..] && (c'.failed.None? ==> c'.completion.Some?)
                 else if c.active.value.status == Ready then c' == c1
                 else c'.completion == c.completion && c'.arrivals == c.arrivals
                      && (c'.failed.None? ==> InProgress(c', c.active.value))
  {
    hide Params.BlockAddress, Filled, FilledLine, Requests.InOrder, StartMiss, StartNextBlock;
    var c := After(InitialCache(p), inputs);
    RunKept(p, inputs);
    OneSlot(p, inputs, DataRecv, proc, a);
    RunParams(p, inputs);
    var r := c.buffer.value.request;
    FilledIs(c, view, true, r, r.target.value, a);
    FilledRest(c, true, r, r.target.value, a);
    var c1 := FilledLine(c, true, r, r.target.value, a).(buffer := None);
    if c.active.None? {
      NextStarts(c1, view);
    } else if c.active.value.status == WaitingBuffer {
      ParkedRestarts(c1, view, c.active.value);
    }
  }

  /** r waits for a flush or for data, in the foreground or in the buffer. */
  ghost predicate InProgress(c: Cache, r: Part) {
    exists background :: Owner(c, background).Some? && SamePart(Owner(c, background).value, r)
                         && Waiting(Owner(c, background).value)
  }

  lemma {:induction false} NextStarts(c: Cache, view: View)
    requires c.failed.None? && c.active.None? && c.completion.None? && c.queue == []
    ensures var c' := StartNextRequest(c, view);
            if c.arrivals == [] then c' == c
            else c'.arrivals == c.arrivals[1..] && (c'.failed.None? ==> c'.completion.Some?)
  {
    hide EvictThenFetch, Params.SetIndex, Params.TagOf, Params.BlockAddress, Parts, Target;
    if c.arrivals != [] {
      var c1 := Prepare(c.(arrivals := c.arrivals[1..]), c.arrivals[0]);
      if c1.failed.None? { BlockKeeps(c1, view); }
    }
  }

  lemma {:induction false} BlockKeeps(c: Cache, view: View)
    ensures StartNextBlock(c, view).arrivals == c.arrivals && StartNextBlock(c, view).completion == c.completion
  {
    hide Params.SetIndex, Params.TagOf, EvictThenFetch, FindWay, Hit;
    if c.active.None? && c.queue != [] {
      var r := c.queue[0].(status := WaitingData);
      var c1 := c.(queue := c.queue[1..], active := Some(r));
      forall l: Loc ensures Hit(c1, l, r).arrivals == c.arrivals && Hit(c1, l, r).completion == c.completion {
        HitKeeps(c1, l, r);
      }
      MissKeeps(c1, view, r);
    }
  }

  lemma {:induction false} HitKeeps(c: Cache, l: Loc, r: Part)
    ensures Hit(c, l, r).arrivals == c.arrivals && Hit(c, l, r).completion == c.completion
  {}

  lemma {:induction false} MissKeeps(c: Cache, view: View, r: Part)
    ensures StartMiss(c, view, r).arrivals == c.arrivals && StartMiss(c, view, r).completion == c.completion
  {
    hide EvictThenFetch;
    forall d: Cache, background ensures var d' := EvictThenFetch(d, view, background, r);
                                        d'.arrivals == d.arrivals && d'.completion == d.completion
    {
      FetchKeeps(d, view, background, r);
    }
  }

  lemma {:induction false} FetchKeeps(c: Cache, view: View, background: bool, r: Part)
    ensures var c' := EvictThenFetch(c, view, background, r); c'.arrivals == c.arrivals && c'.completion == c.completion
  {
    hide Params.SetIndex, Params.TagOf, Params.BlockAddress, Params.VictimAddress, Target;
  }

  lemma {:induction false} ParkedRestarts(c: Cache, view: View, r: Part)
    requires Sized(c) && c.failed.None? && c.buffer.None? && c.active == Some(r) && c.completion.Some?
    ensures var c' := StartMiss(c, view, r);
            InProgress(c', r) && c'.completion == c.completion && c'.arrivals == c.arrivals
  {
    hide EvictThenFetch;
    EvictThenFetchKept(c.(buffer := Some(Buffer(r, false, false)), active := None), view, true, r);
    EvictThenFetchKept(c, view, false, r);
    var c' := StartMiss(c, view, r);
    assert Owner(c', Eligible(c, r)).Some?;
  }
}
