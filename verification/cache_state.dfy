/** teamCache's cache_state as the source has it: an object whose fields the operations update, over
    individually allocated sets. Every operation is tied to the function of TeamCache that says what it
    computes. In both buffer modes and whatever coherence answers, the object keeps RRIP's values
    within the maximum, so victim selection always terminates and no value wraps. */
module CacheObject {
  import opened Protocol
  import opened Bits
  import opened Geometry
  import opened Replacement
  import opened Split
  import opened TeamCache
  import Requests
  import WriteBuffer

  class CacheState {
    const params: Params
    const sets: seq<array<Line>>
    var accessSequence: nat
    var active: Option<Part>
    var queue: seq<Part>
    var completion: Option<Completion>
    var requestQueue: seq<Orig>
    var writeBuffer: Option<Buffer>
    var failed: Option<Failure>
    var lower: seq<LowerCall>       // calls to coherence, in order
    var called: seq<Done>           // callbacks made
    ghost var lines: seq<seq<Line>> // what the sets hold
    ghost var accesses: seq<nat>
    ghost var hits: nat

    ghost predicate Valid()
      reads this`lines, sets
    {
      && params.Valid() && |sets| == |lines| == params.S()
      && (forall k :: 0 <= k < |sets| ==> sets[k].Length == params.E && sets[k][..] == lines[k])
      && (forall j, k :: 0 <= j < k < |sets| ==> sets[j] != sets[k])
      && (forall k :: 0 <= k < |sets| ==> StampsOk(params, lines[k]))
    }

    ghost function Model(): Cache
      reads this
    {
      Cache(params, lines, accessSequence, active, queue, completion, requestQueue, writeBuffer, failed, lower,
            called, accesses, hits)
    }

    constructor (p: Params)
      requires p.Valid()
      ensures Valid() && Model() == InitialCache(p) && fresh(sets)
    {
      params := p;
      var all: seq<array<Line>> := [];
      while |all| < p.S()
        invariant |all| <= p.S() && fresh(all)
        invariant forall k :: 0 <= k < |all| ==> all[k].Length == p.E
        invariant forall k :: 0 <= k < |all| ==> all[k][..] == seq(p.E, _ => Line(false, 0, 0, false))
        invariant forall j, k :: 0 <= j < k < |all| ==> all[j] != all[k]
      {
        var one := new Line[p.E](_ => Line(false, 0, 0, false));
        assert one[..] == seq(p.E, _ => Line(false, 0, 0, false));
        all := all + [one];
      }
      sets := all;
      accessSequence, active, queue, completion, requestQueue := 0, None, [], None, [];
      writeBuffer, failed, lower, called := None, None, [], [];
      lines, accesses, hits := seq(p.S(), _ => seq(p.E, _ => Line(false, 0, 0, false))), [], 0;
    }

    method Fail(f: Failure)
      modifies this`failed
      ensures Model() == TeamCache.Fail(old(Model()), f)
    {
      if failed.None? { failed := Some(f); }
    }

    method Check(ok: bool)
      modifies this`failed
      ensures Model() == TeamCache.Check(old(Model()), ok)
    {
      if !ok { Fail(AssertionFailed); }
    }

    method GetLine(l: Loc) returns (line: Option<Line>)
      requires Valid()
      ensures line == LineAt(Model(), l)
    {
      if l.set_ < |sets| && l.way < params.E {
        assert sets[l.set_][l.way] == sets[l.set_][..][l.way];
        return Some(sets[l.set_][l.way]);
      }
      line := None;
    }

    method SetLine(l: Loc, line: Line)
      requires Valid() && l.set_ < |sets| && l.way < params.E
      requires params.policy == Rrip ==> line.stamp <= params.RripMax()
      modifies this`lines, sets
      ensures Valid() && Model() == WithLine(old(Model()), l, line)
    {
      var set_ := sets[l.set_];
      set_[l.way] := line;
      lines := lines[l.set_ := lines[l.set_][l.way := line]];
      assert set_[..] == lines[l.set_];
    }

    /** lru_update, or RRIP's new value. */
    method NewStamp(fill: bool) returns (stamp: nat)
      requires Valid()
      modifies this`accessSequence, this`failed
      ensures (Model(), stamp) == Stamp(old(Model()), fill)
      ensures params.policy == Rrip ==> stamp <= params.RripMax()
    {
      if params.policy == Rrip {
        var top := params.RripMax();
        stamp := if fill && top >= 1 then top - 1 else 0;
      } else if accessSequence == WORD - 1 {
        Fail(SequenceExhausted);
        stamp := accessSequence;
      } else {
        accessSequence := accessSequence + 1;
        stamp := accessSequence;
      }
    }

    /** The request pointer of the source is one slot or the other. */
    method Update(background: bool, r: Part)
      modifies this`active, this`writeBuffer
      ensures Model() == PutBack(old(Model()), background, r)
    {
      if !background {
        active := Some(r);
      } else if writeBuffer.Some? {
        writeBuffer := Some(writeBuffer.value.(request := r));
      }
    }

    /** fetch */
    method StartFetch(view: View, background: bool, r: Part)
      modifies this`active, this`writeBuffer, this`lower, this`failed
      ensures Model() == Fetch(old(Model()), view, background, r)
    {
      var a := params.BlockAddress(r.addr);
      Update(background, r.(status := WaitingData));
      lower := lower + [PermReq(a, r.proc)];
      if a in view.owned { Fail(GrantedOnMiss); }
    }

    /** cache_eviction_complete */
    method CompleteEviction(r: Part)
      requires Valid()
      modifies this`lines, this`failed, sets
      ensures Valid() && Model() == EvictionComplete(old(Model()), r)
    {
      var line: Option<Line> := None;
      if r.target.Some? { line := GetLine(r.target.value); }
      if r.status == WaitingEviction && line.Some? && line.value.valid {
        SetLine(r.target.value, line.value.(valid := false));
      } else {
        Fail(AssertionFailed);
      }
    }

    /** cache_replacement_target on set k. */
    method ChooseTarget(k: nat) returns (way: nat)
      requires Valid() && k < |sets|
      modifies this`lines, sets
      ensures Valid() && way < params.E == |lines[k]|
      ensures (lines[k], way) == Target(params, old(lines[k])) && Model() == WithSet(old(Model()), k, lines[k])
      ensures Chosen(params, old(lines[k]), lines[k], way)
    {
      ghost var before := lines;
      way := ReplacementTarget(params, sets[k]);
      lines := lines[k := sets[k][..]];
      TargetBounded(params, before[k]);
    }

    /** cache_eviction_prepare, then fetch unless a flush is under way. */
    method PrepareThenFetch(view: View, background: bool, r: Part)
      requires Valid()
      modifies this, sets
      ensures Valid() && Model() == EvictThenFetch(old(Model()), view, background, r)
    {
      hide EvictVictim, Target, Fetch;
      var k := params.SetIndex(r.addr);
      ghost var m := Model();
      var way := ChooseTarget(k);
      var r1 := r.(target := Some(Loc(k, way)));
      var line := sets[k][way];
      assert line == lines[k][way];
      if !line.valid {
        StartFetch(view, background, r1);
      } else {
        Evict(view, background, r1, params.VictimAddress(line.tag, k));
      }
    }

    method Evict(view: View, background: bool, r: Part, victim: nat)
      requires Valid()
      modifies this, sets
      ensures Valid() && Model() == EvictVictim(old(Model()), view, background, r, victim)
    {
      hide EvictionComplete, Fetch;
      var r' := r.(victim := victim, status := WaitingEviction);
      Update(background, r');
      lower := lower + [InvlReq(victim, r.proc)];
      if victim !in view.held {
        CompleteEviction(r');
        StartFetch(view, background, r');
      }
    }

    /** cache_write_buffer_adopt */
    method AdoptBuffer(r: Part)
      modifies this`active, this`writeBuffer
      ensures Model() == old(Model()).(buffer := Some(Buffer(r, false, false)), active := None)
    {
      writeBuffer := Some(Buffer(r, false, false));
      active := None;
    }

    /** start_miss */
    method BeginMiss(view: View, r: Part)
      requires Valid()
      modifies this, sets
      ensures Valid() && Model() == StartMiss(old(Model()), view, r)
      ensures old(failed.None? && writeBuffer.None? && completion.Some?) ==>
                (writeBuffer.Some? <==> params.mode == 1 && r.kind == Store && old(completion).value.total == 1)
    {
      if failed.None? && writeBuffer.None? && completion.Some? { WriteBuffer.BuffersExactly(Model(), view, r); }
      if writeBuffer.Some? {
        active := Some(r.(status := WaitingBuffer));
        return;
      }
      Check(completion.Some?);
      if failed.Some? { return; }
      var eligible := params.mode == 1 && r.kind == Store && completion.Some? && completion.value.total == 1;
      if eligible { AdoptBuffer(r); }
      PrepareThenFetch(view, eligible, r);
    }

    /** cache_lookup */
    method FindLine(a: nat) returns (way: Option<nat>)
      requires Valid()
      ensures way == FindWay(SetAt(Model(), params.SetIndex(a)), params.TagOf(a))
    {
      way := Lookup(sets[params.SetIndex(a)], params.TagOf(a));
    }

    method Touch(l: Loc, stamp: nat, kind: Kind)
      requires Valid() && l.set_ < |sets| && l.way < params.E
      requires params.policy == Rrip ==> stamp <= params.RripMax()
      modifies this`lines, sets
      ensures Valid()
      ensures Model() == WithLine(old(Model()), l, Dirtied(LineAt(old(Model()), l).value.(stamp := stamp), kind))
    {
      hide StampsOk;
      var line := GetLine(l);
      SetLine(l, Dirtied(line.value.(stamp := stamp), kind));
    }

    method CountHit(r: Part)
      modifies this`active, this`accesses, this`hits
      ensures Model() == old(Model()).(active := Some(r.(status := Ready)),
                                       accesses := old(accesses) + [params.BlockAddress(r.addr)], hits := old(hits) + 1)
    {
      active := Some(r.(status := Ready));
      accesses, hits := accesses + [params.BlockAddress(r.addr)], hits + 1;
    }

    /** The hit branch of start_next_block. */
    method TakeHit(l: Loc, r: Part)
      requires Valid() && l.set_ < |sets| && l.way < params.E
      modifies this, sets
      ensures Valid() && Model() == Hit(old(Model()), l, r)
    {
      hide Stamp, Dirtied, WithLine, Params.BlockAddress;
      var stamp := NewStamp(false);
      if failed.Some? { return; }
      Touch(l, stamp, r.kind);
      CountHit(r);
    }

    /** start_next_block */
    method BeginBlock(view: View)
      requires Valid()
      modifies this, sets
      ensures Valid() && Model() == StartNextBlock(old(Model()), view)
    {
      if active.Some? || queue == [] {
        Fail(AssertionFailed);
        return;
      }
      var r := queue[0].(status := WaitingData);
      queue := queue[1..];
      active := Some(r);
      var way := FindLine(r.addr);
      if way.Some? {
        TakeHit(Loc(params.SetIndex(r.addr), way.value), r);
      } else {
        BeginMiss(view, r);
      }
    }

    /** cache_split_prepare */
    method SplitPrepare(o: Orig)
      modifies this`completion, this`queue, this`failed
      ensures Model() == Prepare(old(Model()), o)
    {
      if !InRange(o.op) {
        Fail(RangeOverflow);
        return;
      }
      var total := PartCount(params, o.op);
      completion := Some(Completion(o.proc, o.tag, total, 0));
      queue := SplitLoop(params, o.op, o.proc, o.tag);
    }

    /** start_next_request */
    method BeginRequest(view: View)
      requires Valid() && failed.None?
      modifies this, sets
      ensures Valid() && Model() == StartNextRequest(old(Model()), view)
    {
      if active.Some? || completion.Some? || queue != [] || requestQueue == [] { return; }
      var o := requestQueue[0];
      requestQueue := requestQueue[1..];
      SplitPrepare(o);
      if failed.None? { BeginBlock(view); }
    }

    /** complete_one */
    method CountBlock(r: Part) returns (done: bool)
      modifies this`completion, this`failed
      ensures (Model(), done) == CompleteOne(old(Model()), r)
    {
      if completion.None? {
        Fail(AssertionFailed);
        return false;
      }
      var n := completion.value;
      Check(n.proc == r.proc && n.tag == r.tag && n.completed < n.total && r.index == n.completed);
      done := n.completed + 1 == n.total;
      if done {
        Check(queue == []);
        completion := None;
      } else {
        completion := Some(n.(completed := n.completed + 1));
      }
    }

    /** cache_access_request */
    method AccessRequest(o: Orig)
      modifies this`requestQueue, this`failed
      ensures Model() == TeamCache.AccessRequest(old(Model()), o)
    {
      if o.proc < 0 || o.op.kind == NotMemory || o.op.size <= 0 {
        Fail(InvalidRequest);
      } else {
        requestQueue := requestQueue + [o];
      }
    }

    /** The end of the buffer after its fill. */
    method FinishBuffer(view: View)
      requires Valid() && failed.None?
      modifies this, sets
      ensures Valid() && Model() == BufferFilled(old(Model()), view)
    {
      if writeBuffer.None? { return; }
      if !writeBuffer.value.notified {
        writeBuffer := Some(writeBuffer.value.(dataComplete := true));
        return;
      }
      writeBuffer := None;
      if active.None? {
        BeginRequest(view);
      } else if active.value.status == WaitingBuffer {
        BeginMiss(view, active.value);
      }
    }

    /** The fill. */
    method FillLine(view: View, background: bool, r: Part, l: Loc, a: nat)
      requires Valid() && failed.None? && l.set_ < |sets| && l.way < params.E
      modifies this, sets
      ensures Valid() && Model() == Filled(old(Model()), view, background, r, l, a)
    {
      hide BufferFilled, PutBack;
      var stamp := NewStamp(true);
      if failed.Some? { return; }
      SetLine(l, Dirtied(Line(true, params.TagOf(a), stamp, false), r.kind));
      Update(background, r.(status := Ready));
      accesses := accesses + [a];
      if background { FinishBuffer(view); }
    }

    /** The data branch of cache_access_event. */
    method AcceptData(view: View, proc: int, a: Addr)
      requires Valid() && failed.None?
      modifies this, sets
      ensures Valid() && Model() == DataEvent(old(Model()), view, proc, a)
    {
      hide Filled, StampsOk;
      var buffered := if writeBuffer.Some? then Some(writeBuffer.value.request) else None;
      var foreground := WaitsForData(params, active, proc, a);
      var background := WaitsForData(params, buffered, proc, a);
      if foreground && background {
        Fail(TwoFills);
      } else if !foreground && !background {
        Fail(UnmatchedData);
      } else {
        var r := if background then buffered.value else active.value;
        var line: Option<Line> := None;
        if r.target.Some? { line := GetLine(r.target.value); }
        if line.None? || line.value.valid || a < 0 {
          Fail(TargetTaken);
        } else {
          FillLine(view, background, r, r.target.value, a);
        }
      }
    }

    /** cache_access_event */
    method AccessEvent(view: View, act: Action, proc: int, a: Addr)
      requires Valid() && failed.None?
      modifies this, sets
      ensures Valid() && Model() == TeamCache.AccessEvent(old(Model()), view, act, proc, a)
    {
      hide DataEvent, Fetch, WithLine;
      var buffered := if writeBuffer.Some? then Some(writeBuffer.value.request) else None;
      var foreground := WaitsForFlush(active, proc, a);
      var background := WaitsForFlush(buffered, proc, a);
      if foreground && background {
        Fail(TwoEvictions);
      } else if act == FlushComplete || (act == NoAction && (foreground || background)) {
        if !foreground && !background {
          Fail(UnmatchedEviction);
        } else {
          var r := if background then buffered.value else active.value;
          CompleteEviction(r);
          if failed.None? { StartFetch(view, background, r); }
        }
      } else if act == DataRecv {
        AcceptData(view, proc, a);
      } else if act != NoAction {
        Fail(UnsupportedEvent);
      }
    }

    method CountBuffered(r: Part)
      modifies this`completion, this`failed
      ensures Model() == CountAcknowledged(old(Model()), r)
    {
      Check(completion.Some? && completion.value.total == 1 && queue == []);
      var done := CountBlock(r);
      Check(done);
    }

    /** The acknowledgement of a buffered store. */
    method AcknowledgeBuffer(view: View)
      requires Valid() && failed.None? && writeBuffer.Some?
      modifies this, sets
      ensures Valid() && Model() == Acknowledge(old(Model()), view)
    {
      hide StartNextRequest, CountAcknowledged, StampsOk;
      var b := writeBuffer.value;
      CountBuffered(b.request);
      if failed.Some? { return; }
      writeBuffer := Some(b.(notified := true));
      called := called + [Done(b.request.proc, b.request.tag)];
      if b.dataComplete {
        writeBuffer := None;
        BeginRequest(view);
      }
    }

    /** The retirement of the active request. */
    method RetireActive(view: View)
      requires Valid() && failed.None? && active.Some?
      modifies this, sets
      ensures Valid() && Model() == Retire(old(Model()), view, old(active).value)
    {
      var r := active.value;
      active := None;
      var done := CountBlock(r);
      if failed.Some? { return; }
      if done {
        called := called + [Done(r.proc, r.tag)];
      } else {
        BeginBlock(view);
      }
    }

    /** cache_access_tick, up to the tick of coherence that it ends with. */
    method AccessTick(view: View)
      requires Valid() && failed.None?
      modifies this, sets
      ensures Valid() && Model() == TeamCache.AccessTick(old(Model()), view)
    {
      if writeBuffer.Some? && !writeBuffer.value.notified {
        AcknowledgeBuffer(view);
      } else if writeBuffer.None? && active.Some? && active.value.status == Ready {
        RetireActive(view);
      } else {
        BeginRequest(view);
      }
    }
  }

  /** One input to an object that has not failed. */
  method Feed(c: CacheState, i: Input)
    requires c.Valid() && c.failed.None?
    modifies c, c.sets
    ensures c.Valid() && c.Model() == Step(old(c.Model()), i)
  {
    match i
    case Arrive(o) => c.AccessRequest(o);
    case Event(view, act, proc, a) => c.AccessEvent(view, act, proc, a);
    case Clock(view) => c.AccessTick(view);
  }

  /** Any run of the object is a run of the state machine that Requests and Placement speak of, so what
      they prove of its callbacks, its lines and its failures holds of the object; and in every run,
      with the write buffer on or off, RRIP's values stay within the maximum. */
  method Drive(p: Params, inputs: seq<Input>) returns (c: CacheState)
    requires p.Valid()
    ensures c.Valid() && c.Model() == Requests.After(InitialCache(p), inputs)
    ensures forall k :: 0 <= k < |c.lines| ==> StampsOk(p, Requests.After(InitialCache(p), inputs).sets[k])
    ensures c.failed.None? ==> c.called <= Requests.Ids(Requests.History(InitialCache(p), inputs))
  {
    c := new CacheState(p);
    ghost var start := c.Model();
    var n := 0;
    while n < |inputs|
      invariant 0 <= n <= |inputs| && c.Valid() && c.params == p && fresh(c) && fresh(c.sets)
      invariant c.Model() == Requests.After(start, inputs[..n])
    {
      assert inputs[..n + 1][..n] == inputs[..n];
      if c.failed.None? {
        Feed(c, inputs[n]);
      }
      n := n + 1;
    }
    assert inputs[..n] == inputs;
    if c.failed.None? { Requests.CallbacksInArrivalOrder(p, inputs); }
  }

  lemma {:induction false} TargetBounded(p: Params, lines: seq<Line>)
    requires lines != [] && StampsOk(p, lines)
    ensures StampsOk(p, Target(p, lines).0)
  {}
}
