/** The request state machine of teamCache (access.c with eviction.c, split.c, write_buffer.c and
    request_queue.c), as functions on the cache's state. Coherence's answers are a parameter; the
    calls made to it are collected. `fail` and a failing assertion stop the machine. */
module TeamCache {
  import opened Protocol
  import opened Bits
  import opened Geometry
  import opened Replacement
  import opened Split

  datatype Failure =
    | InvalidRequest | RangeOverflow | SequenceExhausted
    | GrantedOnMiss | UnsupportedEvent | UnmatchedEviction | UnmatchedData | TwoEvictions | TwoFills | TargetTaken
    | AssertionFailed

  /** original_request */
  datatype Orig = Orig(op: Access, proc: int, tag: int)

  /** cache_completion */
  datatype Completion = Completion(proc: int, tag: int, total: nat, completed: nat)

  /** cache_write_buffer */
  datatype Buffer = Buffer(request: Part, notified: bool, dataComplete: bool)

  datatype LowerCall = PermReq(addr: Addr, proc: int) | InvlReq(addr: Addr, proc: int)

  /** What coherence would answer: the addresses it holds in any state but INVALID, and in MODIFIED. */
  datatype View = View(held: set<Addr>, owned: set<Addr>)

  /** A callback to the processor. */
  datatype Done = Done(proc: int, tag: int)

  datatype Cache = Cache(
    params: Params,
    sets: seq<seq<Line>>,
    sequence: nat,                // access_sequence
    active: Option<Part>,
    queue: seq<Part>,             // the request's blocks that have not started
    completion: Option<Completion>,
    arrivals: seq<Orig>,
    buffer: Option<Buffer>,
    failed: Option<Failure>,
    lower: seq<LowerCall>,        // calls to coherence not yet made
    calls: seq<Done>,             // history: callbacks
    accesses: seq<nat>,           // history: blocks hit or filled
    hits: nat)                    // history: how many of them were hits

  function Fail(c: Cache, f: Failure): Cache {
    if c.failed.None? then c.(failed := Some(f)) else c
  }

  function Check(c: Cache, ok: bool): Cache {
    if ok then c else Fail(c, AssertionFailed)
  }

  function SetAt(c: Cache, k: nat): seq<Line> {
    if k < |c.sets| then c.sets[k] else []
  }

  function WithSet(c: Cache, k: nat, lines: seq<Line>): Cache {
    if k < |c.sets| then c.(sets := c.sets[k := lines]) else c
  }

  function LineAt(c: Cache, l: Loc): Option<Line> {
    if l.way < |SetAt(c, l.set_)| then Some(SetAt(c, l.set_)[l.way]) else None
  }

  function WithLine(c: Cache, l: Loc, line: Line): Cache {
    if l.way < |SetAt(c, l.set_)| then WithSet(c, l.set_, SetAt(c, l.set_)[l.way := line]) else c
  }

  function Dirtied(line: Line, kind: Kind): Line {
    if kind == Store then line.(dirty := true) else line
  }

  /** lru_update, or RRIP's new value: the cache afterwards and the line's new stamp. */
  function Stamp(c: Cache, fill: bool): (Cache, nat) {
    match c.params.policy
    case Rrip => (c, if fill && c.params.RripMax() >= 1 then c.params.RripMax() - 1 else 0)
    case Lru =>
      if c.sequence == WORD - 1 then (Fail(c, SequenceExhausted), c.sequence)
      else (c.(sequence := c.sequence + 1), c.sequence + 1)
  }

  /** The request under way sits in the active slot or in the write buffer. */
  function Owner(c: Cache, background: bool): Option<Part> {
    if background then (if c.buffer.Some? then Some(c.buffer.value.request) else None) else c.active
  }

  function PutBack(c: Cache, background: bool, r: Part): Cache {
    if background then
      if c.buffer.Some? then c.(buffer := Some(c.buffer.value.(request := r))) else c
    else c.(active := Some(r))
  }

  /** fetch */
  function Fetch(c: Cache, view: View, background: bool, r: Part): (c': Cache)
    ensures c'.params == c.params
  {
    var a := c.params.BlockAddress(r.addr);
    var c1 := PutBack(c, background, r.(status := WaitingData));
    var c2 := c1.(lower := c1.lower + [PermReq(a, r.proc)]);
    if a in view.owned then Fail(c2, GrantedOnMiss) else c2
  }

  /** cache_eviction_complete */
  function EvictionComplete(c: Cache, r: Part): (c': Cache)
    ensures c'.params == c.params
  {
    var line := if r.target.Some? then LineAt(c, r.target.value) else None;
    if r.status == WaitingEviction && line.Some? && line.value.valid
    then WithLine(c, r.target.value, line.value.(valid := false))
    else Fail(c, AssertionFailed)
  }

  /** cache_eviction_prepare, then fetch unless a flush is under way. */
  function EvictThenFetch(c: Cache, view: View, background: bool, r: Part): (c': Cache)
    ensures c'.params == c.params
  {
    var k := c.params.SetIndex(r.addr);
    if SetAt(c, k) == [] then Fail(c, AssertionFailed)
    else
      var (lines, way) := Target(c.params, SetAt(c, k));
      var c1 := WithSet(c, k, lines);
      var r1 := r.(target := Some(Loc(k, way)));
      if !lines[way].valid then Fetch(c1, view, background, r1)
      else EvictVictim(c1, view, background, r1, c.params.VictimAddress(lines[way].tag, k))
  }

  /** The end of cache_eviction_prepare on a valid target, and the fetch unless a flush is under way. */
  function EvictVictim(c: Cache, view: View, background: bool, r: Part, victim: nat): (c': Cache)
    ensures c'.params == c.params
  {
    var r' := r.(victim := victim, status := WaitingEviction);
    var c1 := PutBack(c.(lower := c.lower + [InvlReq(victim, r.proc)]), background, r');
    if victim in view.held then c1 else Fetch(EvictionComplete(c1, r'), view, background, r')
  }

  /** cache_write_buffer_eligible */
  predicate Eligible(c: Cache, r: Part) {
    c.params.mode == 1 && c.buffer.None? && r.kind == Store && c.completion.Some? && c.completion.value.total == 1
  }

  /** start_miss for the active request r. */
  function StartMiss(c: Cache, view: View, r: Part): (c': Cache)
    ensures c'.params == c.params
  {
    if c.buffer.Some? then c.(active := Some(r.(status := WaitingBuffer)))
    else
      var c1 := Check(c, c.completion.Some?);
      if c1.failed.Some? then c1
      else if Eligible(c1, r) then
        EvictThenFetch(c1.(buffer := Some(Buffer(r, false, false)), active := None), view, true, r)
      else EvictThenFetch(c1, view, false, r)
  }

  /** start_next_block */
  function StartNextBlock(c: Cache, view: View): (c': Cache)
    ensures c'.params == c.params
  {
    if c.active.Some? || c.queue == [] then Fail(c, AssertionFailed)
    else
      var r := c.queue[0].(status := WaitingData);
      var c1 := c.(queue := c.queue[1..], active := Some(r));
      var k := c.params.SetIndex(r.addr);
      match FindWay(SetAt(c, k), c.params.TagOf(r.addr))
      case Some(way) => Hit(c1, Loc(k, way), r)
      case None => StartMiss(c1, view, r)
  }

  function Hit(c: Cache, l: Loc, r: Part): (c': Cache)
    ensures c'.params == c.params
  {
    var (c1, stamp) := Stamp(c, false);
    var line := LineAt(c, l);
    if c1.failed.Some? || line.None? then c1
    else WithLine(c1, l, Dirtied(line.value.(stamp := stamp), r.kind))
         .(active := Some(r.(status := Ready)),
           accesses := c.accesses + [c.params.BlockAddress(r.addr)], hits := c.hits + 1)
  }

  predicate Idle(c: Cache) {
    c.active.None? && c.completion.None? && c.queue == []
  }

  /** cache_split_prepare */
  function Prepare(c: Cache, o: Orig): (c': Cache)
    ensures c'.params == c.params
  {
    if !InRange(o.op) then Fail(c, RangeOverflow)
    else c.(completion := Some(Completion(o.proc, o.tag, PartCount(c.params, o.op), 0)),
            queue := Parts(c.params, o.op, o.proc, o.tag))
  }

  /** start_next_request */
  function StartNextRequest(c: Cache, view: View): (c': Cache)
    ensures c'.params == c.params
  {
    if !Idle(c) || c.arrivals == [] then c
    else
      var c1 := Prepare(c.(arrivals := c.arrivals[1..]), c.arrivals[0]);
      if c1.failed.Some? then c1 else StartNextBlock(c1, view)
  }

  /** complete_one: one block retired; the request is done when all its blocks are. */
  function CompleteOne(c: Cache, r: Part): (Cache, bool) {
    if c.completion.None? then (Fail(c, AssertionFailed), false)
    else
      var n := c.completion.value;
      var c1 := Check(c, n.proc == r.proc && n.tag == r.tag && n.completed < n.total && r.index == n.completed);
      if n.completed + 1 != n.total then (c1.(completion := Some(n.(completed := n.completed + 1))), false)
      else (Check(c1, c.queue == []).(completion := None), true)
  }

  /** cache_access_request */
  function AccessRequest(c: Cache, o: Orig): (c': Cache)
    ensures c'.params == c.params
  {
    if o.proc < 0 || o.op.kind == NotMemory || o.op.size <= 0 then Fail(c, InvalidRequest)
    else c.(arrivals := c.arrivals + [o])
  }

  predicate WaitsForFlush(r: Option<Part>, proc: int, a: Addr) {
    r.Some? && r.value.status == WaitingEviction && r.value.proc == proc && r.value.victim == a
  }

  predicate WaitsForData(p: Params, r: Option<Part>, proc: int, a: Addr) {
    r.Some? && r.value.status == WaitingData && r.value.proc == proc && p.BlockAddress(r.value.addr) == a
  }

  /** cache_access_event */
  function AccessEvent(c: Cache, view: View, act: Action, proc: int, a: Addr): (c': Cache)
    ensures c'.params == c.params
  {
    var foreground := WaitsForFlush(c.active, proc, a);
    var background := WaitsForFlush(Owner(c, true), proc, a);
    if foreground && background then Fail(c, TwoEvictions)
    else if act == FlushComplete || (act == NoAction && (foreground || background)) then
      if !foreground && !background then Fail(c, UnmatchedEviction)
      else
        var r := Owner(c, background).value;
        var c1 := EvictionComplete(c, r);
        if c1.failed.Some? then c1 else Fetch(c1, view, background, r)
    else if act == NoAction then c
    else if act != DataRecv then Fail(c, UnsupportedEvent)
    else DataEvent(c, view, proc, a)
  }

  function DataEvent(c: Cache, view: View, proc: int, a: Addr): (c': Cache)
    ensures c'.params == c.params
  {
    var foreground := WaitsForData(c.params, c.active, proc, a);
    var background := WaitsForData(c.params, Owner(c, true), proc, a);
    if foreground && background then Fail(c, TwoFills)
    else if !foreground && !background then Fail(c, UnmatchedData)
    else
      var r := Owner(c, background).value;
      var line := if r.target.Some? then LineAt(c, r.target.value) else None;
      if line.None? || line.value.valid || a < 0 then Fail(c, TargetTaken)
      else Filled(c, view, background, r, r.target.value, a)
  }

  /** The fill, and for a buffered request that the processor knows of, the end of the buffer. */
  function Filled(c: Cache, view: View, background: bool, r: Part, l: Loc, a: nat): (c': Cache)
    ensures c'.params == c.params
  {
    var (c1, stamp) := Stamp(c, true);
    if c1.failed.Some? then c1
    else
      var line := Dirtied(Line(true, c.params.TagOf(a), stamp, false), r.kind);
      var c2 := PutBack(WithLine(c1, l, line), background, r.(status := Ready)).(accesses := c.accesses + [a]);
      if !background then c2 else BufferFilled(c2, view)
  }

  function BufferFilled(c: Cache, view: View): (c': Cache)
    ensures c'.params == c.params
  {
    if c.buffer.None? then c
    else if !c.buffer.value.notified then c.(buffer := Some(c.buffer.value.(dataComplete := true)))
    else
      var c1 := c.(buffer := None);
      match c.active
      case Some(r) => if r.status == WaitingBuffer then StartMiss(c1, view, r) else c1
      case None => StartNextRequest(c1, view)
  }

  /** The acknowledgement of a buffered store at the beginning of cache_access_tick. */
  function Acknowledge(c: Cache, view: View): (c': Cache)
    requires c.buffer.Some?
    ensures c'.params == c.params
  {
    var b := c.buffer.value;
    var c1 := CountAcknowledged(c, b.request);
    if c1.failed.Some? then c1
    else
      var c2 := c1.(buffer := Some(b.(notified := true)), calls := c1.calls + [Done(b.request.proc, b.request.tag)]);
      if b.dataComplete then StartNextRequest(c2.(buffer := None), view) else c2
  }

  /** The counting of a buffered store, which must be the one block of its request. */
  function CountAcknowledged(c: Cache, r: Part): (c': Cache)
    ensures c'.params == c.params
  {
    var c1 := Check(c, c.completion.Some? && c.completion.value.total == 1 && c.queue == []);
    var (c2, done) := CompleteOne(c1, r);
    Check(c2, done)
  }

  /** The retirement of the active request. */
  function Retire(c: Cache, view: View, r: Part): (c': Cache)
    ensures c'.params == c.params
  {
    var (c1, done) := CompleteOne(c.(active := None), r);
    if c1.failed.Some? then c1
    else if done then c1.(calls := c1.calls + [Done(r.proc, r.tag)])
    else StartNextBlock(c1, view)
  }

  /** cache_access_tick, up to the tick of coherence that it ends with. */
  function AccessTick(c: Cache, view: View): (c': Cache)
    ensures c'.params == c.params
  {
    if c.buffer.Some? && !c.buffer.value.notified then Acknowledge(c, view)
    else if c.buffer.None? && c.active.Some? && c.active.value.status == Ready then Retire(c, view, c.active.value)
    else StartNextRequest(c, view)
  }

  /** Everything that can happen to the cache from outside. */
  datatype Input =
    | Arrive(o: Orig)
    | Event(view: View, act: Action, proc: int, addr: Addr)
    | Clock(view: View)

  function Step(c: Cache, i: Input): (c': Cache)
    ensures c'.params == c.params
  {
    if c.failed.Some? then c
    else match i
      case Arrive(o) => AccessRequest(c, o)
      case Event(view, act, proc, a) => AccessEvent(c, view, act, proc, a)
      case Clock(view) => AccessTick(c, view)
  }

  function InitialCache(p: Params): Cache {
    Cache(p, seq(p.S(), _ => seq(p.E, _ => Line(false, 0, 0, false))), 0, None, [], None, [], None, None, [], [], [], 0)
  }
}
