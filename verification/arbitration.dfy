/** Round-robin arbitration over any run of the bus, whatever coherence and memory do: each queue is
    first in, first out, nothing is lost, and nobody is passed over for more than n - 1 dequeues. */
module Arbitration {
  import opened Protocol
  import opened Bus
  import opened Lockstep

  ghost predicate Homed(b: Bus) {
    && b.lastProc < |b.queues|
    && forall p, i :: 0 <= p < |b.queues| && 0 <= i < |b.queues[p]| ==> b.queues[p][i].proc == p
  }

  /** What happens to the queues in one step of the bus. */
  datatype Event = Enqueued(t: Txn) | Dequeued(t: Txn) | Other

  /** Requests, arbitration, and everything that touches only the pending slot and the count-down. */
  ghost predicate Step(b: Bus, e: Event, b': Bus) {
    match e
    case Enqueued(t) =>
      b.pending.Some? && t.proc < |b.queues| && t.phase == Queued && b' == Request(b, t.brt, t.addr, t.proc)
      && b'.queues == b.queues[t.proc := b.queues[t.proc] + [t]]
    case Dequeued(t) =>
      b.pending.None? && b' == Arbitrate(b) && b'.pending == Some(t.(phase := WaitingCache))
      && NextProc(b, 0).Some? && t == b.queues[NextProc(b, 0).value][0]
    case Other => b'.queues == b.queues && b'.lastProc == b.lastProc
  }

  /** A run: bs[i] steps to bs[i + 1] by es[i]. */
  ghost predicate IsRun(bs: seq<Bus>, es: seq<Event>) {
    && |bs| == |es| + 1
    && Homed(bs[0])
    && forall i :: 0 <= i < |es| ==> Step(bs[i], es[i], bs[i + 1])
  }

  /** Every request and every tick is such a step. */
  lemma {:induction false} RequestIsStep(b: Bus, brt: BusType, a: Addr, p: nat)
    requires p < |b.queues|
    ensures Step(b, Other, Request(b, brt, a, p))
            || Step(b, Enqueued(NewTxn(brt, Queued, a, p)), Request(b, brt, a, p))
  {}

  lemma {:induction false} AdvanceIsStep(m: Memory, b: Bus)
    requires InStep(m, b) && QueuesOk(b)
    ensures var b' := Advance(m, b).1;
            Step(b, Other, b')
            || (NextProc(b, 0).Some? && Step(b, Dequeued(b.queues[NextProc(b, 0).value][0]), b'))
  {}

  ghost function Enqueues(es: seq<Event>, p: nat): seq<Txn> {
    if es == [] then []
    else
      var e := es[|es| - 1];
      Enqueues(es[..|es| - 1], p) + (if e.Enqueued? && e.t.proc == p then [e.t] else [])
  }

  ghost function Dequeues(es: seq<Event>, p: nat): seq<Txn> {
    if es == [] then []
    else
      var e := es[|es| - 1];
      Dequeues(es[..|es| - 1], p) + (if e.Dequeued? && e.t.proc == p then [e.t] else [])
  }

  /** How many queues arbitration looks at before p's. */
  ghost function Distance(b: Bus, p: nat): nat
    requires p < |b.queues|
  {
    (p - b.lastProc) % |b.queues|
  }

  lemma {:induction false} FirstInOrder(b: Bus, i: nat, p: nat)
    requires Homed(b) && p < |b.queues| && b.queues[p] != [] && i <= Distance(b, p)
    ensures NextProc(b, i).Some?
    ensures Distance(b, NextProc(b, i).value) <= Distance(b, p)
    decreases |b.queues| - i
  {
    var n := |b.queues|;
    var pos := (i + b.lastProc) % n;
    RoundTrip(p, b.lastProc, n);
    OneWrap(i + b.lastProc, n);
    OneWrap(pos - b.lastProc, n);
    if b.queues[pos] == [] { FirstInOrder(b, i + 1, p); }
  }

  lemma {:induction false} StepKeepsQueues(b: Bus, e: Event, b': Bus)
    requires Homed(b) && Step(b, e, b')
    ensures Homed(b') && |b'.queues| == |b.queues|
    ensures e.Dequeued? ==> e.t.proc == NextProc(b, 0).value
  {}

  /** A dequeue of another processor brings p's turn strictly closer. */
  lemma {:induction false} TurnComesCloser(b: Bus, p: nat)
    requires Homed(b) && p < |b.queues| && b.queues[p] != []
    requires NextProc(b, 0).Some? && NextProc(b, 0).value != p
    ensures Distance(Arbitrate(b), p) < Distance(b, p)
  {
    FirstInOrder(b, 0, p);
    var n, q := |b.queues|, NextProc(b, 0).value;
    OneWrap(q + 1, n);
    RoundTrip(p, b.lastProc, n);
    RoundTrip(q, b.lastProc, n);
    OneWrap(p - (q + 1) % n, n);
  }

  lemma {:induction false} RunShorter(bs: seq<Bus>, es: seq<Event>)
    requires IsRun(bs, es) && es != []
    ensures IsRun(bs[..|es|], es[..|es| - 1])
  {}

  /** Per processor: what was taken, then what is still queued, is what was queued at first and what
      was added since, in that order. */
  lemma {:induction false} FirstInFirstOut(bs: seq<Bus>, es: seq<Event>, p: nat)
    requires IsRun(bs, es) && p < |bs[0].queues|
    ensures Homed(bs[|es|]) && |bs[|es|].queues| == |bs[0].queues|
    ensures Dequeues(es, p) + bs[|es|].queues[p] == bs[0].queues[p] + Enqueues(es, p)
    decreases |es|
  {
    hide Step, Homed;
    if es != [] {
      var n := |es| - 1;
      RunShorter(bs, es);
      FirstInFirstOut(bs[..n + 1], es[..n], p);
      var b, e := bs[n], es[n];
      assert Step(b, e, bs[n + 1]);
      StepKeepsQueues(b, e, bs[n + 1]);
      FifoStep(b, e, bs[n + 1], es, bs[0].queues[p], p);
    }
  }

  /** The last step of a run keeps the balance of p's queue. */
  lemma {:induction false} FifoStep(b: Bus, e: Event, b': Bus, es: seq<Event>, start: seq<Txn>, p: nat)
    requires Homed(b) && Step(b, e, b') && p < |b.queues| == |b'.queues| && es != [] && e == es[|es| - 1]
    requires e.Dequeued? ==> e.t.proc == NextProc(b, 0).value
    requires Dequeues(es[..|es| - 1], p) + b.queues[p] == start + Enqueues(es[..|es| - 1], p)
    ensures Dequeues(es, p) + b'.queues[p] == start + Enqueues(es, p)
  {
    hide Homed;
    var d, q, add := Dequeues(es[..|es| - 1], p), b.queues[p], Enqueues(es[..|es| - 1], p);
    if e.Enqueued? && e.t.proc == p {
      assert d + (q + [e.t]) == (d + q) + [e.t];
      assert start + (add + [e.t]) == (start + add) + [e.t];
    } else if e.Dequeued? && e.t.proc == p {
      assert [e.t] + q[1..] == q;
      assert (d + [e.t]) + q[1..] == d + q;
    } else {
      assert d + [] == d && add + [] == add;
    }
  }

  ghost function OthersServed(es: seq<Event>, p: nat): nat {
    if es == [] then 0
    else OthersServed(es[..|es| - 1], p) + (if es[|es| - 1].Dequeued? && es[|es| - 1].t.proc != p then 1 else 0)
  }

  /** While processor p has a transaction queued and none of p's is taken, the dequeues of all other
      processors together are fewer than n. */
  lemma {:induction false} BoundedOvertaking(bs: seq<Bus>, es: seq<Event>, p: nat)
    requires IsRun(bs, es) && p < |bs[0].queues|
    requires bs[0].queues[p] != [] && Dequeues(es, p) == []
    ensures Homed(bs[|es|]) && |bs[|es|].queues| == |bs[0].queues| && bs[|es|].queues[p] != []
    ensures OthersServed(es, p) + Distance(bs[|es|], p) <= Distance(bs[0], p)
    ensures OthersServed(es, p) <= |bs[0].queues| - 1
    decreases |es|
  {
    hide Enqueues, NextProc, Homed, Arbitrate;
    FirstInFirstOut(bs, es, p);
    if es != [] {
      var n := |es| - 1;
      RunShorter(bs, es);
      BoundedOvertaking(bs[..n + 1], es[..n], p);
      var b, e := bs[n], es[n];
      assert Step(b, e, bs[n + 1]);
      StepKeepsQueues(b, e, bs[n + 1]);
      if e.Dequeued? {
        TurnComesCloser(b, p);
      }
    }
  }
}
