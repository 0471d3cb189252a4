/** Lookup and replacement within one set (teamCache/lookup.c, teamCache/replacement.c): what the
    scans compute, in closed form, and the in-place loops that compute it. */
module Replacement {
  import opened Protocol
  import opened Bits
  import opened Geometry

  datatype Line = Line(valid: bool, tag: nat, stamp: nat, dirty: bool)

  /** The first way holding the tag. */
  function FindWay(lines: seq<Line>, tag: nat, from: nat := 0): (r: Option<nat>)
    ensures r.Some? ==> from <= r.value < |lines| && lines[r.value].valid && lines[r.value].tag == tag
    ensures r.Some? ==> forall w :: from <= w < r.value ==> !(lines[w].valid && lines[w].tag == tag)
    ensures r.None? ==> forall w :: from <= w < |lines| ==> !(lines[w].valid && lines[w].tag == tag)
    decreases |lines| - from
  {
    if from >= |lines| then None
    else if lines[from].valid && lines[from].tag == tag then Some(from)
    else FindWay(lines, tag, from + 1)
  }

  function FirstInvalid(lines: seq<Line>, from: nat := 0): (r: Option<nat>)
    ensures r.Some? ==> from <= r.value < |lines| && !lines[r.value].valid
    ensures r.Some? ==> forall w :: from <= w < r.value ==> lines[w].valid
    ensures r.None? ==> forall w :: from <= w < |lines| ==> lines[w].valid
    decreases |lines| - from
  {
    if from >= |lines| then None
    else if !lines[from].valid then Some(from)
    else FirstInvalid(lines, from + 1)
  }

  /** The first way with the smallest stamp. */
  ghost predicate IsLruVictim(lines: seq<Line>, v: nat) {
    && v < |lines|
    && (forall w :: 0 <= w < |lines| ==> lines[v].stamp <= lines[w].stamp)
    && (forall w :: 0 <= w < v ==> lines[v].stamp < lines[w].stamp)
  }

  /** The first way with the largest stamp. */
  ghost predicate IsRripVictim(lines: seq<Line>, v: nat) {
    && v < |lines|
    && (forall w :: 0 <= w < |lines| ==> lines[w].stamp <= lines[v].stamp)
    && (forall w :: 0 <= w < v ==> lines[w].stamp < lines[v].stamp)
  }

  function LruWay(lines: seq<Line>): (v: nat)
    requires lines != []
    ensures IsLruVictim(lines, v)
  {
    if |lines| == 1 then 0
    else
      var v := LruWay(lines[..|lines| - 1]);
      if lines[|lines| - 1].stamp < lines[v].stamp then |lines| - 1 else v
  }

  function RripWay(lines: seq<Line>): (v: nat)
    requires lines != []
    ensures IsRripVictim(lines, v)
  {
    if |lines| == 1 then 0
    else
      var v := RripWay(lines[..|lines| - 1]);
      if lines[v].stamp < lines[|lines| - 1].stamp then |lines| - 1 else v
  }

  lemma {:induction false} VictimsUnique(lines: seq<Line>, v: nat)
    requires lines != []
    ensures IsLruVictim(lines, v) ==> v == LruWay(lines)
    ensures IsRripVictim(lines, v) ==> v == RripWay(lines)
  {}

  /** Every line aged by the same amount. */
  function Aged(lines: seq<Line>, years: nat): (r: seq<Line>) {
    seq(|lines|, w requires 0 <= w < |lines| => lines[w].(stamp := lines[w].stamp + years))
  }

  /** Aging to the maximum at once: the closed form of the scan-and-increment loop. */
  function RripAged(lines: seq<Line>, maximum: nat): (r: seq<Line>)
    requires lines != []
    ensures |r| == |lines|
    ensures forall w :: 0 <= w < |lines| ==> r[w] == lines[w].(stamp := r[w].stamp)
  {
    var top := lines[RripWay(lines)].stamp;
    Aged(lines, if top <= maximum then maximum - top else 0)
  }

  /** What choosing a way does to a set: the first invalid way, with no line changed; else under LRU the
      first with the oldest stamp, with no line changed; else under RRIP the first with the largest value,
      with every value raised by what the largest lacks of the maximum. */
  ghost predicate Chosen(p: Params, before: seq<Line>, after: seq<Line>, way: nat) {
    && way < |before| == |after|
    && if exists w :: 0 <= w < |before| && !before[w].valid then
         after == before && !before[way].valid && forall w :: 0 <= w < way ==> before[w].valid
       else if p.policy == Lru then after == before && IsLruVictim(before, way)
       else
         && IsRripVictim(before, way)
         && forall w :: 0 <= w < |before| ==>
              after[w] == before[w].(stamp := after[w].stamp)
              && after[w].stamp + before[way].stamp == before[w].stamp + p.RripMax()
  }

  /** The values a policy allows. */
  ghost predicate StampsOk(p: Params, lines: seq<Line>) {
    p.policy == Rrip ==> forall w :: 0 <= w < |lines| ==> lines[w].stamp <= p.RripMax()
  }

  /** cache_replacement_target: the first invalid way, or the policy's victim; RRIP also ages. */
  function Target(p: Params, lines: seq<Line>): (r: (seq<Line>, nat))
    requires lines != []
    ensures r.1 < |lines| == |r.0|
    ensures forall w :: 0 <= w < |lines| ==> r.0[w] == lines[w].(stamp := r.0[w].stamp)
    ensures StampsOk(p, lines) ==> Chosen(p, lines, r.0, r.1)
  {
    var free := FirstInvalid(lines);
    if free.Some? then (lines, free.value)
    else match p.policy
      case Lru => (lines, LruWay(lines))
      case Rrip => (RripAged(lines, p.RripMax()), RripWay(lines))
  }

  /** RRIP's values stay within the maximum, and the victim is at it. */
  lemma {:induction false} RripStaysBounded(p: Params, lines: seq<Line>)
    requires lines != [] && p.policy == Rrip && forall w :: 0 <= w < |lines| ==> lines[w].stamp <= p.RripMax()
    ensures var (r, v) := Target(p, lines);
            && (forall w :: 0 <= w < |r| ==> r[w].stamp <= p.RripMax())
            && (FirstInvalid(lines).None? ==> r[v].stamp == p.RripMax())
  {}

  /* The loops, in place. */

  /** cache_lookup within a set. */
  method Lookup(lines: array<Line>, tag: nat) returns (way: Option<nat>)
    ensures way == FindWay(lines[..], tag)
  {
    var w := 0;
    while w < lines.Length
      invariant 0 <= w <= lines.Length
      invariant FindWay(lines[..], tag) == FindWay(lines[..], tag, w)
    {
      if lines[w].valid && lines[w].tag == tag {
        return Some(w);
      }
      w := w + 1;
    }
    way := None;
  }

  /** lru_victim */
  method LruVictim(lines: array<Line>) returns (victim: nat)
    requires lines.Length > 0
    ensures victim == LruWay(lines[..])
  {
    victim := 0;
    var w := 1;
    while w < lines.Length
      invariant 1 <= w <= lines.Length && victim < w
      invariant forall k :: 0 <= k < w ==> lines[victim].stamp <= lines[k].stamp
      invariant forall k :: 0 <= k < victim ==> lines[victim].stamp < lines[k].stamp
    {
      if lines[w].stamp < lines[victim].stamp {
        victim := w;
      }
      w := w + 1;
    }
    VictimsUnique(lines[..], victim);
  }

  /** The second half of rrip_victim's round: one more for every way. */
  method AgeAll(lines: array<Line>)
    modifies lines
    ensures lines[..] == Aged(old(lines[..]), 1)
  {
    var w := 0;
    while w < lines.Length
      invariant 0 <= w <= lines.Length
      invariant forall k :: 0 <= k < w ==> lines[k] == old(lines[k]).(stamp := old(lines[k].stamp) + 1)
      invariant forall k :: w <= k < lines.Length ==> lines[k] == old(lines[k])
    {
      lines[w] := lines[w].(stamp := lines[w].stamp + 1);
      w := w + 1;
    }
  }

  /** The first half: the first way at the maximum. */
  method FindTop(lines: array<Line>, maximum: nat) returns (way: Option<nat>)
    ensures way.Some? ==> way.value < lines.Length && lines[way.value].stamp == maximum
    ensures forall k :: 0 <= k < (if way.Some? then way.value else lines.Length) ==> lines[k].stamp != maximum
  {
    var w := 0;
    while w < lines.Length
      invariant 0 <= w <= lines.Length
      invariant forall k :: 0 <= k < w ==> lines[k].stamp != maximum
    {
      if lines[w].stamp == maximum { return Some(w); }
      w := w + 1;
    }
    way := None;
  }

  /** rrip_victim: scan for the maximum, else add one to every way and scan again. On a set whose
      values are at most the maximum it terminates with the closed form, and no value ever exceeds
      the maximum, so none wraps. */
  method RripVictim(lines: array<Line>, maximum: nat) returns (victim: nat)
    requires lines.Length > 0
    requires forall w :: 0 <= w < lines.Length ==> lines[w].stamp <= maximum
    modifies lines
    ensures victim == RripWay(old(lines[..])) && lines[..] == RripAged(old(lines[..]), maximum)
    ensures lines[victim].stamp == maximum
    ensures forall w :: 0 <= w < lines.Length ==> lines[w].stamp <= maximum
  {
    ghost var before := lines[..];
    ghost var top := before[RripWay(before)].stamp;
    ghost var years := 0;
    while true
      invariant 0 <= years <= maximum - top
      invariant lines[..] == Aged(before, years)
      decreases maximum - top - years
    {
      var way := FindTop(lines, maximum);
      if way.Some? {
        victim := way.value;
        assert before[victim].stamp + years == maximum;
        assert forall k :: 0 <= k < victim ==> before[k].stamp + years != maximum;
        VictimsUnique(before, victim);
        return;
      }
      assert lines[RripWay(before)].stamp == top + years != maximum;
      AgeAll(lines);
      years := years + 1;
      assert lines[..] == Aged(before, years);
    }
  }

  /** cache_replacement_target */
  method ReplacementTarget(p: Params, lines: array<Line>) returns (way: nat)
    requires lines.Length > 0
    requires StampsOk(p, lines[..])
    modifies lines
    ensures (lines[..], way) == Target(p, old(lines[..]))
    ensures Chosen(p, old(lines[..]), lines[..], way)
  {
    var w := 0;
    while w < lines.Length
      invariant 0 <= w <= lines.Length && lines[..] == old(lines[..])
      invariant FirstInvalid(lines[..]) == FirstInvalid(lines[..], w)
    {
      if !lines[w].valid {
        return w;
      }
      w := w + 1;
    }
    if p.policy == Lru {
      way := LruVictim(lines);
    } else {
      way := RripVictim(lines, p.RripMax());
    }
  }
}
