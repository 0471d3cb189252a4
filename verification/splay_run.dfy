/** Whole runs over the splay tree: against a plain finite map, and their total cost. */
module SplayRun {
  import opened SplayCost
  import opened SplayHeap

  datatype Op = Put(key: int, record: int) | Get(key: int) | Nearest(key: int) | Take(key: int)

  /** What an operation does to a finite map, and what it returns (0 for NULL). */
  ghost function After(m: map<int, int>, op: Op): map<int, int> {
    match op
    case Put(k, r) => m[k := r]
    case Take(k) => m - {k}
    case _ => m
  }

  ghost function Answer(m: map<int, int>, op: Op): int {
    match op
    case Put(_, _) => 1
    case Get(k) => Lookup(m, k)
    case Take(k) => Lookup(m, k)
    case Nearest(k) => if exists j :: IsFloor(j, k, m) then var j :| IsFloor(j, k, m); m[j] else 0
  }

  ghost function Lookup(m: map<int, int>, k: int): int {
    if k in m then m[k] else 0
  }

  ghost function MapAfter(ops: seq<Op>): map<int, int> {
    if ops == [] then map[] else After(MapAfter(ops[..|ops| - 1]), ops[|ops| - 1])
  }

  lemma {:induction false} MapIsSmall(ops: seq<Op>)
    ensures |MapAfter(ops)| <= |ops|
  {
    if ops != [] {
      var m, op := MapAfter(ops[..|ops| - 1]), ops[|ops| - 1];
      MapIsSmall(ops[..|ops| - 1]);
      if op.Put? {
        assert After(m, op).Keys == m.Keys + {op.key};
      } else if op.Take? {
        assert After(m, op).Keys <= m.Keys;
        SmallerKeys(m, op.key);
      }
    }
  }

  lemma {:induction false} SmallerKeys(m: map<int, int>, k: int)
    ensures |m - {k}| <= |m|
  {}

  /** No operation of the run needs more than this charge. */
  ghost function Charge(n: nat): nat { 4 * Rank(n) + 1 }

  lemma {:induction false} EnoughCharge(ops: seq<Op>, i: nat)
    requires i < |ops|
    ensures MapAfter(ops[..i + 1]) == After(MapAfter(ops[..i]), ops[i])
    ensures 4 * Rank(|MapAfter(ops[..i])|) + 1 <= Charge(|ops|)
    ensures 4 * Rank(|MapAfter(ops[..i + 1])|) + 1 <= Charge(|ops|)
  {
    assert ops[..i + 1][..i] == ops[..i];
    MapIsSmall(ops[..i]);
    MapIsSmall(ops[..i + 1]);
    RankMonotone(|MapAfter(ops[..i])|, |ops|);
    RankMonotone(|MapAfter(ops[..i + 1])|, |ops|);
  }

  /** n times c */
  ghost function Times(n: nat, c: nat): nat {
    if n == 0 then 0 else Times(n - 1, c) + c
  }

  lemma {:induction false} TimesIsProduct(n: nat, c: nat)
    ensures Times(n, c) == n * c
  {
    if n > 0 {
      TimesIsProduct(n - 1, c);
      assert n * c == (n - 1) * c + c;
    }
  }

  /** The answers a finite map gives to the operations so far. */
  ghost predicate Faithful(ops: seq<Op>, answers: seq<int>) {
    |answers| <= |ops| && forall i :: 0 <= i < |answers| ==> answers[i] == Answer(MapAfter(ops[..i]), ops[i])
  }

  lemma {:induction false} FaithfulGrows(ops: seq<Op>, answers: seq<int>, a: int)
    requires Faithful(ops, answers) && |answers| < |ops|
    requires a == Answer(MapAfter(ops[..|answers|]), ops[|answers|])
    ensures Faithful(ops, answers + [a])
  {}

  /** Any sequence of operations on a new tree answers as a finite map would, and its m operations
      take at most m (4 floor(log2 m) + 1) iterations of the splay loop. */
  method Replay(ops: seq<Op>) returns (answers: seq<int>, tree: SplayTree)
    ensures tree.Valid() && tree.contents == MapAfter(ops)
    ensures |answers| == |ops| && Faithful(ops, answers)
    ensures tree.work <= |ops| * Charge(|ops|)
  {
    tree := new SplayTree();
    assert ops[..|ops|] == ops;
    answers := Continue(tree, ops, [], Charge(|ops|));
    TimesIsProduct(|ops|, Charge(|ops|));
  }

  ghost predicate OnTrack(tree: SplayTree, ops: seq<Op>, answers: seq<int>, charge: nat)
    reads tree
  {
    Track(ops, answers, charge, tree.contents, tree.work + Potential(tree.shape))
  }

  /** The answers and the map are right, and the operations have been paid for. */
  ghost predicate Track(ops: seq<Op>, answers: seq<int>, charge: nat, contents: map<int, int>, paid: int) {
    && Faithful(ops, answers)
    && contents == MapAfter(ops[..|answers|])
    && paid <= Times(|answers|, charge)
  }

  lemma {:induction false} TrackGrows(ops: seq<Op>, answers: seq<int>, charge: nat, contents: map<int, int>, paid: int,
                                      answer: int, paid': int)
    requires Track(ops, answers, charge, contents, paid) && |answers| < |ops| && paid' <= paid + charge
    requires answer == Answer(contents, ops[|answers|])
    ensures Track(ops, answers + [answer], charge, After(contents, ops[|answers|]), paid')
  {
    hide Answer, After;
    FaithfulGrows(ops, answers, answer);
    EnoughCharge(ops, |answers|);
    assert Times(|answers| + 1, charge) == Times(|answers|, charge) + charge;
  }

  method Continue(tree: SplayTree, ops: seq<Op>, answers: seq<int>, ghost charge: nat) returns (all: seq<int>)
    requires tree.Valid() && OnTrack(tree, ops, answers, charge) && charge == Charge(|ops|)
    modifies tree, tree.nodes
    ensures tree.Valid() && |all| == |ops| && OnTrack(tree, ops, all, charge)
    decreases |ops| - |answers|
  {
    if |answers| == |ops| {
      all := answers;
    } else {
      var more := Answered(tree, ops, answers, charge);
      all := Continue(tree, ops, more, charge);
    }
  }

  /** One more operation of the run. */
  method Answered(tree: SplayTree, ops: seq<Op>, answers: seq<int>, ghost charge: nat) returns (more: seq<int>)
    requires tree.Valid() && OnTrack(tree, ops, answers, charge) && charge == Charge(|ops|) && |answers| < |ops|
    modifies tree, tree.nodes
    ensures tree.Valid() && fresh(tree.nodes - old(tree.nodes))
    ensures |more| == |answers| + 1 && OnTrack(tree, ops, more, charge)
  {
    hide SplayTree.Valid, Rank, Potential, Answer;
    ghost var contents, paid := tree.contents, tree.work + Potential(tree.shape);
    EnoughCharge(ops, |answers|);
    var answer := Step(tree, ops[|answers|], charge);
    TrackGrows(ops, answers, charge, contents, paid, answer, tree.work + Potential(tree.shape));
    more := answers + [answer];
  }

  method Step(tree: SplayTree, op: Op, ghost charge: nat) returns (answer: int)
    requires tree.Valid()
    requires 4 * Rank(|tree.contents|) + 1 <= charge
    requires 4 * Rank(|After(tree.contents, op)|) + 1 <= charge
    modifies tree, tree.nodes
    ensures tree.Valid() && fresh(tree.nodes - old(tree.nodes))
    ensures tree.contents == After(old(tree.contents), op)
    ensures answer == Answer(old(tree.contents), op)
    ensures tree.work + Potential(tree.shape) <= old(tree.work + Potential(tree.shape)) + charge
  {
    hide SplayTree.Valid, Rank, Potential, IsFloor;
    match op
    case Put(k, r) =>
      var ok := tree.Insert(k, r);
      answer := if ok then 1 else 0;
    case Get(k) => answer := tree.Find(k);
    case Take(k) => answer := tree.Remove(k);
    case Nearest(k) => answer := Floor(tree, k);
  }

  method Floor(tree: SplayTree, k: int) returns (answer: int)
    requires tree.Valid()
    ensures answer == Answer(tree.contents, Nearest(k))
  {
    answer := tree.FindNearest(k);
    assert forall j :: IsFloor(j, k, tree.contents) ==> j in tree.contents && j <= k;
  }
}
