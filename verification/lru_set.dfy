/** One set under LRU: its lines hold a list of distinct tags, most recently used first. */
module LruSet {
  import opened Protocol
  import opened Replacement

  /** The list without x. */
  function Without(t: seq<nat>, x: nat): (r: seq<nat>)
    ensures |r| <= |t| && x !in r
  {
    if t == [] then [] else if t[0] == x then Without(t[1..], x) else [t[0]] + Without(t[1..], x)
  }

  /** Using x makes it the most recent. */
  function Used(t: seq<nat>, x: nat): seq<nat> { [x] + Without(t, x) }

  function Take(t: seq<nat>, n: nat): (r: seq<nat>) {
    if |t| <= n then t else t[..n]
  }

  ghost predicate NoDup(t: seq<nat>) {
    forall i, j :: 0 <= i < j < |t| ==> t[i] != t[j]
  }

  lemma {:induction false} WithoutSplit(t: seq<nat>, i: nat)
    requires NoDup(t) && i < |t|
    ensures Without(t, t[i]) == t[..i] + t[i + 1..]
  {
    if i == 0 {
      WithoutAbsent(t[1..], t[0]);
    } else {
      assert NoDup(t[1..]);
      WithoutSplit(t[1..], i - 1);
      assert t[0] != t[i];
      assert t[1..][..i - 1] == t[1..i];
      assert [t[0]] + t[1..i] == t[..i];
    }
  }

  lemma {:induction false} WithoutAbsent(t: seq<nat>, x: nat)
    requires x !in t
    ensures Without(t, x) == t
  {
    if t != [] { WithoutAbsent(t[1..], x); }
  }

  lemma {:induction false} UsedNoDup(t: seq<nat>, x: nat)
    requires NoDup(t)
    ensures NoDup(Used(t, x))
  {
    if x in t {
      var i :| 0 <= i < |t| && t[i] == x;
      WithoutSplit(t, i);
    } else {
      WithoutAbsent(t, x);
    }
  }

  lemma {:induction false} TakeConcat(a: seq<nat>, b: seq<nat>, n: nat)
    requires |a| <= n <= |a| + |b|
    ensures (a + b)[..n] == a + b[..n - |a|]
  {}

  /** Using a tag that is among the first n only reorders them. */
  lemma {:induction false} UsedWithin(t: seq<nat>, n: nat, x: nat)
    requires NoDup(t) && x in Take(t, n)
    ensures Take(Used(t, x), n) == Used(Take(t, n), x)
  {
    var u := Take(t, n);
    var i :| 0 <= i < |u| && u[i] == x;
    WithoutSplit(t, i);
    WithoutSplit(u, i);
    if |t| > n {
      var before, rest := [x] + t[..i], t[i + 1..];
      assert [x] + (t[..i] + rest) == before + rest;
      TakeConcat(before, rest, n);
      assert u[..i] == t[..i] && u[i + 1..] == rest[..n - |before|];
    }
  }

  /** Using any other tag pushes out the n-th. */
  lemma {:induction false} UsedBeyond(t: seq<nat>, n: nat, x: nat)
    requires NoDup(t) && n >= 1 && x !in Take(t, n)
    ensures Take(Used(t, x), n) == [x] + Take(t, n - 1)
  {
    if x in t {
      var i :| 0 <= i < |t| && t[i] == x;
      assert i >= n;
      WithoutSplit(t, i);
    } else {
      WithoutAbsent(t, x);
    }
  }

  function ValidCount(lines: seq<Line>): (n: nat)
    ensures n <= |lines|
  {
    if lines == [] then 0 else (if lines[0].valid then 1 else 0) + ValidCount(lines[1..])
  }

  lemma {:induction false} CountUpdate(lines: seq<Line>, w: nat, line: Line)
    requires w < |lines|
    ensures ValidCount(lines[w := line]) + (if lines[w].valid then 1 else 0)
            == ValidCount(lines) + (if line.valid then 1 else 0)
  {
    if w == 0 {
      assert lines[0 := line][1..] == lines[1..];
    } else {
      CountUpdate(lines[1..], w - 1, line);
      assert lines[w := line][1..] == lines[1..][w - 1 := line];
    }
  }

  lemma {:induction false} CountFull(lines: seq<Line>)
    ensures ValidCount(lines) == |lines| <==> forall w :: 0 <= w < |lines| ==> lines[w].valid
  {
    if lines != [] {
      CountFull(lines[1..]);
      assert forall w :: 0 < w < |lines| ==> lines[w] == lines[1..][w - 1];
    }
  }

  ghost predicate Held(lines: seq<Line>, x: nat) {
    exists w :: 0 <= w < |lines| && lines[w].valid && lines[w].tag == x
  }

  /** No tag is valid in two ways. */
  ghost predicate Unique(lines: seq<Line>) {
    forall v, w :: 0 <= v < w < |lines| && lines[v].valid && lines[w].valid ==> lines[v].tag != lines[w].tag
  }

  /** The stamp of the line that holds x. */
  ghost function StampOf(lines: seq<Line>, x: nat): nat {
    var w := FindWay(lines, x);
    if w.Some? then lines[w.value].stamp else 0
  }

  /** The valid lines hold exactly the tags of t, and newer stamps belong to earlier tags. */
  ghost predicate Holds(lines: seq<Line>, t: seq<nat>, sequence: nat) {
    && NoDup(t) && Unique(lines) && ValidCount(lines) == |t|
    && (forall w :: 0 <= w < |lines| && lines[w].valid ==> lines[w].tag in t)
    && (forall i :: 0 <= i < |t| ==> Held(lines, t[i]))
    && (forall i, j :: 0 <= i < j < |t| ==> StampOf(lines, t[i]) > StampOf(lines, t[j]))
    && (forall w :: 0 <= w < |lines| ==> lines[w].stamp <= sequence)
  }

  /** The way that holds a tag is the only one. */
  lemma {:induction false} TheWay(lines: seq<Line>, w: nat)
    requires Unique(lines) && w < |lines| && lines[w].valid
    ensures FindWay(lines, lines[w].tag) == Some(w)
  {}

  lemma {:induction false} UsedKeeps(t: seq<nat>, x: nat, y: nat)
    ensures y in Used(t, x) <==> y == x || y in t
  {
    if t != [] { UsedKeeps(t[1..], x, y); }
  }

  lemma {:induction false} SameElsewhere(lines: seq<Line>, lines': seq<Line>, w: nat, y: nat)
    requires Unique(lines) && Unique(lines') && |lines| == |lines'| && w < |lines|
    requires forall v :: 0 <= v < |lines| && v != w ==> lines'[v] == lines[v]
    requires !lines[w].valid || lines[w].tag != y
    requires !lines'[w].valid || lines'[w].tag != y
    ensures FindWay(lines', y) == FindWay(lines, y) && StampOf(lines', y) == StampOf(lines, y)
    ensures Held(lines', y) <==> Held(lines, y)
  {}

  /** The LRU victim of a full set holds the last tag of the list. */
  lemma {:induction false} VictimIsLast(lines: seq<Line>, t: seq<nat>, sequence: nat)
    requires Holds(lines, t, sequence) && lines != [] && FirstInvalid(lines).None?
    ensures |t| == |lines| && lines[LruWay(lines)].tag == t[|t| - 1]
  {
    CountFull(lines);
    var v, last := LruWay(lines), t[|t| - 1];
    var w :| 0 <= w < |lines| && lines[w].valid && lines[w].tag == last;
    TheWay(lines, w);
    TheWay(lines, v);
    var i :| 0 <= i < |t| && t[i] == lines[v].tag;
    assert i < |t| - 1 ==> StampOf(lines, t[i]) > StampOf(lines, last);
  }

  /** t' is t without its i-th element. */
  ghost predicate Shortened(t: seq<nat>, t': seq<nat>, i: nat) {
    && i < |t| == |t'| + 1
    && (forall j :: 0 <= j < i ==> t'[j] == t[j])
    && (forall j :: i <= j < |t'| ==> t'[j] == t[j + 1])
  }

  lemma {:induction false} ShortenedKeeps(t: seq<nat>, t': seq<nat>, i: nat, y: nat)
    requires Shortened(t, t', i) && NoDup(t)
    ensures NoDup(t') && (y in t' <==> y in t && y != t[i])
  {
    if y in t && y != t[i] {
      var j :| 0 <= j < |t| && t[j] == y;
      if j > i { assert t'[j - 1] == t[j]; } else { assert t'[j] == t[j]; }
    }
  }

  /** What giving up the line of t[i] does to another tag. */
  lemma {:induction false} OtherTag(lines: seq<Line>, t: seq<nat>, t': seq<nat>, sequence: nat, w: nat, i: nat, y: nat)
    requires Holds(lines, t, sequence) && Shortened(t, t', i) && y in t'
    requires w < |lines| && lines[w].valid && lines[w].tag == t[i]
    ensures var lines' := lines[w := lines[w].(valid := false)];
            y != t[i] && StampOf(lines', y) == StampOf(lines, y) && Held(lines', y)
  {
    hide FindWay;
    var lines' := lines[w := lines[w].(valid := false)];
    ShortenedKeeps(t, t', i, y);
    SameElsewhere(lines, lines', w, y);
  }

  /** Giving up a line removes its tag from the list. */
  lemma {:induction false} Removed(lines: seq<Line>, t: seq<nat>, t': seq<nat>, sequence: nat, w: nat, i: nat)
    requires Holds(lines, t, sequence) && Shortened(t, t', i)
    requires w < |lines| && lines[w].valid && lines[w].tag == t[i]
    ensures Holds(lines[w := lines[w].(valid := false)], t', sequence)
  {
    hide FindWay, StampOf, Held;
    var lines' := lines[w := lines[w].(valid := false)];
    CountUpdate(lines, w, lines'[w]);
    assert Unique(lines');
    forall v | 0 <= v < |lines'| && lines'[v].valid ensures lines'[v].tag in t' {
      ShortenedKeeps(t, t', i, lines[v].tag);
    }
    ShortenedKeeps(t, t', i, 0);
    forall a | 0 <= a < |t'|
      ensures StampOf(lines', t'[a]) == StampOf(lines, t[if a < i then a else a + 1]) && Held(lines', t'[a])
    {
      OtherTag(lines, t, t', sequence, w, i, t'[a]);
    }
  }

  /** Filling an invalid way with a tag that is not held. */
  lemma {:induction false} Put(lines: seq<Line>, t: seq<nat>, sequence: nat, w: nat, line: Line)
    requires Holds(lines, t, sequence) && w < |lines| && !lines[w].valid
    requires line.valid && line.tag !in t && line.stamp == sequence + 1
    ensures Holds(lines[w := line], [line.tag] + t, sequence + 1)
  {
    hide FindWay, StampOf, Held, Unique, NoDup, ValidCount;
    var lines', t' := lines[w := line], [line.tag] + t;
    CountUpdate(lines, w, line);
    PutUnique(lines, w, line);
    ConsNoDup(line.tag, t);
    NewStamp(lines', w);
    forall y | y in t
      ensures StampOf(lines', y) == StampOf(lines, y) <= sequence && (Held(lines', y) <==> Held(lines, y))
    {
      SameElsewhere(lines, lines', w, y);
      OldStamp(lines, sequence, y);
    }
  }

  lemma {:induction false} PutUnique(lines: seq<Line>, w: nat, line: Line)
    requires Unique(lines) && w < |lines|
    requires forall v :: 0 <= v < |lines| && lines[v].valid ==> lines[v].tag != line.tag
    ensures Unique(lines[w := line])
  {}

  lemma {:induction false} ConsNoDup(x: nat, t: seq<nat>)
    requires NoDup(t) && x !in t
    ensures NoDup([x] + t)
  {}

  lemma {:induction false} NewStamp(lines: seq<Line>, w: nat)
    requires Unique(lines) && w < |lines| && lines[w].valid
    ensures StampOf(lines, lines[w].tag) == lines[w].stamp && Held(lines, lines[w].tag)
  {
    TheWay(lines, w);
  }

  lemma {:induction false} OldStamp(lines: seq<Line>, sequence: nat, y: nat)
    requires forall w :: 0 <= w < |lines| ==> lines[w].stamp <= sequence
    ensures StampOf(lines, y) <= sequence
  {}

  /** A hit: the line is as good as given up and filled again. */
  lemma {:induction false} Touched(lines: seq<Line>, t: seq<nat>, sequence: nat, w: nat, line: Line)
    requires Holds(lines, t, sequence) && w < |lines| && lines[w].valid
    requires line.valid && line.tag == lines[w].tag && line.stamp == sequence + 1
    ensures Holds(lines[w := line], Used(t, line.tag), sequence + 1)
  {
    hide NoDup, Unique, Held, StampOf, ValidCount, FindWay;
    var i :| 0 <= i < |t| && t[i] == line.tag;
    var gone, t' := lines[w := lines[w].(valid := false)], Without(t, line.tag);
    WithoutSplit(t, i);
    Removed(lines, t, t', sequence, w, i);
    Put(gone, t', sequence, w, line);
    assert gone[w := line] == lines[w := line];
  }
}
