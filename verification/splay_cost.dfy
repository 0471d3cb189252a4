/** The amortised cost of the splay loop of coherence/stree.c, in integers: the potential of a tree
    is the sum over its subtrees of floor(log2(size)), and every loop iteration is charged 1. */
module SplayCost {
  import opened Bits
  import opened SplayShape

  lemma {:induction false} LogExists(n: nat) returns (k: nat)
    requires n >= 1
    ensures Pow2(k) <= n < 2 * Pow2(k)
  {
    if n == 1 {
      k := 0;
    } else {
      k := LogExists(n / 2);
      k := k + 1;
    }
  }

  /** floor(log2(n)) for n >= 1 */
  ghost function Rank(n: nat): nat {
    if n == 0 then 0 else
      assert exists k: nat :: Pow2(k) <= n < 2 * Pow2(k) by { var k := LogExists(n); }
      var k: nat :| Pow2(k) <= n < 2 * Pow2(k); k
  }

  lemma {:induction false} RankIsLog(n: nat, k: nat)
    requires n >= 1
    ensures k <= Rank(n) <==> Pow2(k) <= n
    ensures Rank(1) == 0
  {
    var r := Rank(n);
    if k <= r { Pow2Monotone(k, r); } else { Pow2Monotone(r + 1, k); }
    if Rank(1) > 0 { Pow2Monotone(1, Rank(1)); }
  }

  lemma {:induction false} RankMonotone(m: nat, n: nat)
    requires m <= n
    ensures Rank(m) <= Rank(n)
  {
    if m > 0 {
      RankIsLog(m, Rank(m));
      RankIsLog(n, Rank(m));
    }
  }

  /** Two disjoint parts of a tree cannot both have the rank of the whole. */
  lemma {:induction false} TwoParts(a: nat, b: nat, n: nat)
    requires a >= 1 && b >= 1 && a + b <= n
    ensures Rank(a) + Rank(b) + 1 <= 2 * Rank(n)
  {
    RankMonotone(a, n);
    RankMonotone(b, n);
    var m := if a <= b then a else b;
    RankMonotone(m, n);
    RankIsLog(m, Rank(m));
    RankIsLog(n, Rank(m) + 1);
  }

  ghost function Potential<T>(t: Tree<T>): nat {
    match t
    case Leaf => 0
    case Node(l, _, r) => Potential(l) + Rank(Size(t)) + Potential(r)
  }

  /** The part of the potential that lies on and beside the path, under a subtree of size n. */
  ghost function PathPotential<T>(n: nat, path: Path<T>): nat
    decreases path
  {
    match path
    case Top => 0
    case InLeft(_, r, up) =>
      Rank(n + 1 + Size(r)) + Potential(r) + PathPotential(n + 1 + Size(r), up)
    case InRight(l, _, up) =>
      Rank(n + 1 + Size(l)) + Potential(l) + PathPotential(n + 1 + Size(l), up)
  }

  ghost function PathSize<T>(path: Path<T>): nat {
    match path
    case Top => 0
    case InLeft(_, r, up) => 1 + Size(r) + PathSize(up)
    case InRight(l, _, up) => Size(l) + 1 + PathSize(up)
  }

  lemma {:induction false} PlugPotential<T>(t: Tree<T>, path: Path<T>)
    ensures Potential(Plug(t, path)) == Potential(t) + PathPotential(Size(t), path)
    ensures Size(Plug(t, path)) == Size(t) + PathSize(path)
    decreases path
  {
    match path
    case Top =>
    case InLeft(p, r, up) =>
      PlugPotential(Node(t, p, r), up);
      OneFrame(t, path, r, Size(t) + 1 + Size(r));
    case InRight(l, p, up) =>
      PlugPotential(Node(l, p, t), up);
      OneFrame(t, path, l, Size(t) + 1 + Size(l));
  }

  lemma {:induction false} OneFrame<T>(t: Tree<T>, path: Path<T>, s: Tree<T>, n: nat)
    requires !path.Top? && s == (if path.InLeft? then path.right else path.left) && n == Size(t) + 1 + Size(s)
    ensures var w := if path.InLeft? then Node(t, path.val, s) else Node(s, path.val, t);
            && Size(w) == n && Potential(w) == Potential(t) + Rank(n) + Potential(s)
            && PathPotential(Size(t), path) == Rank(n) + Potential(s) + PathPotential(n, path.up)
            && Size(t) + PathSize(path) == n + PathSize(path.up)
  {
    PathFrame(Size(t), n, s, path);
    if path.InLeft? { Graft(t, path.val, s, n); } else { Graft(s, path.val, t, n); }
  }

  /* Potentials of the arrangements of two or three nodes over subtrees a, b, c, d in that order.
     The sizes that matter are passed by name. */

  ghost function Parts<T>(a: Tree<T>, b: Tree<T>, c: Tree<T>, d: Tree<T>): nat {
    Potential(a) + Potential(b) + Potential(c) + Potential(d)
  }

  lemma {:induction false} Graft<T>(l: Tree<T>, x: T, r: Tree<T>, n: nat)
    requires n == Size(l) + 1 + Size(r)
    ensures Size(Node(l, x, r)) == n
    ensures Potential(Node(l, x, r)) == Potential(l) + Potential(r) + Rank(n)
  {}

  lemma {:induction false} LeftChain<T>(a: Tree<T>, x: T, b: Tree<T>, y: T, c: Tree<T>, z: T, d: Tree<T>,
                                        i: nat, j: nat, n: nat)
    requires i == Size(a) + 1 + Size(b) && j == i + 1 + Size(c) && n == j + 1 + Size(d)
    ensures Potential(Node(Node(Node(a, x, b), y, c), z, d)) == Parts(a, b, c, d) + Rank(i) + Rank(j) + Rank(n)
  {
    Graft(a, x, b, i);
    Graft(Node(a, x, b), y, c, j);
    Graft(Node(Node(a, x, b), y, c), z, d, n);
  }

  lemma {:induction false} RightChain<T>(a: Tree<T>, x: T, b: Tree<T>, y: T, c: Tree<T>, z: T, d: Tree<T>,
                                         i: nat, j: nat, n: nat)
    requires i == Size(c) + 1 + Size(d) && j == Size(b) + 1 + i && n == Size(a) + 1 + j
    ensures Potential(Node(a, x, Node(b, y, Node(c, z, d)))) == Parts(a, b, c, d) + Rank(i) + Rank(j) + Rank(n)
  {
    Graft(c, z, d, i);
    Graft(b, y, Node(c, z, d), j);
    Graft(a, x, Node(b, y, Node(c, z, d)), n);
  }

  lemma {:induction false} BentLeft<T>(a: Tree<T>, x: T, b: Tree<T>, y: T, c: Tree<T>, z: T, d: Tree<T>,
                                       i: nat, j: nat, n: nat)
    requires i == Size(b) + 1 + Size(c) && j == Size(a) + 1 + i && n == j + 1 + Size(d)
    ensures Potential(Node(Node(a, x, Node(b, y, c)), z, d)) == Parts(a, b, c, d) + Rank(i) + Rank(j) + Rank(n)
  {
    Graft(b, y, c, i);
    Graft(a, x, Node(b, y, c), j);
    Graft(Node(a, x, Node(b, y, c)), z, d, n);
  }

  lemma {:induction false} BentRight<T>(a: Tree<T>, x: T, b: Tree<T>, y: T, c: Tree<T>, z: T, d: Tree<T>,
                                        i: nat, j: nat, n: nat)
    requires i == Size(b) + 1 + Size(c) && j == i + 1 + Size(d) && n == Size(a) + 1 + j
    ensures Potential(Node(a, x, Node(Node(b, y, c), z, d))) == Parts(a, b, c, d) + Rank(i) + Rank(j) + Rank(n)
  {
    Graft(b, y, c, i);
    Graft(Node(b, y, c), z, d, j);
    Graft(a, x, Node(Node(b, y, c), z, d), n);
  }

  lemma {:induction false} Balanced<T>(a: Tree<T>, x: T, b: Tree<T>, y: T, c: Tree<T>, z: T, d: Tree<T>,
                                       i: nat, j: nat, n: nat)
    requires i == Size(a) + 1 + Size(b) && j == Size(c) + 1 + Size(d) && n == i + 1 + j
    ensures Potential(Node(Node(a, x, b), y, Node(c, z, d))) == Parts(a, b, c, d) + Rank(i) + Rank(j) + Rank(n)
  {
    Graft(a, x, b, i);
    Graft(c, z, d, j);
    Graft(Node(a, x, b), y, Node(c, z, d), n);
  }

  /** Restructuring w into w', of n nodes, with x's subtree growing from sx to n nodes, is paid for. */
  ghost predicate Paid<T>(sx: nat, n: nat, w: Tree<T>, w': Tree<T>, extra: nat) {
    1 + Potential(w') <= Potential(w) + 3 * (Rank(n) - Rank(sx)) + extra
  }

  lemma {:induction false} Single<T>(l: Tree<T>, x: T, r: Tree<T>, p: T, c: Tree<T>, sx: nat, n: nat)
    requires sx == Size(l) + 1 + Size(r) && n == sx + 1 + Size(c)
    ensures Paid(sx, n, Node(Node(l, x, r), p, c), Node(l, x, Node(r, p, c)), 1)
    ensures Paid(sx, n, Node(c, p, Node(l, x, r)), Node(Node(c, p, l), x, r), 1)
  {
    var right, left := Size(r) + 1 + Size(c), Size(c) + 1 + Size(l);
    Graft(l, x, r, sx);
    Graft(Node(l, x, r), p, c, n);
    Graft(r, p, c, right);
    Graft(l, x, Node(r, p, c), n);
    SingleRanks(sx, right, n);
    Graft(c, p, Node(l, x, r), n);
    Graft(c, p, l, left);
    Graft(Node(c, p, l), x, r, n);
    SingleRanks(sx, left, n);
  }

  lemma {:induction false} ZigZig<T>(l: Tree<T>, x: T, r: Tree<T>, p: T, c: Tree<T>, g: T, d: Tree<T>, sx: nat, n: nat)
    requires sx == Size(l) + 1 + Size(r) && n == sx + Size(c) + Size(d) + 2
    ensures Paid(sx, n, Node(Node(Node(l, x, r), p, c), g, d), Node(l, x, Node(r, p, Node(c, g, d))), 0)
  {
    var sp, sg' := sx + 1 + Size(c), Size(c) + 1 + Size(d);
    var sp' := Size(r) + 1 + sg';
    LeftChain(l, x, r, p, c, g, d, sx, sp, n);
    RightChain(l, x, r, p, c, g, d, sg', sp', n);
    ChainRanks(sx, sp, sp', sg', n);
  }

  lemma {:induction false} ZagZag<T>(l: Tree<T>, x: T, r: Tree<T>, p: T, c: Tree<T>, g: T, d: Tree<T>, sx: nat, n: nat)
    requires sx == Size(l) + 1 + Size(r) && n == sx + Size(c) + Size(d) + 2
    ensures Paid(sx, n, Node(d, g, Node(c, p, Node(l, x, r))), Node(Node(Node(d, g, c), p, l), x, r), 0)
  {
    var sp, sg' := sx + 1 + Size(c), Size(c) + 1 + Size(d);
    var sp' := Size(l) + 1 + sg';
    RightChain(d, g, c, p, l, x, r, sx, sp, n);
    LeftChain(d, g, c, p, l, x, r, sg', sp', n);
    ChainRanks(sx, sp, sp', sg', n);
  }

  lemma {:induction false} ZagZig<T>(l: Tree<T>, x: T, r: Tree<T>, p: T, c: Tree<T>, g: T, d: Tree<T>, sx: nat, n: nat)
    requires sx == Size(l) + 1 + Size(r) && n == sx + Size(c) + Size(d) + 2
    ensures Paid(sx, n, Node(d, g, Node(Node(l, x, r), p, c)), Node(Node(d, g, l), x, Node(r, p, c)), 0)
  {
    var sp, sp', sg' := sx + 1 + Size(c), Size(r) + 1 + Size(c), Size(d) + 1 + Size(l);
    BentRight(d, g, l, x, r, p, c, sx, sp, n);
    Balanced(d, g, l, x, r, p, c, sg', sp', n);
    BentRanks(sx, sp, sp', sg', n);
  }

  lemma {:induction false} ZigZag<T>(l: Tree<T>, x: T, r: Tree<T>, p: T, c: Tree<T>, g: T, d: Tree<T>, sx: nat, n: nat)
    requires sx == Size(l) + 1 + Size(r) && n == sx + Size(c) + Size(d) + 2
    ensures Paid(sx, n, Node(Node(c, p, Node(l, x, r)), g, d), Node(Node(c, p, l), x, Node(r, g, d)), 0)
  {
    var sp, sp', sg' := sx + 1 + Size(c), Size(c) + 1 + Size(l), Size(r) + 1 + Size(d);
    BentLeft(c, p, l, x, r, g, d, sx, sp, n);
    Balanced(c, p, l, x, r, g, d, sp', sg', n);
    BentRanks(sx, sp, sp', sg', n);
  }

  /** Every iteration is paid for by the rise of x's rank, except that the last one, when it is a
      single rotation, may cost 1 more. */
  lemma {:induction false} StepCharge<T>(t: Tree<T>, path: Path<T>)
    requires t.Node? && !path.Top?
    ensures Paid(Size(t), Size(StepWindow(t, path)), StepWindow(t, path), SplayStep(t, path).0,
                 if path.up.Top? then 1 else 0)
  {
    var Node(l, x, r) := t;
    var sx, n := Size(t), Size(StepWindow(t, path));
    match path
    case InLeft(p, c, Top) => Single(l, x, r, p, c, sx, n);
    case InRight(c, p, Top) => Single(l, x, r, p, c, sx, n);
    case InLeft(p, c, InLeft(g, d, up)) => Graft(t, p, c, sx + 1 + Size(c)); ZigZig(l, x, r, p, c, g, d, sx, n);
    case InRight(c, p, InRight(d, g, up)) => Graft(c, p, t, sx + 1 + Size(c)); ZagZag(l, x, r, p, c, g, d, sx, n);
    case InLeft(p, c, InRight(d, g, up)) => Graft(t, p, c, sx + 1 + Size(c)); ZagZig(l, x, r, p, c, g, d, sx, n);
    case InRight(c, p, InLeft(g, d, up)) => Graft(c, p, t, sx + 1 + Size(c)); ZigZag(l, x, r, p, c, g, d, sx, n);
  }

  /* The rank arithmetic of the three cases: x has size sx before and n after. */

  lemma {:induction false} SingleRanks(sx: nat, sp: nat, n: nat)
    requires sx <= n && sp <= n
    ensures Rank(sp) <= Rank(sx) + 3 * (Rank(n) - Rank(sx))
  {
    RankMonotone(sx, n);
    RankMonotone(sp, n);
  }

  lemma {:induction false} ChainRanks(sx: nat, sp: nat, sp': nat, sg': nat, n: nat)
    requires 1 <= sx <= sp && 1 <= sg' && sx + sg' <= n && sp' <= n
    ensures 1 + Rank(sg') + Rank(sp') <= Rank(sx) + Rank(sp) + 3 * (Rank(n) - Rank(sx))
  {
    TwoParts(sx, sg', n);
    RankMonotone(sx, sp);
    RankMonotone(sp', n);
  }

  lemma {:induction false} BentRanks(sx: nat, sp: nat, sp': nat, sg': nat, n: nat)
    requires 1 <= sx <= sp <= n && 1 <= sp' && 1 <= sg' && sp' + sg' <= n
    ensures 1 + Rank(sp') + Rank(sg') <= Rank(sx) + Rank(sp) + 3 * (Rank(n) - Rank(sx))
  {
    TwoParts(sp', sg', n);
    RankMonotone(sx, sp);
    RankMonotone(sx, n);
  }

  lemma {:induction false} SameSize<T>(t: Tree<T>, path: Path<T>)
    requires t.Node? && !path.Top?
    ensures Size(SplayStep(t, path).0) == Size(StepWindow(t, path))
  {
    WindowKeepsOrder(t, path);
    InorderLength(SplayStep(t, path).0);
    InorderLength(StepWindow(t, path));
  }

  /** The access lemma: for every tree and every node x in it, the iterations of the splay loop plus
      the change of potential are at most 3 (rank(root) - rank(x)) + 1. */
  lemma {:induction false} AccessLemma<T>(t: Tree<T>, path: Path<T>)
    requires t.Node?
    ensures Iterations(t, path) + Potential(Splayed(t, path))
            <= Potential(Plug(t, path)) + 3 * (Rank(Size(Plug(t, path))) - Rank(Size(t))) + 1
    ensures path.Top? ==> Iterations(t, path) == 0 && Splayed(t, path) == t
    decreases path
  {
    if !path.Top? {
      var (t', path') := SplayStep(t, path);
      AccessLemma(t', path');
      AccessStep(t, path, StepWindow(t, path), t', path');
    }
  }

  lemma {:induction false} AccessStep<T>(t: Tree<T>, path: Path<T>, w: Tree<T>, t': Tree<T>, path': Path<T>)
    requires t.Node? && !path.Top? && w == StepWindow(t, path) && (t', path') == SplayStep(t, path)
    ensures Size(w) == Size(t') && Size(Plug(t', path')) == Size(Plug(t, path))
    ensures 1 + Potential(Plug(t', path')) <= Potential(Plug(t, path)) + 3 * (Rank(Size(t')) - Rank(Size(t)))
                                              + (if path.up.Top? then 1 else 0)
    ensures path.up.Top? ==> path'.Top?
  {
    assert Plug(t, path) == Plug(w, path');
    StepCharge(t, path);
    SameSize(t, path);
    PlugPotential(w, path');
    PlugPotential(t', path');
  }

  /** Hanging a new leaf below a path raises the potential by at most the rank of the new tree. */
  lemma {:induction false} NewLeafPotential<T>(n: nat, path: Path<T>)
    ensures PathPotential(n + 1, path) + Rank(n + 1)
            <= PathPotential(n, path) + Rank(n + 1 + PathSize(path))
    decreases path, 1
  {
    match path
    case Top =>
    case InLeft(_, r, up) => NewLeafStep(n, n + 1 + Size(r), r, path, up);
    case InRight(l, _, up) => NewLeafStep(n, n + 1 + Size(l), l, path, up);
  }

  lemma {:induction false} NewLeafStep<T>(n: nat, m: nat, s: Tree<T>, path: Path<T>, up: Path<T>)
    requires !path.Top? && up == path.up && s == (if path.InLeft? then path.right else path.left)
    requires m == n + 1 + Size(s)
    ensures PathPotential(n + 1, path) + Rank(n + 1)
            <= PathPotential(n, path) + Rank(n + 1 + PathSize(path))
    decreases path, 0
  {
    var n', m', whole := n + 1, m + 1, n + 1 + PathSize(path);
    NewLeafPotential(m, up);
    RankMonotone(n', m);
    PathFrame(n, m, s, path);
    PathFrame(n', m', s, path);
    assert whole == m' + PathSize(up);
  }

  lemma {:induction false} PathFrame<T>(n: nat, m: nat, s: Tree<T>, path: Path<T>)
    requires !path.Top? && s == (if path.InLeft? then path.right else path.left) && m == n + 1 + Size(s)
    ensures PathPotential(n, path) == Rank(m) + Potential(s) + PathPotential(m, path.up)
    ensures n + PathSize(path) == m + PathSize(path.up)
  {}

  /** Inserting a new node x at the end of a path and splaying it. */
  lemma {:induction false} InsertCharge<T>(x: T, path: Path<T>)
    ensures var t := Node(Leaf, x, Leaf);
            var n := 1 + PathSize(path);
            Iterations(t, path) + Potential(Splayed(t, path))
            <= Potential(Plug(Leaf, path)) + 4 * Rank(n) + 1
  {
    hide PathPotential, Rank, PathSize, Splayed, Plug, Iterations;
    var t := Node(Leaf, x, Leaf);
    PlugPotential(t, path);
    PlugPotential<T>(Leaf, path);
    NewLeafPotential(0, path);
    AccessLemma(t, path);
  }

  /** Removing the root never raises the potential. */
  lemma {:induction false} RemovalCharge<T>(t: Tree<T>)
    requires t.Node?
    ensures Potential(WithoutRoot(t)) <= Potential(t)
  {
    if t.left.Node? && t.right.Node? {
      PopMinPotential(t.right);
      PopMinOrder(t.right);
      var rest := PopMin(t.right).1;
      RankMonotone(Size(t.left) + 1 + Size(rest), Size(t));
    }
  }

  lemma {:induction false} PopMinPotential<T>(t: Tree<T>)
    requires t.Node?
    ensures Potential(PopMin(t).1) <= Potential(t)
  {
    if t.left.Node? {
      PopMinPotential(t.left);
      PopMinOrder(t.left);
      RankMonotone(Size(t) - 1, Size(t));
    }
  }
}
