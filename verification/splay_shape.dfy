/** Shapes of the binary search tree in coherence/stree.c, as values: trees, the path from a
    subtree to the root, the two rotations, and the splay loop as a function on (subtree, path). */
module SplayShape {

  datatype Tree<T> = Leaf | Node(left: Tree<T>, val: T, right: Tree<T>)

  /** The way from a subtree up to the root. `InLeft(p, r, up)`: the subtree is the left child of p,
      whose right child is r; `InRight` is the mirror image. */
  datatype Path<T> =
    | Top
    | InLeft(val: T, right: Tree<T>, up: Path<T>)
    | InRight(left: Tree<T>, val: T, up: Path<T>)

  /** The whole tree obtained by putting `t` at the end of `path`. */
  ghost function Plug<T>(t: Tree<T>, path: Path<T>): Tree<T>
    decreases path
  {
    match path
    case Top => t
    case InLeft(p, r, up) => Plug(Node(t, p, r), up)
    case InRight(l, p, up) => Plug(Node(l, p, t), up)
  }

  ghost function Inorder<T>(t: Tree<T>): seq<T> {
    match t
    case Leaf => []
    case Node(l, x, r) => Inorder(l) + [x] + Inorder(r)
  }

  ghost function Size<T>(t: Tree<T>): nat {
    match t
    case Leaf => 0
    case Node(l, _, r) => Size(l) + 1 + Size(r)
  }

  /** What the in-order walk meets before (after) the subtree at the end of the path. */
  ghost function Before<T>(path: Path<T>): seq<T> {
    match path
    case Top => []
    case InLeft(_, _, up) => Before(up)
    case InRight(l, p, up) => Before(up) + Inorder(l) + [p]
  }

  ghost function After<T>(path: Path<T>): seq<T> {
    match path
    case Top => []
    case InLeft(p, r, up) => [p] + Inorder(r) + After(up)
    case InRight(_, _, up) => After(up)
  }

  lemma {:induction false} InorderPlug<T>(t: Tree<T>, path: Path<T>)
    ensures Inorder(Plug(t, path)) == Before(path) + Inorder(t) + After(path)
    decreases path
  {
    match path
    case Top =>
    case InLeft(p, r, up) =>
      InorderPlug(Node(t, p, r), up);
      Regroup(Before(up), Inorder(t), [p], Inorder(r), After(up));
    case InRight(l, p, up) =>
      InorderPlug(Node(l, p, t), up);
      Regroup(Before(up), Inorder(l), [p], Inorder(t), After(up));
  }

  lemma {:induction false} Regroup<T>(a: seq<T>, b: seq<T>, c: seq<T>, d: seq<T>, e: seq<T>)
    ensures a + (b + c + d) + e == a + b + (c + d + e)
    ensures a + (b + c + d) + e == (a + b + c) + d + e
  {}

  lemma {:induction false} InorderLength<T>(t: Tree<T>)
    ensures |Inorder(t)| == Size(t)
  {
    match t
    case Leaf =>
    case Node(l, _, r) => InorderLength(l); InorderLength(r);
  }

  /** Rotation at the root of `t`. As in the source, rotating towards a missing child drops the
      subtree; the splay loop never does that. */
  ghost function RotateLeft<T>(t: Tree<T>): Tree<T> {
    if t.Leaf? || t.right.Leaf? then Leaf
    else Node(Node(t.left, t.val, t.right.left), t.right.val, t.right.right)
  }

  ghost function RotateRight<T>(t: Tree<T>): Tree<T> {
    if t.Leaf? || t.left.Leaf? then Leaf
    else Node(t.left.left, t.left.val, Node(t.left.right, t.val, t.right))
  }

  /** A rotation towards a present child keeps the in-order sequence; it loses nodes exactly when
      the child is missing. */
  lemma {:induction false} RotateLeftKeepsOrder<T>(t: Tree<T>)
    requires t.Node?
    ensures Inorder(RotateLeft(t)) == Inorder(t) <==> t.right.Node?
  {}

  lemma {:induction false} RotateRightKeepsOrder<T>(t: Tree<T>)
    requires t.Node?
    ensures Inorder(RotateRight(t)) == Inorder(t) <==> t.left.Node?
  {}

  /** The first node in order, and the tree without it. */
  ghost function PopMin<T>(t: Tree<T>): (res: (T, Tree<T>))
    requires t.Node?
  {
    if t.left.Leaf? then (t.val, t.right)
    else var (y, rest) := PopMin(t.left); (y, Node(rest, t.val, t.right))
  }

  /** tree_remove at the root: a missing child leaves the other one, otherwise the successor of the
      root takes its place. */
  ghost function WithoutRoot<T>(t: Tree<T>): Tree<T>
    requires t.Node?
  {
    if t.left.Leaf? then t.right
    else if t.right.Leaf? then t.left
    else var (y, rest) := PopMin(t.right); Node(t.left, y, rest)
  }

  lemma {:induction false} PopMinOrder<T>(t: Tree<T>)
    requires t.Node?
    ensures [PopMin(t).0] + Inorder(PopMin(t).1) == Inorder(t)
    ensures Size(PopMin(t).1) + 1 == Size(t)
  {
    if t.left.Node? { PopMinOrder(t.left); }
  }

  lemma {:induction false} WithoutRootOrder<T>(t: Tree<T>)
    requires t.Node?
    ensures Inorder(WithoutRoot(t)) == Inorder(t.left) + Inorder(t.right)
    ensures Size(WithoutRoot(t)) + 1 == Size(t)
  {
    if t.right.Node? {
      PopMinOrder(t.right);
      assert Inorder(t.left) + [PopMin(t.right).0] + Inorder(PopMin(t.right).1)
          == Inorder(t.left) + Inorder(t.right);
    }
  }

  /** One iteration of the splay loop: the subtree with x at its root, and the path above it. */
  ghost function SplayStep<T>(t: Tree<T>, path: Path<T>): (res: (Tree<T>, Path<T>))
    requires t.Node? && !path.Top?
    ensures res.0.Node? && res.0.val == t.val
    ensures res.1 < path
  {
    match path
    case InLeft(p, c, Top) => (RotateRight(Node(t, p, c)), Top)
    case InRight(a, p, Top) => (RotateLeft(Node(a, p, t)), Top)
    case InLeft(p, c, InLeft(g, d, up)) =>
      (RotateRight(RotateRight(Node(Node(t, p, c), g, d))), up)
    case InRight(a, p, InRight(d, g, up)) =>
      (RotateLeft(RotateLeft(Node(d, g, Node(a, p, t)))), up)
    case InLeft(p, c, InRight(d, g, up)) =>
      (RotateLeft(Node(d, g, RotateRight(Node(t, p, c)))), up)
    case InRight(a, p, InLeft(g, d, up)) =>
      (RotateRight(Node(RotateLeft(Node(a, p, t)), g, d)), up)
  }

  /** The tree the whole loop ends with, and the number of iterations it takes. */
  ghost function Splayed<T>(t: Tree<T>, path: Path<T>): (res: Tree<T>)
    requires t.Node?
    ensures res.Node? && res.val == t.val
    decreases path
  {
    if path.Top? then t else var (t', path') := SplayStep(t, path); Splayed(t', path')
  }

  ghost function Iterations<T>(t: Tree<T>, path: Path<T>): nat
    requires t.Node?
    decreases path
  {
    if path.Top? then 0 else var (t', path') := SplayStep(t, path); 1 + Iterations(t', path')
  }

  ghost function Depth<T>(path: Path<T>): nat {
    if path.Top? then 0 else 1 + Depth(path.up)
  }

  lemma {:induction false} StepKeepsOrder<T>(t: Tree<T>, path: Path<T>)
    requires t.Node? && !path.Top?
    ensures var (t', path') := SplayStep(t, path);
            && Before(path') + Inorder(t') + After(path') == Before(path) + Inorder(t) + After(path)
            && Size(Plug(t', path')) == Size(Plug(t, path))
            && Depth(path') < Depth(path) <= Depth(path') + 2
  {
    var (t', path') := SplayStep(t, path);
    assert Plug(t, path) == Plug(StepWindow(t, path), path');
    InorderPlug(t, path);
    InorderPlug(StepWindow(t, path), path');
    WindowKeepsOrder(t, path);
    InorderPlug(t', path');
    InorderLength(Plug(t', path'));
    InorderLength(Plug(t, path));
  }

  /** The part of the tree that one iteration rearranges: x's parent, or grandparent, downwards. */
  ghost function StepWindow<T>(t: Tree<T>, path: Path<T>): Tree<T>
    requires t.Node? && !path.Top?
  {
    match path
    case InLeft(p, c, Top) => Node(t, p, c)
    case InRight(a, p, Top) => Node(a, p, t)
    case InLeft(p, c, InLeft(g, d, _)) => Node(Node(t, p, c), g, d)
    case InRight(a, p, InRight(d, g, _)) => Node(d, g, Node(a, p, t))
    case InLeft(p, c, InRight(d, g, _)) => Node(d, g, Node(t, p, c))
    case InRight(a, p, InLeft(g, d, _)) => Node(Node(a, p, t), g, d)
  }

  lemma {:induction false} WindowKeepsOrder<T>(t: Tree<T>, path: Path<T>)
    requires t.Node? && !path.Top?
    ensures Inorder(SplayStep(t, path).0) == Inorder(StepWindow(t, path))
  {
    match path
    case InLeft(p, c, Top) => RotateRightKeepsOrder(Node(t, p, c));
    case InRight(a, p, Top) => RotateLeftKeepsOrder(Node(a, p, t));
    case InLeft(p, c, InLeft(g, d, _)) =>
      RotateRightKeepsOrder(Node(Node(t, p, c), g, d));
      RotateRightKeepsOrder(RotateRight(Node(Node(t, p, c), g, d)));
    case InRight(a, p, InRight(d, g, _)) =>
      RotateLeftKeepsOrder(Node(d, g, Node(a, p, t)));
      RotateLeftKeepsOrder(RotateLeft(Node(d, g, Node(a, p, t))));
    case InLeft(p, c, InRight(d, g, _)) =>
      RotateRightKeepsOrder(Node(t, p, c));
      RotateLeftKeepsOrder(Node(d, g, RotateRight(Node(t, p, c))));
    case InRight(a, p, InLeft(g, d, _)) =>
      RotateLeftKeepsOrder(Node(a, p, t));
      RotateRightKeepsOrder(Node(RotateLeft(Node(a, p, t)), g, d));
  }

  /** The whole loop keeps the in-order sequence, brings x to the root, and iterates about half as
      often as x was deep. */
  lemma {:induction false} SplayKeepsOrder<T>(t: Tree<T>, path: Path<T>)
    requires t.Node?
    ensures Inorder(Splayed(t, path)) == Inorder(Plug(t, path))
    ensures Splayed(t, path).val == t.val
    ensures Size(Splayed(t, path)) == Size(Plug(t, path))
    ensures Depth(path) <= 2 * Iterations(t, path) <= Depth(path) + 1
    decreases path
  {
    InorderPlug(t, path);
    if !path.Top? {
      var (t', path') := SplayStep(t, path);
      StepKeepsOrder(t, path);
      SplayKeepsOrder(t', path');
      InorderPlug(t', path');
    }
    InorderLength(Splayed(t, path));
    InorderLength(Plug(t, path));
  }
}
