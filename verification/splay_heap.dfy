/** The parent-pointer splay tree of coherence/stree.c: nodes on the heap, rotations in place.
    `shape` is the tree the pointers form; `contents` is the finite map it represents.
    Records are machine words, with 0 for the NULL record. */
module SplayHeap {
  import opened SplayShape
  import opened SplayCost

  class TreeNode {
    var left: TreeNode?
    var right: TreeNode?
    var parent: TreeNode?
    const key: int
    var record: int

    constructor (key: int, record: int, parent: TreeNode?)
      ensures this.key == key && this.record == record && this.parent == parent
      ensures left == null && right == null
    {
      this.key, this.record, this.parent := key, record, parent;
      left, right := null, null;
    }
  }

  ghost function Elems(t: Tree<TreeNode>): set<TreeNode> {
    match t
    case Leaf => {}
    case Node(l, x, r) => Elems(l) + {x} + Elems(r)
  }

  ghost function PathElems(path: Path<TreeNode>): set<TreeNode> {
    match path
    case Top => {}
    case InLeft(p, r, up) => {p} + Elems(r) + PathElems(up)
    case InRight(l, p, up) => Elems(l) + {p} + PathElems(up)
  }

  /** No node occurs twice. */
  ghost predicate Distinct(t: Tree<TreeNode>) {
    match t
    case Leaf => true
    case Node(l, x, r) =>
      && x !in Elems(l) && x !in Elems(r) && Elems(l) !! Elems(r)
      && Distinct(l) && Distinct(r)
  }

  ghost predicate PathDistinct(path: Path<TreeNode>) {
    match path
    case Top => true
    case InLeft(p, r, up) =>
      && p !in Elems(r) && p !in PathElems(up) && Elems(r) !! PathElems(up)
      && Distinct(r) && PathDistinct(up)
    case InRight(l, p, up) =>
      && p !in Elems(l) && p !in PathElems(up) && Elems(l) !! PathElems(up)
      && Distinct(l) && PathDistinct(up)
  }

  lemma {:induction false} RootIn(t: Tree<TreeNode>)
    ensures t.Node? ==> t.val in Elems(t)
  {}

  ghost function RootOf(t: Tree<TreeNode>): TreeNode? {
    if t.Leaf? then null else t.val
  }

  /** The node just above the end of the path. */
  ghost function Above(path: Path<TreeNode>): TreeNode? {
    if path.Top? then null else path.val
  }

  /** The root of the whole tree when `child` is at the end of the path. */
  ghost function Topmost(path: Path<TreeNode>, child: TreeNode?): TreeNode? {
    if path.Top? then child else Topmost(path.up, path.val)
  }

  /** Pointers agree with the shape, parents included. */
  ghost predicate Linked(t: Tree<TreeNode>, up: TreeNode?)
    reads Elems(t)`left, Elems(t)`right, Elems(t)`parent
  {
    match t
    case Leaf => true
    case Node(l, x, r) =>
      && x.left == RootOf(l) && x.right == RootOf(r) && x.parent == up
      && Linked(l, x) && Linked(r, x)
  }

  ghost predicate PathLinked(path: Path<TreeNode>, child: TreeNode?)
    reads PathElems(path)`left, PathElems(path)`right, PathElems(path)`parent
  {
    match path
    case Top => true
    case InLeft(p, r, up) =>
      && p.left == child && p.right == RootOf(r) && p.parent == Above(up)
      && Linked(r, p) && PathLinked(up, p)
    case InRight(l, p, up) =>
      && p.left == RootOf(l) && p.right == child && p.parent == Above(up)
      && Linked(l, p) && PathLinked(up, p)
  }

  ghost predicate Separate(t: Tree<TreeNode>, path: Path<TreeNode>) {
    Distinct(t) && PathDistinct(path) && Elems(t) !! PathElems(path)
  }

  lemma {:induction false} ElemsPlug(t: Tree<TreeNode>, path: Path<TreeNode>)
    ensures Elems(Plug(t, path)) == Elems(t) + PathElems(path)
    decreases path
  {
    match path
    case Top =>
    case InLeft(p, r, up) => ElemsPlug(Node(t, p, r), up);
    case InRight(l, p, up) => ElemsPlug(Node(l, p, t), up);
  }

  lemma {:induction false} ElemsInorder(t: Tree<TreeNode>)
    ensures Elems(t) == set n | n in Inorder(t)
  {
    match t
    case Leaf =>
    case Node(l, x, r) => ElemsInorder(l); ElemsInorder(r);
  }

  lemma {:induction false} PopMinElems(t: Tree<TreeNode>)
    requires t.Node? && Distinct(t)
    ensures var (y, rest) := PopMin(t);
            y in Elems(t) && Elems(rest) == Elems(t) - {y} && Distinct(rest)
  {
    if t.left.Node? { PopMinElems(t.left); }
  }

  lemma {:induction false} WithoutRootElems(t: Tree<TreeNode>)
    requires t.Node? && Distinct(t)
    ensures Elems(WithoutRoot(t)) == Elems(t) - {t.val} && Distinct(WithoutRoot(t))
  {
    if t.right.Node? { PopMinElems(t.right); }
  }

  /** Keys strictly increase along the in-order walk. */
  ghost predicate Sorted(s: seq<TreeNode>) {
    forall i, j :: 0 <= i < j < |s| ==> s[i].key < s[j].key
  }

  ghost predicate Below(s: seq<TreeNode>, key: int) {
    forall i :: 0 <= i < |s| ==> s[i].key < key
  }

  ghost predicate Beyond(s: seq<TreeNode>, key: int) {
    forall i :: 0 <= i < |s| ==> key < s[i].key
  }

  lemma {:induction false} SidesConcat(a: seq<TreeNode>, b: seq<TreeNode>, key: int)
    ensures Below(a + b, key) <==> Below(a, key) && Below(b, key)
    ensures Beyond(a + b, key) <==> Beyond(a, key) && Beyond(b, key)
  {
    var s := a + b;
    assert forall i :: 0 <= i < |a| ==> s[i] == a[i];
    assert forall i :: 0 <= i < |b| ==> s[|a| + i] == b[i];
  }

  lemma {:induction false} Middle(a: seq<TreeNode>, b: seq<TreeNode>, c: seq<TreeNode>, n: TreeNode)
    requires n in a + b + c && n !in a && n !in c
    ensures n in b
    ensures Sorted(a + b + c) ==> Sorted(b)
  {
    var s := a + b + c;
    var i :| 0 <= i < |s| && s[i] == n;
    assert b == s[|a|..|a| + |b|];
    assert n == b[i - |a|];
  }

  lemma {:induction false} OneKeyOneNode(s: seq<TreeNode>, m: TreeNode, n: TreeNode)
    requires Sorted(s) && m in s && n in s && m.key == n.key
    ensures m == n
  {}

  lemma {:induction false} DropSorted(a: seq<TreeNode>, z: TreeNode, b: seq<TreeNode>)
    requires Sorted(a + [z] + b)
    ensures Sorted(a + b)
  {
    var s, s' := a + [z] + b, a + b;
    forall i, j | 0 <= i < j < |s'|
      ensures s'[i].key < s'[j].key
    {
      assert s'[i] == s[if i < |a| then i else i + 1];
      assert s'[j] == s[if j < |a| then j else j + 1];
    }
  }

  /** Strictly increasing keys rule out repeated nodes. */
  lemma {:induction false} SortedIsDistinct(t: Tree<TreeNode>)
    requires Sorted(Inorder(t))
    ensures Distinct(t)
  {
    if t.Node? {
      var a, b, s := Inorder(t.left), Inorder(t.right), Inorder(t);
      assert a == s[..|a|] && b == s[|a| + 1..] && s[|a|] == t.val;
      SortedIsDistinct(t.left);
      SortedIsDistinct(t.right);
      ElemsInorder(t.left);
      ElemsInorder(t.right);
      Parted(a, t.val, b);
    }
  }

  lemma {:induction false} Parted(a: seq<TreeNode>, z: TreeNode, b: seq<TreeNode>)
    requires Sorted(a + [z] + b)
    ensures Below(a, z.key) && Beyond(b, z.key)
  {
    var s := a + [z] + b;
    assert s[|a|] == z;
    assert forall i :: 0 <= i < |a| ==> s[i] == a[i];
    assert forall i :: 0 <= i < |b| ==> s[|a| + 1 + i] == b[i];
  }

  /** What the walk meets before (after) a node has smaller (larger) keys. */
  lemma {:induction false} Around(t: Tree<TreeNode>, path: Path<TreeNode>)
    requires t.Node? && Sorted(Inorder(Plug(t, path)))
    ensures Below(Before(path) + Inorder(t.left), t.val.key)
    ensures Beyond(Inorder(t.right) + After(path), t.val.key)
  {
    hide Sorted;
    var a, b, c, d := Before(path), Inorder(t.left), Inorder(t.right), After(path);
    InorderPlug(t, path);
    assert Inorder(Plug(t, path)) == (a + b) + [t.val] + (c + d);
    Parted(a + b, t.val, c + d);
  }

  lemma {:induction false} LastIsLargest(a: seq<TreeNode>, b: seq<TreeNode>)
    requires Sorted(a + b)
    ensures forall n :: n in a ==> n.key <= a[|a| - 1].key
  {
    forall n | n in a ensures n.key <= a[|a| - 1].key {
      var i :| 0 <= i < |a| && a[i] == n;
      assert (a + b)[i] == n && (a + b)[|a| - 1] == a[|a| - 1];
    }
  }

  lemma {:induction false} InsertSorted(a: seq<TreeNode>, z: TreeNode, b: seq<TreeNode>)
    requires Sorted(a + b)
    requires Below(a, z.key) && Beyond(b, z.key)
    ensures Sorted(a + [z] + b)
  {
    var s, s' := a + b, a + [z] + b;
    forall i, j | 0 <= i < j < |s'|
      ensures s'[i].key < s'[j].key
    {
      assert i < |a| ==> s'[i] == s[i] == a[i];
      assert i > |a| ==> s'[i] == s[i - 1];
      assert j < |a| ==> s'[j] == s[j];
      assert j > |a| ==> s'[j] == s[j - 1] == b[j - 1 - |a|];
    }
  }

  /** The nodes hold exactly the entries of m. */
  ghost predicate Stores(nodes: set<TreeNode>, m: map<int, int>)
    reads nodes`record
  {
    && m.Keys == Keys(nodes)
    && (forall n :: n in nodes ==> n.key in m && m[n.key] == n.record)
  }

  lemma {:induction false} StoresGrow(nodes: set<TreeNode>, m: map<int, int>, z: TreeNode)
    requires Stores(nodes, m) && z.key !in m
    ensures Stores(nodes + {z}, m[z.key := z.record])
  {}

  lemma {:induction false} StoresShrink(nodes: set<TreeNode>, m: map<int, int>, z: TreeNode)
    requires Stores(nodes, m) && z in nodes && forall n :: n in nodes && n.key == z.key ==> n == z
    ensures Stores(nodes - {z}, m - {z.key})
    ensures |m - {z.key}| + 1 == |m|
  {}

  ghost function Keys(nodes: set<TreeNode>): set<int> {
    set n | n in nodes :: n.key
  }

  ghost predicate IsFloor(k: int, key: int, m: map<int, int>) {
    k in m && k <= key && forall j :: j in m && j <= key ==> j <= k
  }

  /** Facts about a search for `key` that has come down to the subtree t of `whole`: smaller keys
      lie before t and larger ones after it. */
  ghost predicate Fits(key: int, whole: Tree<TreeNode>, t: Tree<TreeNode>, path: Path<TreeNode>) {
    && Plug(t, path) == whole
    && Below(Before(path), key) && Beyond(After(path), key)
  }

  /** Adding z as a new node where the search for its key ended, and splaying it. */
  lemma {:induction false} Grown(shape: Tree<TreeNode>, z: TreeNode, path: Path<TreeNode>)
    requires Fits(z.key, shape, Leaf, path) && Sorted(Inorder(shape))
    ensures var grown := Splayed(Node(Leaf, z, Leaf), path);
            && Elems(grown) == Elems(shape) + {z}
            && Sorted(Inorder(grown))
            && Size(grown) == Size(shape) + 1
            && Iterations(Node(Leaf, z, Leaf), path) + Potential(grown)
               <= Potential(shape) + 4 * Rank(Size(shape) + 1) + 1
  {
    hide Distinct, Potential, Rank, Sorted, Splayed, Inorder;
    var t := Node(Leaf, z, Leaf);
    SplayKeepsOrder(t, path);
    GrownElems(shape, t, path, Splayed(t, path));
    GrownOrder(shape, z, path);
    PlugPotential<TreeNode>(Leaf, path);
    PlugPotential(t, path);
    InsertCharge(z, path);
    assert 1 + PathSize(path) == Size(shape) + 1;
  }

  lemma {:induction false} GrownElems(shape: Tree<TreeNode>, t: Tree<TreeNode>, path: Path<TreeNode>, grown: Tree<TreeNode>)
    requires Plug(Leaf, path) == shape && Inorder(grown) == Inorder(Plug(t, path))
    ensures Elems(grown) == Elems(shape) + Elems(t)
  {
    ElemsInorder(grown);
    ElemsInorder(Plug(t, path));
    ElemsPlug(t, path);
    ElemsPlug(Leaf, path);
  }

  lemma {:induction false} GrownOrder(shape: Tree<TreeNode>, z: TreeNode, path: Path<TreeNode>)
    requires Fits(z.key, shape, Leaf, path) && Sorted(Inorder(shape))
    ensures Sorted(Inorder(Plug(Node(Leaf, z, Leaf), path)))
  {
    InorderPlug(Node(Leaf, z, Leaf), path);
    InorderPlug<TreeNode>(Leaf, path);
    assert Inorder(Node(Leaf, z, Leaf)) == [z];
    assert Inorder(shape) == Before(path) + After(path);
    InsertSorted(Before(path), z, After(path));
  }

  class SplayTree {
    var root: TreeNode?
    var nodeCount: nat
    ghost var shape: Tree<TreeNode>
    ghost var nodes: set<TreeNode>
    ghost var contents: map<int, int>
    /** Iterations of the splay loop so far. */
    ghost var work: nat

    /** The heap holds the tree Plug(t, path). */
    ghost predicate Zipped(t: Tree<TreeNode>, path: Path<TreeNode>)
      reads this`root, this`nodes, Elems(t)`left, Elems(t)`right, Elems(t)`parent
      reads PathElems(path)`left, PathElems(path)`right, PathElems(path)`parent
    {
      && root == Topmost(path, RootOf(t))
      && Elems(t) + PathElems(path) <= nodes
      && Separate(t, path)
      && Linked(t, Above(path)) && PathLinked(path, RootOf(t))
    }

    /** The heap holds the search tree `shape`. */
    ghost predicate Shaped()
      reads this`root, this`nodes, this`shape, this`nodeCount, nodes`left, nodes`right, nodes`parent
    {
      && nodes == Elems(shape)
      && Zipped(shape, Top)
      && Sorted(Inorder(shape))
      && nodeCount == Size(shape)
    }

    ghost predicate Valid()
      reads this, nodes
    {
      && Shaped()
      && Stores(nodes, contents)
      && nodeCount == |contents|
    }

    /** The step shared by the rotations and `replace`: what pointed down at u now points at v. */
    method Redirect(u: TreeNode, v: TreeNode?, ghost path: Path<TreeNode>)
      requires u.parent == Above(path) && root == Topmost(path, u)
      requires PathLinked(path, u) && PathDistinct(path) && u !in PathElems(path)
      modifies this`root, PathElems(path)`left, PathElems(path)`right
      ensures PathLinked(path, v) && root == Topmost(path, v)
    {
      if u.parent == null {
        root := v;
      } else if u == u.parent.left {
        u.parent.left := v;
      } else {
        u.parent.right := v;
      }
    }

    /** The subtree tv, which hung below up, hangs below w now. */
    method Reparent(v: TreeNode?, w: TreeNode?, ghost tv: Tree<TreeNode>, ghost up: TreeNode?)
      requires v == RootOf(tv) && Linked(tv, up) && Distinct(tv)
      modifies (if v != null then {v} else {})`parent
      ensures Linked(tv, w)
    {
      if v != null {
        assert v in Elems(tv) && Linked(tv.left, v) && Linked(tv.right, v);
        v.parent := w;
        assert Linked(tv.left, v) && Linked(tv.right, v);
      }
    }

    /** x, y, the subtrees a, b, c and the path share no node. */
    ghost predicate Apart(x: TreeNode, y: TreeNode, a: Tree<TreeNode>, b: Tree<TreeNode>, c: Tree<TreeNode>,
                          path: Path<TreeNode>)
    {
      && x != y
      && {x, y} !! Elems(a) && {x, y} !! Elems(b) && {x, y} !! Elems(c) && {x, y} !! PathElems(path)
      && Elems(a) !! Elems(b) && Elems(a) !! Elems(c) && Elems(b) !! Elems(c)
      && Elems(a) !! PathElems(path) && Elems(b) !! PathElems(path) && Elems(c) !! PathElems(path)
      && Distinct(a) && Distinct(b) && Distinct(c) && PathDistinct(path)
    }

    /** Rotations; the shape changes by the value-level rotation. */
    method LeftRotate(x: TreeNode, ghost t: Tree<TreeNode>, ghost path: Path<TreeNode>)
      requires t.Node? && t.val == x && Zipped(t, path)
      modifies this`root, Elems(t)`left, Elems(t)`right, Elems(t)`parent
      modifies PathElems(path)`left, PathElems(path)`right
      ensures Zipped(RotateLeft(t), path)
    {
      LinksDown(t, path);
      var y := x.right;
      if y == null {
        Redirect(x, y, path);
        x.parent := y;
      } else {
        OpenLeft(t.left, x, t.right.left, y, t.right.right, path);
        SwingLeft(x, y, t.left, t.right.left, t.right.right, path);
        CloseLeft(t.left, x, t.right.left, y, t.right.right, path);
      }
    }

    /** First steps of a rotation: y's inner subtree b moves below x, and y takes x's parent. */
    method PassLeft(x: TreeNode, y: TreeNode, ghost b: Tree<TreeNode>)
      requires x != y && {x, y} !! Elems(b) && Distinct(b) && y.left == RootOf(b) && Linked(b, y)
      modifies x`right, ({y} + Elems(b))`parent
      ensures x.right == RootOf(b) && Linked(b, x) && y.parent == x.parent
    {
      hide Elems, Linked, Distinct;
      RootIn(b);
      x.right := y.left;
      Reparent(y.left, x, b, y);
      y.parent := x.parent;
    }

    /** The rotation proper, around x and its right child y. */
    method SwingLeft(x: TreeNode, y: TreeNode, ghost a: Tree<TreeNode>, ghost b: Tree<TreeNode>,
                     ghost c: Tree<TreeNode>, ghost path: Path<TreeNode>)
      requires Apart(x, y, a, b, c, path) && Elems(a) + Elems(b) + Elems(c) + PathElems(path) <= nodes
      requires root == Topmost(path, x) && x.parent == Above(path) && PathLinked(path, x)
      requires x.left == RootOf(a) && Linked(a, x) && x.right == y
      requires y.left == RootOf(b) && Linked(b, y) && y.right == RootOf(c) && Linked(c, y)
      modifies this`root, {x, y}`left, {x, y}`right, ({x, y} + Elems(b))`parent
      modifies PathElems(path)`left, PathElems(path)`right
      ensures root == Topmost(path, y) && y.parent == Above(path) && PathLinked(path, y)
      ensures y.left == x && x.parent == y && y.right == RootOf(c) && Linked(c, y)
      ensures x.left == RootOf(a) && Linked(a, x) && x.right == RootOf(b) && Linked(b, x)
    {
      hide Elems, PathElems, Linked, PathLinked, Distinct, PathDistinct, Topmost;
      PassLeft(x, y, b);
      assert Linked(a, x) && Linked(b, x) && Linked(c, y) && PathLinked(path, x);
      Redirect(x, y, path);
      assert Linked(a, x) && Linked(b, x) && Linked(c, y);
      y.left := x;
      x.parent := y;
    }

    /** A tree open for a left rotation: its parts, and the parts put together again. */
    lemma {:induction false} OpenLeft(a: Tree<TreeNode>, x: TreeNode, b: Tree<TreeNode>, y: TreeNode, c: Tree<TreeNode>,
                                      path: Path<TreeNode>)
      requires Zipped(Node(a, x, Node(b, y, c)), path)
      ensures Apart(x, y, a, b, c, path) && Elems(a) + Elems(b) + Elems(c) + {x, y} + PathElems(path) <= nodes
      ensures root == Topmost(path, x) && x.parent == Above(path) && PathLinked(path, x)
      ensures x.left == RootOf(a) && Linked(a, x) && x.right == y
      ensures y.left == RootOf(b) && Linked(b, y) && y.right == RootOf(c) && Linked(c, y)
    {
      hide PathElems, PathDistinct, PathLinked, Topmost;
      var inner := Node(b, y, c);
      assert Linked(inner, x) && Distinct(inner) && Elems(inner) == Elems(b) + {y} + Elems(c);
      assert Elems(Node(a, x, inner)) == Elems(a) + {x} + Elems(inner);
    }

    lemma {:induction false} CloseLeft(a: Tree<TreeNode>, x: TreeNode, b: Tree<TreeNode>, y: TreeNode, c: Tree<TreeNode>,
                                       path: Path<TreeNode>)
      requires Apart(x, y, a, b, c, path) && Elems(a) + Elems(b) + Elems(c) + {x, y} + PathElems(path) <= nodes
      requires root == Topmost(path, y) && y.parent == Above(path) && PathLinked(path, y)
      requires y.left == x && x.parent == y && y.right == RootOf(c) && Linked(c, y)
      requires x.left == RootOf(a) && Linked(a, x) && x.right == RootOf(b) && Linked(b, x)
      ensures Zipped(Node(Node(a, x, b), y, c), path)
    {
      hide PathElems, PathDistinct, PathLinked, Topmost;
      var inner := Node(a, x, b);
      assert Linked(inner, y) && Distinct(inner) && Elems(inner) == Elems(a) + {x} + Elems(b);
      assert Elems(Node(inner, y, c)) == Elems(inner) + {y} + Elems(c);
    }

    method RightRotate(x: TreeNode, ghost t: Tree<TreeNode>, ghost path: Path<TreeNode>)
      requires t.Node? && t.val == x && Zipped(t, path)
      modifies this`root, Elems(t)`left, Elems(t)`right, Elems(t)`parent
      modifies PathElems(path)`left, PathElems(path)`right
      ensures Zipped(RotateRight(t), path)
    {
      LinksDown(t, path);
      var y := x.left;
      if y == null {
        Redirect(x, y, path);
        x.parent := y;
      } else {
        OpenRight(t.left.left, y, t.left.right, x, t.right, path);
        SwingRight(x, y, t.left.left, t.left.right, t.right, path);
        CloseRight(t.left.left, y, t.left.right, x, t.right, path);
      }
    }

    method PassRight(x: TreeNode, y: TreeNode, ghost b: Tree<TreeNode>)
      requires x != y && {x, y} !! Elems(b) && Distinct(b) && y.right == RootOf(b) && Linked(b, y)
      modifies x`left, ({y} + Elems(b))`parent
      ensures x.left == RootOf(b) && Linked(b, x) && y.parent == x.parent
    {
      hide Elems, Linked, Distinct;
      RootIn(b);
      x.left := y.right;
      Reparent(y.right, x, b, y);
      y.parent := x.parent;
    }

    method SwingRight(x: TreeNode, y: TreeNode, ghost a: Tree<TreeNode>, ghost b: Tree<TreeNode>,
                      ghost c: Tree<TreeNode>, ghost path: Path<TreeNode>)
      requires Apart(x, y, a, b, c, path) && Elems(a) + Elems(b) + Elems(c) + PathElems(path) <= nodes
      requires root == Topmost(path, x) && x.parent == Above(path) && PathLinked(path, x)
      requires x.right == RootOf(c) && Linked(c, x) && x.left == y
      requires y.right == RootOf(b) && Linked(b, y) && y.left == RootOf(a) && Linked(a, y)
      modifies this`root, {x, y}`left, {x, y}`right, ({x, y} + Elems(b))`parent
      modifies PathElems(path)`left, PathElems(path)`right
      ensures root == Topmost(path, y) && y.parent == Above(path) && PathLinked(path, y)
      ensures y.right == x && x.parent == y && y.left == RootOf(a) && Linked(a, y)
      ensures x.right == RootOf(c) && Linked(c, x) && x.left == RootOf(b) && Linked(b, x)
    {
      hide Elems, PathElems, Linked, PathLinked, Distinct, PathDistinct, Topmost;
      PassRight(x, y, b);
      assert Linked(a, y) && Linked(b, x) && Linked(c, x) && PathLinked(path, x);
      Redirect(x, y, path);
      assert Linked(a, y) && Linked(b, x) && Linked(c, x);
      y.right := x;
      x.parent := y;
    }

    lemma {:induction false} OpenRight(a: Tree<TreeNode>, y: TreeNode, b: Tree<TreeNode>, x: TreeNode, c: Tree<TreeNode>,
                                       path: Path<TreeNode>)
      requires Zipped(Node(Node(a, y, b), x, c), path)
      ensures Apart(x, y, a, b, c, path) && Elems(a) + Elems(b) + Elems(c) + {x, y} + PathElems(path) <= nodes
      ensures root == Topmost(path, x) && x.parent == Above(path) && PathLinked(path, x)
      ensures x.right == RootOf(c) && Linked(c, x) && x.left == y
      ensures y.right == RootOf(b) && Linked(b, y) && y.left == RootOf(a) && Linked(a, y)
    {
      hide PathElems, PathDistinct, PathLinked, Topmost;
      var inner := Node(a, y, b);
      assert Linked(inner, x) && Distinct(inner) && Elems(inner) == Elems(a) + {y} + Elems(b);
      assert Elems(Node(inner, x, c)) == Elems(inner) + {x} + Elems(c);
    }

    lemma {:induction false} CloseRight(a: Tree<TreeNode>, y: TreeNode, b: Tree<TreeNode>, x: TreeNode, c: Tree<TreeNode>,
                                        path: Path<TreeNode>)
      requires Apart(x, y, a, b, c, path) && Elems(a) + Elems(b) + Elems(c) + {x, y} + PathElems(path) <= nodes
      requires root == Topmost(path, y) && y.parent == Above(path) && PathLinked(path, y)
      requires y.right == x && x.parent == y && y.left == RootOf(a) && Linked(a, y)
      requires x.right == RootOf(c) && Linked(c, x) && x.left == RootOf(b) && Linked(b, x)
      ensures Zipped(Node(a, y, Node(b, x, c)), path)
    {
      hide PathElems, PathDistinct, PathLinked, Topmost;
      var inner := Node(b, x, c);
      assert Linked(inner, y) && Distinct(inner) && Elems(inner) == Elems(b) + {x} + Elems(c);
      assert Elems(Node(a, y, inner)) == Elems(a) + {y} + Elems(inner);
    }

    /** Looking at the tree from one node higher or lower. */
    lemma {:induction false} Climb(t: Tree<TreeNode>, path: Path<TreeNode>)
      ensures path.InLeft? ==> (Zipped(t, path) <==> Zipped(Node(t, path.val, path.right), path.up))
      ensures path.InRight? ==> (Zipped(t, path) <==> Zipped(Node(path.left, path.val, t), path.up))
    {}

    /** Which child of its parent x is. */
    lemma {:induction false} WhichChild(t: Tree<TreeNode>, path: Path<TreeNode>)
      requires t.Node? && Zipped(t, path)
      ensures t.val.parent == Above(path)
      ensures !path.Top? ==> (path.val.left == t.val <==> path.InLeft?)
      ensures !path.Top? ==> path.val.parent == Above(path.up)
      ensures !path.Top? && !path.up.Top? ==> (path.up.val.left == path.val <==> path.up.InLeft?)
    {
      if path.InLeft? {
        Climb(t, path);
        if path.up.InRight? { assert RootOf(path.up.left) in Elems(path.up.left) || path.up.left.Leaf?; }
      } else if path.InRight? {
        Climb(t, path);
        assert RootOf(path.left) in Elems(path.left) || path.left.Leaf?;
        if path.up.InRight? { assert RootOf(path.up.left) in Elems(path.up.left) || path.up.left.Leaf?; }
      }
    }

    lemma {:induction false} ChildrenOf(t: Tree<TreeNode>, path: Path<TreeNode>)
      requires t.Node? && Zipped(t, path)
      ensures t.left.Node? ==> t.left.val.parent == t.val
      ensures t.right.Node? ==> t.right.val.parent == t.val
    {
      assert Linked(t.left, t.val) && Linked(t.right, t.val);
    }

    /** The child pointers of a subtree's root. */
    lemma {:induction false} LinksDown(t: Tree<TreeNode>, path: Path<TreeNode>)
      requires t.Node? && Zipped(t, path)
      ensures t.val.left == RootOf(t.left) && t.val.right == RootOf(t.right) && t.val.parent == Above(path)
    {}

    /** One iteration of the splay loop. */
    method SplayOnce(x: TreeNode, ghost t: Tree<TreeNode>, ghost path: Path<TreeNode>)
      requires t.Node? && t.val == x && !path.Top? && Zipped(t, path)
      modifies this`root, nodes`left, nodes`right, nodes`parent
      ensures var (t', path') := SplayStep(t, path); Zipped(t', path')
    {
      WhichChild(t, path);
      Climb(t, path);
      ghost var w := StepWindow(t, path);
      if x.parent.parent == null {
        if x.parent.left == x {
          RightRotate(x.parent, w, Top);
        } else {
          LeftRotate(x.parent, w, Top);
        }
      } else if x.parent.left == x && x.parent.parent.left == x.parent {
        Climb(w.left, path.up);
        RightRotate(x.parent.parent, w, path.up.up);
        ChildrenOf(RotateRight(w), path.up.up);
        RightRotate(x.parent, RotateRight(w), path.up.up);
      } else if x.parent.right == x && x.parent.parent.right == x.parent {
        Climb(w.right, path.up);
        LeftRotate(x.parent.parent, w, path.up.up);
        ChildrenOf(RotateLeft(w), path.up.up);
        LeftRotate(x.parent, RotateLeft(w), path.up.up);
      } else if x.parent.left == x && x.parent.parent.right == x.parent {
        ghost var lower := Node(t, path.val, path.right);
        RightRotate(x.parent, lower, path.up);
        Climb(RotateRight(lower), path.up);
        ChildrenOf(Node(path.up.left, path.up.val, RotateRight(lower)), path.up.up);
        LeftRotate(x.parent, Node(path.up.left, path.up.val, RotateRight(lower)), path.up.up);
      } else {
        ghost var lower := Node(path.left, path.val, t);
        LeftRotate(x.parent, lower, path.up);
        Climb(RotateLeft(lower), path.up);
        ChildrenOf(Node(RotateLeft(lower), path.up.val, path.up.right), path.up.up);
        RightRotate(x.parent, Node(RotateLeft(lower), path.up.val, path.up.right), path.up.up);
      }
    }

    /** The splay loop brings x to the root. */
    method Splay(x: TreeNode, ghost t: Tree<TreeNode>, ghost path: Path<TreeNode>)
      requires t.Node? && t.val == x && Zipped(t, path)
      modifies this`root, this`work, nodes`left, nodes`right, nodes`parent
      ensures Zipped(Splayed(t, path), Top)
      ensures work == old(work) + Iterations(t, path)
    {
      ghost var cur, rest := t, path;
      while x.parent != null
        invariant cur.Node? && cur.val == x && Zipped(cur, rest)
        invariant Splayed(cur, rest) == Splayed(t, path)
        invariant work + Iterations(cur, rest) == old(work) + Iterations(t, path)
        decreases rest
      {
        SplayOnce(x, cur, rest);
        work := work + 1;
        ghost var step := SplayStep(cur, rest);
        cur, rest := step.0, step.1;
      }
    }

    constructor ()
      ensures Valid() && contents == map[] && nodes == {} && work == 0
    {
      root, nodeCount := null, 0;
      shape, nodes, contents, work := Leaf, {}, map[], 0;
    }

    ghost predicate Narrowed(key: int, t: Tree<TreeNode>, path: Path<TreeNode>)
      reads this`shape
    {
      Fits(key, shape, t, path)
    }

    lemma {:induction false} GoRight(key: int, t: Tree<TreeNode>, path: Path<TreeNode>)
      requires Narrowed(key, t, path) && t.Node? && t.val.key < key && Sorted(Inorder(shape))
      ensures Narrowed(key, t.right, InRight(t.left, t.val, path))
    {
      Around(t, path);
      assert Below([t.val], key);
      SidesConcat(Before(path), Inorder(t.left), t.val.key);
      SidesConcat(Before(path), Inorder(t.left), key);
      SidesConcat(Before(path) + Inorder(t.left), [t.val], key);
    }

    lemma {:induction false} GoLeft(key: int, t: Tree<TreeNode>, path: Path<TreeNode>)
      requires Narrowed(key, t, path) && t.Node? && key < t.val.key && Sorted(Inorder(shape))
      ensures Narrowed(key, t.left, InLeft(t.val, t.right, path))
    {
      Around(t, path);
      assert Beyond([t.val], key);
      SidesConcat(Inorder(t.right), After(path), t.val.key);
      SidesConcat([t.val], Inorder(t.right), key);
      SidesConcat([t.val] + Inorder(t.right), After(path), key);
    }

    /** At an empty subtree the key is absent; at a node with the key it is present. */
    lemma {:induction false} SearchEnds(key: int, t: Tree<TreeNode>, path: Path<TreeNode>)
      requires nodes == Elems(shape) && Sorted(Inorder(shape)) && Stores(nodes, contents)
      requires Narrowed(key, t, path)
      ensures t.Leaf? ==> key !in contents
      ensures t.Node? && t.val.key == key ==> key in contents && contents[key] == t.val.record
      ensures t.Node? ==> t.val in nodes
      ensures t.Leaf? || t.val.key == key ==> forall n :: n in nodes && n.key == key ==> n == RootOf(t)
    {
      ElemsPlug(t, path);
      forall n | n in nodes && n.key == key
        ensures t.Node? && (t.val.key == key ==> n == t.val)
      {
        OnlyBelow(n, t, path);
      }
    }

    lemma {:induction false} OnlyBelow(n: TreeNode, t: Tree<TreeNode>, path: Path<TreeNode>)
      requires n in Elems(shape) && Sorted(Inorder(shape)) && Narrowed(n.key, t, path)
      ensures n in Inorder(t)
      ensures t.Node? && t.val.key == n.key ==> n == t.val
    {
      InorderPlug(t, path);
      ElemsInorder(shape);
      assert n !in Before(path) && n !in After(path);
      Middle(Before(path), Inorder(t), After(path), n);
      if t.Node? && t.val.key == n.key {
        assert t.val in Inorder(t);
        OneKeyOneNode(Inorder(t), n, t.val);
      }
    }

    /** The descent that tree_insert, tree_find and tree_remove start with. */
    method Locate(key: int)
      returns (z: TreeNode?, p: TreeNode?, ghost t: Tree<TreeNode>, ghost path: Path<TreeNode>)
      requires Valid()
      ensures Narrowed(key, t, path) && Zipped(t, path) && z == RootOf(t) && p == Above(path)
      ensures z == null ==> key !in contents
      ensures z != null ==> z in nodes && z.key == key && key in contents && contents[key] == z.record
      ensures forall n :: n in nodes && n.key == key ==> n == z
    {
      z, p := root, null;
      t, path := shape, Top;
      while z != null && z.key != key
        invariant Narrowed(key, t, path) && Zipped(t, path) && z == RootOf(t) && p == Above(path)
        decreases t
      {
        p := z;
        if key > z.key {
          GoRight(key, t, path);
          t, path := t.right, InRight(t.left, t.val, path);
          z := z.right;
        } else {
          GoLeft(key, t, path);
          t, path := t.left, InLeft(t.val, t.right, path);
          z := z.left;
        }
        Climb(t, path);
      }
      SearchEnds(key, t, path);
    }

    /** 0 (NULL) when the key is absent. */
    method Find(key: int) returns (record: int)
      requires Valid()
      ensures record == if key in contents then contents[key] else 0
    {
      var z, _, _, _ := Locate(key);
      record := if z != null then z.record else 0;
    }

    /** The record of the largest key that is at most `key`, or 0. */
    method FindNearest(key: int) returns (record: int)
      requires Valid()
      ensures forall k :: IsFloor(k, key, contents) ==> record == contents[k]
      ensures if exists k :: k in contents && k <= key then exists k :: IsFloor(k, key, contents) else record == 0
    {
      hide Linked, PathLinked, Separate, Elems;
      var z := root;
      var n: TreeNode? := null;
      ghost var t, path := shape, Top;
      while z != null
        invariant Narrowed(key, t, path) && Zipped(t, path) && z == RootOf(t)
        invariant n == LastBefore(path)
        decreases t
      {
        SearchEnds(key, t, path);
        LinksDown(t, path);
        if key == z.key {
          assert IsFloor(key, key, contents);
          return z.record;
        }
        if key > z.key {
          GoRight(key, t, path);
          LastIsSmaller(t, path);
          if n == null || n.key < z.key {
            n := z;
          }
          t, path := t.right, InRight(t.left, t.val, path);
          z := z.right;
        } else {
          GoLeft(key, t, path);
          t, path := t.left, InLeft(t.val, t.right, path);
          z := z.left;
        }
        Climb(t, path);
      }
      FloorIsLast(key, path);
      record := if n != null then n.record else 0;
    }

    ghost function LastBefore(path: Path<TreeNode>): (n: TreeNode?)
      ensures n != null ==> n in Before(path)
    {
      var s := Before(path);
      if s == [] then null else s[|s| - 1]
    }

    lemma {:induction false} LastIsSmaller(t: Tree<TreeNode>, path: Path<TreeNode>)
      requires t.Node? && Plug(t, path) == shape && Sorted(Inorder(shape))
      ensures var n := LastBefore(path); n != null ==> n.key < t.val.key
    {
      Around(t, path);
      var s, n := Before(path), LastBefore(path);
      if n != null {
        assert (s + Inorder(t.left))[|s| - 1] == n;
      }
    }

    /** When a search has run out of nodes, the last node before it has the largest key below. */
    lemma {:induction false} FloorIsLast(key: int, path: Path<TreeNode>)
      requires Narrowed(key, Leaf, path) && Sorted(Inorder(shape)) && nodes == Elems(shape) && Stores(nodes, contents)
      ensures var n := LastBefore(path);
              && (n == null ==> forall k :: k in contents ==> key < k)
              && (n != null ==> n in nodes && IsFloor(n.key, key, contents))
    {
      InorderPlug<TreeNode>(Leaf, path);
      assert Inorder(shape) == Before(path) + After(path);
      LastIsLargest(Before(path), After(path));
      ElemsInorder(shape);
      forall k | k in contents && k <= key
        ensures LastBefore(path) != null && k <= LastBefore(path).key
      {
        var m :| m in nodes && m.key == k;
        assert m in Before(path);
      }
    }

    /** A new node z goes below p, on the side its key calls for. */
    method Attach(z: TreeNode, p: TreeNode?, ghost path: Path<TreeNode>)
      requires Zipped(Leaf, path) && p == Above(path) && z !in nodes && z.parent == p
      requires z.left == null && z.right == null
      requires path.InRight? ==> path.val.key < z.key
      requires path.InLeft? ==> z.key < path.val.key
      modifies this`root, this`nodes, PathElems(path)`left, PathElems(path)`right
      ensures nodes == old(nodes) + {z}
      ensures Zipped(Node(Leaf, z, Leaf), path)
    {
      if p == null {
        root := z;
      } else if p.key < z.key {
        p.right := z;
      } else {
        p.left := z;
      }
      nodes := nodes + {z};
      assert PathLinked(path, z);
    }

    /** The second half of tree_insert: a new node at the end of the path, then splayed. */
    method PlaceNode(key: int, record: int, p: TreeNode?, ghost path: Path<TreeNode>) returns (z: TreeNode)
      requires Zipped(Leaf, path) && p == Above(path)
      requires path.InRight? ==> path.val.key < key
      requires path.InLeft? ==> key < path.val.key
      modifies this, nodes`left, nodes`right, nodes`parent
      ensures fresh(z) && z.key == key && z.record == record && nodes == old(nodes) + {z}
      ensures shape == Splayed(Node(Leaf, z, Leaf), path)
      ensures Zipped(shape, Top)
      ensures nodeCount == old(nodeCount) + 1
      ensures work == old(work) + Iterations(Node(Leaf, z, Leaf), path)
      ensures contents == old(contents)[key := record]
    {
      hide Linked, Distinct, PathLinked, PathDistinct, Elems, PathElems, Splayed, Iterations;
      z := new TreeNode(key, record, p);
      shape := Splayed(Node(Leaf, z, Leaf), path);
      contents := contents[key := record];
      Attach(z, p, path);
      Splay(z, Node(Leaf, z, Leaf), path);
      nodeCount := nodeCount + 1;
    }

    method AddNode(key: int, record: int, p: TreeNode?, ghost path: Path<TreeNode>) returns (z: TreeNode)
      requires Narrowed(key, Leaf, path) && Zipped(Leaf, path) && p == Above(path)
      requires nodes == Elems(shape) && Sorted(Inorder(shape)) && nodeCount == Size(shape)
      modifies this, nodes`left, nodes`right, nodes`parent
      ensures fresh(z) && z.key == key && z.record == record && nodes == old(nodes) + {z}
      ensures Shaped() && nodeCount == old(nodeCount) + 1
      ensures contents == old(contents)[key := record]
      ensures shape.Node? && shape.val == z && shape == Splayed(Node(Leaf, z, Leaf), path)
      ensures work + Potential(shape) <= old(work + Potential(shape)) + 4 * Rank(nodeCount) + 1
    {
      SidesByKey(key, path);
      z := PlaceNode(key, record, p, path);
      Grown(old(shape), z, path);
    }

    method Overwrite(z: TreeNode, record: int)
      requires Valid() && z in nodes && forall n :: n in nodes && n.key == z.key ==> n == z
      modifies z`record, this`contents
      ensures Valid()
      ensures contents == old(contents)[z.key := record] && |contents| == old(|contents|)
    {
      hide Zipped, Sorted, Inorder, Size, Elems;
      z.record := record;
      contents := contents[z.key := record];
      assert contents.Keys == old(contents.Keys);
      assert Stores(nodes, contents);
    }

    method InsertNew(key: int, record: int, p: TreeNode?, ghost path: Path<TreeNode>)
      requires Narrowed(key, Leaf, path) && Zipped(Leaf, path) && p == Above(path) && key !in contents
      requires nodes == Elems(shape) && Sorted(Inorder(shape)) && Stores(nodes, contents)
      requires nodeCount == Size(shape) == |contents|
      modifies this, nodes`left, nodes`right, nodes`parent
      ensures Valid()
      ensures contents == old(contents)[key := record] && fresh(nodes - old(nodes))
      ensures shape.Node? && shape.val.key == key && shape == Splayed(Node(Leaf, shape.val, Leaf), path)
      ensures work + Potential(shape) <= old(work + Potential(shape)) + 4 * Rank(|contents|) + 1
    {
      hide Narrowed, Sorted, Inorder, Potential, Rank, Elems, Distinct, Linked, Splayed, Shaped, Stores, Zipped;
      ghost var ns, m := nodes, contents;
      var z := AddNode(key, record, p, path);
      StoresGrow(ns, m, z);
      assert |contents| == |m| + 1 == nodeCount;
    }

    lemma {:induction false} SidesByKey(key: int, path: Path<TreeNode>)
      requires Narrowed(key, Leaf, path)
      ensures path.InRight? ==> path.val.key < key
      ensures path.InLeft? ==> key < path.val.key
    {
      assert path.InRight? ==> path.val in Before(path);
      assert path.InLeft? ==> path.val in After(path);
    }

    /** Overwrites the record of a present key; otherwise adds a node and splays it to the root. */
    method Insert(key: int, record: int) returns (ok: bool)
      requires Valid()
      modifies this, nodes
      ensures Valid() && ok
      ensures contents == old(contents)[key := record]
      ensures fresh(nodes - old(nodes))
      ensures key in old(contents) ==> shape == old(shape) && work == old(work)
      ensures key !in old(contents) ==>
                && shape.Node? && shape.val.key == key
                && exists path :: Plug(Leaf, path) == old(shape) && shape == Splayed(Node(Leaf, shape.val, Leaf), path)
      ensures work + Potential(shape) <= old(work + Potential(shape)) + 4 * Rank(|contents|) + 1
    {
      hide Sorted, Inorder, Potential, Linked, Size, Stores, Separate, Elems, Plug, Before, After;
      var z, p;
      ghost var t, path;
      z, p, t, path := Locate(key);
      if z != null {
        Overwrite(z, record);
      } else {
        InsertNew(key, record, p, path);
      }
      ok := true;
    }

    /** What pointed down at u now points at v, and v points up where u did. */
    method Replace(u: TreeNode, v: TreeNode?, ghost tv: Tree<TreeNode>, ghost up: TreeNode?, ghost path: Path<TreeNode>)
      requires u.parent == Above(path) && root == Topmost(path, u)
      requires PathLinked(path, u) && PathDistinct(path) && u !in PathElems(path) + Elems(tv)
      requires v == RootOf(tv) && Linked(tv, up) && Distinct(tv) && Elems(tv) !! PathElems(path)
      requires Elems(tv) + PathElems(path) <= nodes
      modifies this`root, PathElems(path)`left, PathElems(path)`right, (if v != null then {v} else {})`parent
      ensures PathLinked(path, v) && root == Topmost(path, v)
      ensures Linked(tv, Above(path))
    {
      hide Linked, Distinct, PathDistinct;
      assert tv.Node? ==> v in Elems(tv);
      Redirect(u, v, path);
      Reparent(v, u.parent, tv, up);
    }

    /** The heap holds the same tree however far down the path one looks. */
    lemma {:induction false} ClimbAll(t: Tree<TreeNode>, path: Path<TreeNode>)
      ensures Zipped(t, path) <==> Zipped(Plug(t, path), Top)
      decreases path
    {
      Climb(t, path);
      if path.InLeft? {
        ClimbAll(Node(t, path.val, path.right), path.up);
      } else if path.InRight? {
        ClimbAll(Node(path.left, path.val, t), path.up);
      }
    }

    /** subtree_minimum: the leftmost node below u. */
    method SubtreeMinimum(u: TreeNode, ghost t: Tree<TreeNode>, ghost path: Path<TreeNode>)
      returns (y: TreeNode, ghost low: Tree<TreeNode>, ghost spine: Path<TreeNode>)
      requires t.Node? && u == t.val && Zipped(t, path)
      ensures low.Node? && low.val == y && low.left.Leaf? && Zipped(low, spine)
      ensures y == PopMin(t).0 && Plug(low, spine) == Plug(t, path)
      ensures Plug(low.right, spine) == Plug(PopMin(t).1, path)
      ensures (low == t && spine == path) || (spine.InLeft? && spine.val in Elems(t))
    {
      y, low, spine := u, t, path;
      while y.left != null
        invariant low.Node? && low.val == y && Zipped(low, spine)
        invariant PopMin(low).0 == PopMin(t).0 && Plug(low, spine) == Plug(t, path)
        invariant Plug(PopMin(low).1, spine) == Plug(PopMin(t).1, path)
        invariant (low == t && spine == path) || (spine.InLeft? && spine.val in Elems(t))
        invariant Elems(low) <= Elems(t)
        decreases low
      {
        spine, low := InLeft(low.val, low.right, spine), low.left;
        Climb(low, spine);
        y := y.left;
      }
    }

    /** The last steps of a removal with two children: y, in no tree, takes the place of the root z;
        r is what is left on the right. */
    method TakeOver(z: TreeNode, y: TreeNode, ghost l: Tree<TreeNode>, ghost r: Tree<TreeNode>, ghost up: TreeNode?)
      requires l.Node? && Distinct(Node(l, y, r)) && Elems(Node(l, y, r)) <= nodes && z !in Elems(Node(l, y, r))
      requires root == z && z.parent == null && z.left == RootOf(l)
      requires Linked(l, z) && Linked(Node(Leaf, y, r), up)
      modifies this`root, y`parent, y`left, l.val`parent
      ensures root == y && Linked(Node(l, y, r), null)
    {
      assert l.val in Elems(l) && Distinct(l) && Distinct(Node(Leaf, y, r));
      Replace(z, y, Node(Leaf, y, r), up, Top);
      assert Linked(r, y) && y.right == RootOf(r);
      y.left := z.left;
      Reparent(y.left, y, l, z);
    }

    /** A node y that was cut out of the tree adopts the right subtree r of z. */
    method AdoptRight(z: TreeNode, y: TreeNode, ghost r: Tree<TreeNode>)
      requires r.Node? && Distinct(r) && y !in Elems(r) && z != y && z !in Elems(r)
      requires z.right == RootOf(r) && Linked(r, z)
      modifies y`right, r.val`parent
      ensures y.right == r.val && Linked(r, y)
    {
      assert r.val in Elems(r);
      y.right := z.right;
      Reparent(y.right, y, r, z);
    }

    /** Removing a root with two children. */
    method JoinChildren(z: TreeNode, ghost t: Tree<TreeNode>)
      requires t.Node? && t.val == z && t.left.Node? && t.right.Node? && Zipped(t, Top)
      modifies this`root, nodes`left, nodes`right, nodes`parent
      ensures root == RootOf(WithoutRoot(t)) && Linked(WithoutRoot(t), null)
    {
      hide PopMin, Inorder, PathDistinct, PathElems;
      ghost var l, r, base := t.left, t.right, InRight(t.left, z, Top);
      Climb(r, base);
      LinksDown(t, Top);
      PopMinElems(r);
      ghost var rest := PopMin(r).1;
      ghost var low, spine;
      var y;
      y, low, spine := SubtreeMinimum(z.right, r, base);
      if y.parent != z {
        assert spine != base;
        Detach(z, y, low, spine, l, rest);
      }
      TakeOver(z, y, l, rest, y.parent);
    }

    /** The leftmost node y below the right child of z leaves its place and adopts what is left there. */
    method Detach(z: TreeNode, y: TreeNode, ghost low: Tree<TreeNode>, ghost spine: Path<TreeNode>,
                  ghost l: Tree<TreeNode>, ghost rest: Tree<TreeNode>)
      requires low.Node? && low.val == y && low.left.Leaf? && Zipped(low, spine)
      requires Plug(low.right, spine) == Node(l, z, rest) && rest.Node? && z != y && y !in Elems(rest) && y !in Elems(l)
      modifies this`root, nodes`left, nodes`right, nodes`parent
      ensures root == z && z.parent == null && z.left == RootOf(l) && Linked(l, z)
      ensures Linked(Node(Leaf, y, rest), y.parent)
    {
      hide PathElems, PathDistinct;
      CutOut(y, low, spine);
      ClimbAll(low.right, spine);
      AdoptRight(z, y, rest);
    }

    /** replace(tree, y, y->right) for a node y without left child. */
    method CutOut(y: TreeNode, ghost low: Tree<TreeNode>, ghost spine: Path<TreeNode>)
      requires low.Node? && low.val == y && low.left.Leaf? && Zipped(low, spine)
      modifies this`root, nodes`left, nodes`right, (nodes - {y})`parent
      ensures Zipped(low.right, spine)
      ensures y.left == old(y.left) && y.right == old(y.right)
    {
      assert Linked(low.right, y);
      Replace(y, y.right, low.right, y, spine);
    }

    /** Takes the root z out of the tree. */
    method RemoveRoot(z: TreeNode, ghost t: Tree<TreeNode>)
      requires t.Node? && t.val == z && Zipped(t, Top)
      modifies this`root, nodes`left, nodes`right, nodes`parent
      ensures root == RootOf(WithoutRoot(t)) && Linked(WithoutRoot(t), null)
    {
      assert Linked(t.left, z) && Linked(t.right, z);
      if z.left == null {
        Replace(z, z.right, t.right, z, Top);
      } else if z.right == null {
        Replace(z, z.left, t.left, z, Top);
      } else {
        JoinChildren(z, t);
      }
    }

    /** Splays the node and takes it out. 0 (NULL) when the key is absent. */
    method Remove(key: int) returns (record: int)
      requires Valid()
      modifies this, nodes
      ensures Valid()
      ensures contents == old(contents) - {key} && nodes <= old(nodes)
      ensures record == if key in old(contents) then old(contents)[key] else 0
      ensures key !in old(contents) ==> shape == old(shape) && work == old(work)
      ensures key in old(contents) ==>
                exists t, path :: Plug(t, path) == old(shape) && t.Node? && t.val.key == key
                                  && shape == WithoutRoot(Splayed(t, path))
      ensures work + Potential(shape) <= old(work + Potential(shape)) + 3 * Rank(|old(contents)|) + 1
    {
      hide Sorted, Inorder, Potential, Linked, Separate, Elems, Rank, Before, After, WithoutRoot;
      var z, p;
      ghost var t, path;
      z, p, t, path := Locate(key);
      if z == null {
        return 0;
      }
      record := z.record;
      RemoveFound(z, t, path);
    }

    method RemoveFound(z: TreeNode, ghost t: Tree<TreeNode>, ghost path: Path<TreeNode>)
      requires t.Node? && t.val == z && Plug(t, path) == shape && Zipped(t, path)
      requires nodes == Elems(shape) && Sorted(Inorder(shape)) && Stores(nodes, contents)
      requires nodeCount == Size(shape) == |contents|
      requires z in nodes && forall n :: n in nodes && n.key == z.key ==> n == z
      modifies this, nodes`left, nodes`right, nodes`parent
      ensures Valid()
      ensures contents == old(contents) - {z.key} && nodes <= old(nodes)
      ensures shape == WithoutRoot(Splayed(t, path))
      ensures work + Potential(shape) <= old(work + Potential(shape)) + 3 * Rank(|old(contents)|) + 1
    {
      hide Elems, Stores, Inorder, Distinct;
      Shrunk(shape, t, path);
      ghost var ns, m := nodes, contents;
      TakeOut(z, t, path);
      StoresShrink(ns, m, z);
    }

    method TakeOut(z: TreeNode, ghost t: Tree<TreeNode>, ghost path: Path<TreeNode>)
      requires t.Node? && t.val == z && Zipped(t, path)
      requires var s := WithoutRoot(Splayed(t, path)); Elems(s) == nodes - {z} && Distinct(s)
      requires nodeCount > 0
      modifies this, nodes`left, nodes`right, nodes`parent
      ensures shape == WithoutRoot(Splayed(t, path)) && Zipped(shape, Top)
      ensures nodes == old(nodes) - {z} && contents == old(contents) - {z.key}
      ensures nodeCount == old(nodeCount) - 1
      ensures work == old(work) + Iterations(t, path)
    {
      Splay(z, t, path);
      RemoveRoot(z, Splayed(t, path));
      nodeCount := nodeCount - 1;
      shape := WithoutRoot(Splayed(t, path));
      nodes := nodes - {z};
      contents := contents - {z.key};
    }

    lemma {:induction false} Shrunk(was: Tree<TreeNode>, t: Tree<TreeNode>, path: Path<TreeNode>)
      requires t.Node? && Plug(t, path) == was && Sorted(Inorder(was)) && Separate(t, path)
      ensures var s := WithoutRoot(Splayed(t, path));
              && Elems(s) == Elems(was) - {t.val} && Distinct(s)
              && Sorted(Inorder(s)) && Size(s) + 1 == Size(was)
              && Iterations(t, path) + Potential(s) <= Potential(was) + 3 * Rank(Size(was)) + 1
    {
      var s := Splayed(t, path);
      SplayKeepsOrder(t, path);
      WithoutRootOrder(s);
      DropSorted(Inorder(s.left), s.val, Inorder(s.right));
      AccessLemma(t, path);
      RemovalCharge(s);
      ElemsInorder(s);
      ElemsInorder(was);
      SortedIsDistinct(s);
      WithoutRootElems(s);
    }
  }
}
