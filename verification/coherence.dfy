/** One processor's coherence states as coherence/coherence.c keeps them: a splay tree keyed by
    address, with the number of the state as record. UNDEF (0) is what a failed lookup returns. */
module Coherence {
  import opened Protocol
  import opened SplayHeap

  const MODIFIED := 1
  const INVALID := 2
  const INVALID_MODIFIED := 3

  function Code(s: CohState): int {
    match s
    case Modified => MODIFIED
    case Invalid => INVALID
    case InvalidModified => INVALID_MODIFIED
  }

  function Decode(code: int): CohState {
    if code == MODIFIED then Modified else if code == INVALID_MODIFIED then InvalidModified else Invalid
  }

  /** The directory that a tree's map stands for. */
  ghost function Decoded(contents: map<int, int>): Directory {
    map a | a in contents :: Decode(contents[a])
  }

  /** Only MODIFIED and INVALID_MODIFIED are stored. */
  ghost predicate Coded(contents: map<int, int>) {
    forall a :: a in contents ==> contents[a] == MODIFIED || contents[a] == INVALID_MODIFIED
  }

  lemma {:induction false} DecodedWith(m: map<int, int>, a: Addr, s: CohState)
    requires s != Invalid
    ensures Decoded(m[a := Code(s)]) == Decoded(m)[a := s]
    ensures Coded(m) ==> Coded(m[a := Code(s)])
  {}

  lemma {:induction false} DecodedWithout(m: map<int, int>, a: Addr)
    ensures Decoded(m - {a}) == Decoded(m) - {a}
    ensures Coded(m) ==> Coded(m - {a})
  {}

  /** What one processor sends on the bus as a consequence of a call. */
  datatype BusMessage = Silent | Send(brt: BusType, addr: Addr)

  class StateTree {
    const tree: SplayTree

    /** The tree holds exactly the addresses that are not in INVALID. */
    ghost predicate Valid()
      reads tree, tree.nodes
    {
      tree.Valid() && Coded(tree.contents)
    }

    ghost function Dir(): Directory
      reads tree
    {
      Decoded(tree.contents)
    }

    constructor ()
      ensures Valid() && fresh(tree) && fresh(tree.nodes) && Dir() == map[]
    {
      tree := new SplayTree();
    }

    method GetState(a: Addr) returns (s: CohState)
      requires Valid()
      ensures s == Protocol.GetState(Dir(), a)
    {
      var code := tree.Find(a);
      s := Decode(code);
    }

    method SetState(a: Addr, next: CohState)
      requires Valid() && next != Invalid
      modifies tree, tree.nodes
      ensures Valid() && fresh(tree.nodes - old(tree.nodes))
      ensures Dir() == old(Dir())[a := next]
    {
      DecodedWith(tree.contents, a, next);
      var _ := tree.Insert(a, Code(next));
    }

    method RemoveState(a: Addr)
      requires Valid()
      modifies tree, tree.nodes
      ensures Valid() && tree.nodes <= old(tree.nodes)
      ensures Dir() == old(Dir()) - {a}
    {
      DecodedWithout(tree.contents, a);
      var _ := tree.Remove(a);
    }

    /** busReq: the protocol's snoop, with INVALID removed rather than stored. */
    method BusReq(reqType: BusType, a: Addr) returns (ca: Action, msg: BusMessage)
      requires Valid()
      modifies tree, tree.nodes
      ensures Valid() && fresh(tree.nodes - old(tree.nodes))
      ensures var (next, act, sends) := SnoopMI(reqType, Protocol.GetState(old(Dir()), a));
              && Dir() == Snooped(old(Dir()), a, next)
              && ca == act && msg == if sends then Send(Data, a) else Silent
      ensures match Protocol.GetState(old(Dir()), a)
              case Modified => Dir() == old(Dir()) - {a} && ca == Invalidate && msg == Send(Data, a)
              case InvalidModified =>
                if reqType == Data || reqType == Shared then
                  Dir() == old(Dir())[a := Modified] && ca == DataRecv && msg == Silent
                else Dir() == old(Dir()) && ca == NoAction && msg == Silent
              case Invalid =>
                Dir() == old(Dir()) && ca == (if reqType == Data then FlushComplete else NoAction) && msg == Silent
    {
      var currentState := GetState(a);
      var (nextState, act, sends) := SnoopMI(reqType, currentState);
      if nextState == Invalid {
        if currentState != Invalid {
          RemoveState(a);
        }
      } else {
        SetState(a, nextState);
      }
      ca, msg := act, if sends then Send(Data, a) else Silent;
    }

    /** permReq. */
    method PermReq(a: Addr) returns (permAvail: bool, msg: BusMessage)
      requires Valid()
      modifies tree, tree.nodes
      ensures Valid() && fresh(tree.nodes - old(tree.nodes))
      ensures var (next, perm, sends) := CacheMI(Protocol.GetState(old(Dir()), a));
              && Dir() == old(Dir())[a := next]
              && permAvail == perm && msg == if sends then Send(BusWr, a) else Silent
      ensures permAvail <==> a in old(Dir()) && old(Dir())[a] == Modified
      ensures Dir() == if permAvail then old(Dir()) else old(Dir())[a := InvalidModified]
      ensures msg == if a in old(Dir()) then Silent else Send(BusWr, a)
    {
      var currentState := GetState(a);
      var (nextState, perm, sends) := CacheMI(currentState);
      SetState(a, nextState);
      permAvail, msg := perm, if sends then Send(BusWr, a) else Silent;
    }

    /** invlReq: a block in any state but INVALID is flushed; either way it leaves the tree. */
    method InvlReq(a: Addr) returns (flush: bool, msg: BusMessage)
      requires Valid()
      modifies tree, tree.nodes
      ensures Valid() && fresh(tree.nodes - old(tree.nodes))
      ensures Dir() == old(Dir()) - {a}
      ensures flush <==> a in old(Dir())
      ensures msg == if flush then Send(Data, a) else Silent
    {
      var currentState := GetState(a);
      flush := currentState != Invalid;
      msg := if flush then Send(Data, a) else Silent;
      RemoveState(a);
    }
  }

  /** The tree, whose nodes are ns, stands for directory d. */
  ghost predicate StandsFor(t: StateTree, ns: set<TreeNode>, d: Directory)
    reads t.tree, ns
  {
    t.tree.nodes == ns && t.Valid() && t.Dir() == d
  }

  /** The trees stand for the directories, each with nodes of its own, within ss and ns. */
  ghost predicate Forest(trees: seq<StateTree>, own: seq<set<TreeNode>>, dirs: seq<Directory>,
                         ss: set<SplayTree>, ns: set<TreeNode>)
    reads ss, ns
  {
    && |own| == |dirs| == |trees|
    && (forall i :: 0 <= i < |trees| ==> trees[i].tree in ss && own[i] <= ns && StandsFor(trees[i], own[i], dirs[i]))
    && (forall i, j :: 0 <= i < |trees| && 0 <= j < |trees| && i != j ==> trees[i].tree != trees[j].tree && own[i] !! own[j])
  }

  /** Tree p and its nodes changed; its nodes are still its own. */
  lemma {:induction false} Replanted(trees: seq<StateTree>, own: seq<set<TreeNode>>, dirs: seq<Directory>,
                                     ss: set<SplayTree>, ns: set<TreeNode>, p: nat, mine: set<TreeNode>, d: Directory)
    requires |own| == |dirs| == |trees| && p < |trees|
    requires trees[p].tree in ss && StandsFor(trees[p], mine, d)
    requires forall i :: 0 <= i < |trees| && i != p ==>
               trees[i].tree in ss && own[i] <= ns && StandsFor(trees[i], own[i], dirs[i]) && own[i] !! mine
    requires forall i, j :: 0 <= i < |trees| && 0 <= j < |trees| && i != j ==>
               trees[i].tree != trees[j].tree && own[i] !! own[j]
    ensures Forest(trees, own[p := mine], dirs[p := d], ss, ns + mine)
  {
    hide StateTree.Valid, StateTree.Dir, StandsFor;
  }

  /** coherStates: one tree for every processor, on one heap, with nodes of their own. */
  class CoherStates {
    const trees: seq<StateTree>
    ghost const splays: set<SplayTree>
    ghost var nodes: set<TreeNode>
    ghost var own: seq<set<TreeNode>>
    ghost var dirs: seq<Directory>

    ghost predicate Valid()
      reads this, splays, nodes
    {
      |dirs| == |trees| && Forest(trees, own, dirs, splays, nodes)
    }

    constructor (n: nat)
      ensures Valid() && |trees| == n && dirs == seq(n, _ => map[]) && fresh(splays) && fresh(nodes)
    {
      hide StateTree.Valid, StateTree.Dir;
      var all: seq<StateTree> := [];
      ghost var ss: set<SplayTree>, ns: set<TreeNode>, os: seq<set<TreeNode>> := {}, {}, [];
      while |all| < n
        invariant |all| <= n && fresh(ss) && fresh(ns)
        invariant Forest(all, os, seq(|all|, _ => map[]), ss, ns)
      {
        var one := new StateTree();
        all, os, ss, ns := all + [one], os + [one.tree.nodes], ss + {one.tree}, ns + one.tree.nodes;
      }
      trees, splays, nodes, own, dirs := all, ss, ns, os, seq(n, _ => map[]);
    }

    /** busReq of processor p's states. */
    method BusReq(p: nat, reqType: BusType, a: Addr) returns (ca: Action, msg: BusMessage)
      requires Valid() && p < |trees|
      modifies this`nodes, this`own, this`dirs, splays, nodes
      ensures Valid() && fresh(nodes - old(nodes))
      ensures var (next, act, sends) := SnoopMI(reqType, Protocol.GetState(old(dirs)[p], a));
              && dirs == old(dirs)[p := Snooped(old(dirs)[p], a, next)]
              && ca == act && msg == if sends then Send(Data, a) else Silent
    {
      hide StateTree.Valid, StateTree.Dir, SnoopMI, CacheMI, Snooped, Protocol.GetState;
      assert StandsFor(trees[p], own[p], dirs[p]);
      ca, msg := trees[p].BusReq(reqType, a);
      ghost var mine := trees[p].tree.nodes;
      Replanted(trees, own, dirs, splays, nodes, p, mine, trees[p].Dir());
      own, dirs, nodes := own[p := mine], dirs[p := trees[p].Dir()], nodes + mine;
    }

    /** permReq of processor p's states. */
    method PermReq(p: nat, a: Addr) returns (permAvail: bool, msg: BusMessage)
      requires Valid() && p < |trees|
      modifies this`nodes, this`own, this`dirs, splays, nodes
      ensures Valid() && fresh(nodes - old(nodes))
      ensures var (next, perm, sends) := CacheMI(Protocol.GetState(old(dirs)[p], a));
              && dirs == old(dirs)[p := old(dirs)[p][a := next]]
              && permAvail == perm && msg == if sends then Send(BusWr, a) else Silent
    {
      hide StateTree.Valid, StateTree.Dir, SnoopMI, CacheMI, Snooped, Protocol.GetState;
      assert StandsFor(trees[p], own[p], dirs[p]);
      permAvail, msg := trees[p].PermReq(a);
      ghost var mine := trees[p].tree.nodes;
      Replanted(trees, own, dirs, splays, nodes, p, mine, trees[p].Dir());
      own, dirs, nodes := own[p := mine], dirs[p := trees[p].Dir()], nodes + mine;
    }
  }
}
