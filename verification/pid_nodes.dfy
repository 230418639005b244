/**
 The PID tree as the kernel keeps it (c/disp.c): nodes on the heap, linked and rotated in
 place. Each routine does to the nodes what the function of PidTree does to their value.
 */
module PidNodes {
  import opened Basics
  import opened PidTree

  class TreeNode {
    var pid: nat
    var pcbIndex: nat
    var left: TreeNode?
    var right: TreeNode?
    var height: nat
    ghost var Repr: set<object>
    ghost var tree: Tree

    ghost predicate Valid()
      reads this, Repr
      ensures Valid() ==> this in Repr && tree.Node?
      decreases Repr
    {
      && this in Repr
      && (left != null ==> left in Repr && left.Repr <= Repr && this !in left.Repr && left.Valid())
      && (right != null ==> right in Repr && right.Repr <= Repr && this !in right.Repr && right.Valid())
      && (left != null && right != null ==> left.Repr !! right.Repr)
      && tree == Tree.Node(TreeOf(left), pid, pcbIndex, TreeOf(right), height)
    }

    /** The node insert() allocates. */
    constructor (pid: nat, pcbIndex: nat)
      ensures Valid() && fresh(Repr) && tree == Tree.Node(Leaf, pid, pcbIndex, Leaf, 1)
    {
      this.pid, this.pcbIndex, left, right, height := pid, pcbIndex, null, null, 1;
      Repr := {this};
      tree := Tree.Node(Leaf, pid, pcbIndex, Leaf, 1);
    }
  }

  ghost function TreeOf(n: TreeNode?): Tree
    reads n
  {
    if n == null then Leaf else n.tree
  }

  ghost function ReprOf(n: TreeNode?): set<object>
    reads n
  {
    if n == null then {} else n.Repr
  }

  ghost predicate ValidOf(n: TreeNode?)
    reads n, ReprOf(n)
  {
    n != null ==> n.Valid()
  }

  /** The stored height of a subtree, 0 if there is none. */
  function HeightOf(n: TreeNode?): nat
    reads n
  {
    if n == null then 0 else n.height
  }

  /** Two disjoint subtrees that do not contain the node itself. */
  ghost predicate Around(node: TreeNode, left: TreeNode?, right: TreeNode?)
    reads node, left, right, ReprOf(left), ReprOf(right)
  {
    && ValidOf(left) && ValidOf(right)
    && node !in ReprOf(left) && node !in ReprOf(right) && ReprOf(left) !! ReprOf(right)
  }

  lemma Open(node: TreeNode)
    requires node.Valid()
    ensures Around(node, node.left, node.right)
    ensures ReprOf(node.left) <= node.Repr && ReprOf(node.right) <= node.Repr
    ensures node.tree == Tree.Node(TreeOf(node.left), node.pid, node.pcbIndex, TreeOf(node.right), node.height)
  {
  }

  /** Brings the ghost fields of a node up to date with its subtrees. */
  ghost method Relink(node: TreeNode)
    requires Around(node, node.left, node.right)
    modifies node`Repr, node`tree
    ensures node.Valid() && node.Repr == {node} + ReprOf(node.left) + ReprOf(node.right)
    ensures node.tree == Tree.Node(TreeOf(node.left), node.pid, node.pcbIndex, TreeOf(node.right), node.height)
  {
    node.Repr := {node} + ReprOf(node.left) + ReprOf(node.right);
    node.tree := Tree.Node(TreeOf(node.left), node.pid, node.pcbIndex, TreeOf(node.right), node.height);
  }

  /** updateHeight(), once the subtrees are in place. */
  method UpdateHeight(node: TreeNode)
    requires Around(node, node.left, node.right)
    modifies node`height, node`Repr, node`tree
    ensures node.Valid() && node.Repr == {node} + ReprOf(node.left) + ReprOf(node.right)
    ensures node.tree == Updated(TreeOf(node.left), node.pid, node.pcbIndex, TreeOf(node.right))
  {
    assert node.left != null ==> node.left.tree.height == node.left.height;
    assert node.right != null ==> node.right.tree.height == node.right.height;
    var l, r := HeightOf(node.left), HeightOf(node.right);
    node.height := (if l > r then l else r) + 1;
    Relink(node);
  }

  /** rotateLeft() */
  method RotateLeft(node: TreeNode) returns (ret: TreeNode)
    requires node.Valid() && node.right != null
    modifies node.Repr
    ensures ret.Valid() && ret.tree == PidTree.RotateLeft(old(node.tree)) && ret.Repr <= old(node.Repr)
  {
    hide TreeNode.Valid;
    ret := node.right;
    Open(node);
    Open(ret);
    node.right := ret.left;
    ret.left := node;
    UpdateHeight(node);
    UpdateHeight(ret);
  }

  /** rotateRight(), as written or with the old root made a child of the new one. */
  method RotateRight(node: TreeNode, repaired: bool) returns (ret: TreeNode)
    requires node.Valid() && node.left != null
    modifies node.Repr
    ensures ret.Valid() && ret.tree == PidTree.RotateRight(old(node.tree), repaired) && ret.Repr <= old(node.Repr)
  {
    hide TreeNode.Valid;
    ret := node.left;
    Open(node);
    Open(ret);
    node.left := ret.right;
    UpdateHeight(node);
    if repaired {
      ret.right := node;
    }
    UpdateHeight(ret);
  }

  /** balanceFactor() */
  method BalanceFactor(node: TreeNode) returns (b: int)
    requires node.Valid()
    ensures b == Balance(node.tree)
  {
    assert node.left != null ==> node.left.tree.height == node.left.height;
    assert node.right != null ==> node.right.tree.height == node.right.height;
    b := HeightOf(node.left) - HeightOf(node.right);
  }

  /** The end of insert(): a node one of whose subtrees has grown too high is turned. */
  method Rebalance(node: TreeNode, repaired: bool) returns (ret: TreeNode)
    requires node.Valid() && Positive(node.tree)
    modifies node.Repr
    ensures ret.Valid() && ret.tree == Rebalanced(old(node.tree), repaired) && ret.Repr <= old(node.Repr)
  {
    hide TreeNode.Valid, Positive, PidTree.RotateLeft, PidTree.RotateRight;
    ret := node;
    Open(node);
    var b := BalanceFactor(node);
    if b > 1 {
      Open(node.left);
      var lb := BalanceFactor(node.left);
      if lb < 0 {
        node.left := RotateLeft(node.left);
        Relink(node);
      }
      ret := RotateRight(node, repaired);
    } else if b < -1 {
      Open(node.right);
      var rb := BalanceFactor(node.right);
      if rb > 0 {
        node.right := RotateRight(node.right, repaired);
        Relink(node);
      }
      ret := RotateLeft(node);
    }
  }

  /** insert() */
  method InsertNode(node: TreeNode?, pid: nat, pcbIndex: nat, repaired: bool) returns (ret: TreeNode)
    requires ValidOf(node) && Positive(TreeOf(node))
    modifies ReprOf(node)
    ensures ret.Valid() && ret.tree == PidTree.Insert(old(TreeOf(node)), pid, pcbIndex, repaired)
    ensures fresh(ret.Repr - old(ReprOf(node)))
    decreases ReprOf(node)
  {
    hide TreeNode.Valid;
    if node != null {
      Open(node);
    }
    if node == null {
      ret := new TreeNode(pid, pcbIndex);
    } else if pid > node.pid {
      node.right := InsertNode(node.right, pid, pcbIndex, repaired);
      UpdateHeight(node);
      ret := Rebalance(node, repaired);
    } else if pid < node.pid {
      node.left := InsertNode(node.left, pid, pcbIndex, repaired);
      UpdateHeight(node);
      ret := Rebalance(node, repaired);
    } else {
      node.pcbIndex := pcbIndex;
      Relink(node);
      ret := node;
    }
  }

  /** lookup() */
  method FindNode(node: TreeNode?, pid: nat) returns (found: Option<nat>)
    requires ValidOf(node)
    ensures found == PidTree.Lookup(TreeOf(node), pid)
    decreases ReprOf(node)
  {
    if node == null {
      found := None;
    } else if node.pid == pid {
      found := Some(node.pcbIndex);
    } else if pid > node.pid {
      found := FindNode(node.right, pid);
    } else {
      found := FindNode(node.left, pid);
    }
  }

  /** predecessor() */
  method Predecessor(node: TreeNode) returns (pred: TreeNode)
    requires node.Valid() && node.left != null
    ensures pred.pid == Last(node.left.tree).pid && pred.pcbIndex == Last(node.left.tree).index
  {
    pred := node.left;
    while pred.right != null
      invariant pred.Valid() && pred in node.left.Repr && pred.Repr <= node.left.Repr
      invariant Last(pred.tree) == Last(node.left.tree)
      decreases pred.Repr
    {
      pred := pred.right;
    }
  }

  /** delete() */
  method DeleteNode(node: TreeNode?, pid: nat) returns (ret: TreeNode?)
    requires ValidOf(node)
    modifies ReprOf(node)
    ensures ValidOf(ret) && TreeOf(ret) == PidTree.Delete(old(TreeOf(node)), pid)
    ensures ReprOf(ret) <= old(ReprOf(node))
    decreases ReprOf(node)
  {
    hide TreeNode.Valid;
    if node != null {
      Open(node);
    }
    if node == null {
      ret := null;
    } else if node.pid == pid {
      if node.left != null && node.right != null {
        var pred := Predecessor(node);
        node.pid := pred.pid;
        node.pcbIndex := pred.pcbIndex;
        node.left := DeleteNode(node.left, pred.pid);
        Relink(node);
        ret := node;
      } else {
        ret := if node.left != null then node.left else node.right;
      }
    } else if pid > node.pid {
      node.right := DeleteNode(node.right, pid);
      Relink(node);
      ret := node;
    } else {
      node.left := DeleteNode(node.left, pid);
      Relink(node);
      ret := node;
    }
  }

  /** pidMap and the routines the rest of the kernel calls. */
  class PidMap {
    var root: TreeNode?

    ghost predicate Valid()
      reads this, root, ReprOf(root)
    {
      this !in ReprOf(root) && ValidOf(root) && Positive(TreeOf(root)) && Ordered(TreeOf(root))
    }

    ghost function Contents(): map<nat, nat>
      reads this, root
    {
      Map(TreeOf(root))
    }

    constructor ()
      ensures Valid() && Contents() == map[] && root == null
    {
      root := null;
    }

    /** pidMapInsert() with the rotation repaired. */
    method Bind(pid: nat, pcbIndex: nat)
      requires Valid()
      modifies this, ReprOf(root)
      ensures Valid() && Contents() == old(Contents())[pid := pcbIndex]
      ensures fresh(ReprOf(root) - old(ReprOf(root)))
    {
      InsertMaps(TreeOf(root), pid, pcbIndex);
      root := InsertNode(root, pid, pcbIndex, true);
    }

    /** pidMapDelete() */
    method Drop(pid: nat)
      requires Valid()
      modifies this, ReprOf(root)
      ensures Valid() && Contents() == old(Contents()) - {pid}
      ensures ReprOf(root) <= old(ReprOf(root))
    {
      DeleteMaps(TreeOf(root), pid);
      root := DeleteNode(root, pid);
    }

    /** pidMapLookup() */
    method Find(pid: nat) returns (found: Option<nat>)
      requires Valid()
      ensures found == if pid in Contents() then Some(Contents()[pid]) else None
    {
      LookupMaps(TreeOf(root), pid);
      found := FindNode(root, pid);
    }
  }
}
