/**
 What the repair of the right rotation is worth: insertions in any order keep the tree
 balanced, and so its height logarithmic.
 */
module PidBalance {
  import opened Basics
  import opened Bits
  import opened PidTree

  /** A left subtree two higher than the right one is mended by one rotation or two. */
  lemma MendLeft(left: Tree, pid: nat, index: nat, right: Tree)
    requires Avl(left) && Avl(right) && Positive(left) && Positive(right)
    requires left.Node? && Balance(left) != 0 && Height(left) == Height(right) + 2
    ensures var r := Rebalanced(Updated(left, pid, index, right), true);
      Avl(r) && Height(r) == Height(left)
  {
    if Balance(left) == 1 {
      assert Avl(Updated(left.right, pid, index, right));
    } else {
      var mid := left.right;
      assert Avl(Updated(left.left, left.pid, left.index, mid.left));
      assert Avl(Updated(mid.right, pid, index, right));
    }
  }

  lemma MendRight(left: Tree, pid: nat, index: nat, right: Tree)
    requires Avl(left) && Avl(right) && Positive(left) && Positive(right)
    requires right.Node? && Balance(right) != 0 && Height(right) == Height(left) + 2
    ensures var r := Rebalanced(Updated(left, pid, index, right), true);
      Avl(r) && Height(r) == Height(right)
  {
    if Balance(right) == -1 {
      assert Avl(Updated(left, pid, index, right.left));
    } else {
      var mid := right.left;
      assert Avl(Updated(mid.right, right.pid, right.index, right.right));
      assert Avl(Updated(left, pid, index, mid.left));
    }
  }

  /** At most one higher, and then leaning to one side. */
  predicate Grown(t: Tree, r: Tree) {
    && r.Node? && Height(t) <= Height(r) <= Height(t) + 1
    && (t.Node? && Height(r) > Height(t) ==> Balance(r) != 0)
  }

  lemma GrownRight(t: Tree, right: Tree)
    requires t.Node? && Avl(t) && Positive(t) && Avl(right) && Positive(right) && Grown(t.right, right)
    ensures var r := Rebalanced(Updated(t.left, t.pid, t.index, right), true); Avl(r) && Grown(t, r)
  {
    if Height(right) == Height(t.left) + 2 {
      MendRight(t.left, t.pid, t.index, right);
    }
  }

  lemma GrownLeft(t: Tree, left: Tree)
    requires t.Node? && Avl(t) && Positive(t) && Avl(left) && Positive(left) && Grown(t.left, left)
    ensures var r := Rebalanced(Updated(left, t.pid, t.index, t.right), true); Avl(r) && Grown(t, r)
  {
    if Height(left) == Height(t.right) + 2 {
      MendLeft(left, t.pid, t.index, t.right);
    }
  }

  /** With the repair an insertion keeps stored heights exact and all balances within 1. */
  lemma {:induction false} InsertKeepsAvl(t: Tree, pid: nat, index: nat)
    requires Avl(t) && Positive(t)
    ensures var r := Insert(t, pid, index, true); Avl(r) && Grown(t, r)
  {
    hide Rebalanced;
    if t.Node? {
      if pid > t.pid {
        InsertKeepsAvl(t.right, pid, index);
        GrownRight(t, Insert(t.right, pid, index, true));
      } else if pid < t.pid {
        InsertKeepsAvl(t.left, pid, index);
        GrownLeft(t, Insert(t.left, pid, index, true));
      }
    }
  }

  /** The tree after inserting pids one after the other. */
  function Inserted(t: Tree, pids: seq<nat>): (r: Tree)
    requires Positive(t)
    ensures Positive(r)
    decreases |pids|
  {
    if pids == [] then t else Inserted(Insert(t, pids[0], 0, true), pids[1..])
  }

  lemma {:induction false} InsertedAvl(t: Tree, pids: seq<nat>)
    requires Avl(t) && Positive(t)
    ensures Avl(Inserted(t, pids))
    decreases |pids|
  {
    hide Avl, Positive;
    if pids != [] {
      InsertKeepsAvl(t, pids[0], 0);
      InsertedAvl(Insert(t, pids[0], 0, true), pids[1..]);
    }
  }

  lemma {:induction false} InsertedKeys(t: Tree, pids: seq<nat>)
    requires Positive(t) && Ordered(t)
    ensures Ordered(Inserted(t, pids)) && Keys(Inserted(t, pids)) == Keys(t) + Elements(pids)
    decreases |pids|
  {
    hide Ordered, Positive, Insert, Keys, Map;
    if pids != [] {
      var r := Insert(t, pids[0], 0, true);
      InsertMaps(t, pids[0], 0);
      MapKeys(t);
      MapKeys(r);
      assert Keys(r) == Keys(t) + {pids[0]};
      InsertedKeys(r, pids[1..]);
    }
  }

  /** So pids in any order keep the height logarithmic in their number. */
  lemma AnyOrderHeight(pids: seq<nat>)
    ensures Pow2(Height(Inserted(Leaf, pids)) / 2) <= |Elements(pids)| + 1
  {
    var r := Inserted(Leaf, pids);
    InsertedAvl(Leaf, pids);
    InsertedKeys(Leaf, pids);
    HeightBound(r);
    SizeIsKeys(r);
    assert {} + Elements(pids) == Elements(pids);
  }
}
