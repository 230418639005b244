/**
 A run the kernel can make: pids are handed out in increasing order, and the processes
 holding the last ones end. The stale heights that deleting leaves behind then bring the
 next insertion to the rotation to the right, which as written loses two processes.
 */
module PidLoss {
  import opened Basics
  import opened PidTree

  function Join(left: Tree, pid: nat, right: Tree): Tree {
    Updated(left, pid, 0, right)
  }

  function One(p: nat): Tree {
    Join(Leaf, p, Leaf)
  }

  function Two(p: nat): Tree {
    Join(Leaf, p, One(p + 1))
  }

  function Three(p: nat): Tree {
    Join(One(p), p + 1, One(p + 2))
  }

  function Six(p: nat): Tree {
    Join(Three(p), p + 3, Two(p + 4))
  }

  function Seven(p: nat): Tree {
    Join(Three(p), p + 3, Three(p + 4))
  }

  function Twelve(p: nat): Tree {
    Join(Seven(p), p + 7, Join(One(p + 8), p + 9, Two(p + 10)))
  }

  /** Inserting below the right child, with no rotation or one to the left. */
  lemma Onto(left: Tree, p: nat, right: Tree, pid: nat)
    requires Positive(left) && Positive(right) && p < pid && Height(right) <= Height(left) + 1
    ensures Positive(Join(left, p, right))
    ensures var r := Insert(right, pid, 0, false);
      && (Height(left) <= Height(r) + 1 && Height(r) <= Height(left) + 1 ==>
            Insert(Join(left, p, right), pid, 0, false) == Join(left, p, r))
      && (Height(r) == Height(left) + 2 && Balance(r) <= 0 && r.right.Node? ==>
            Insert(Join(left, p, right), pid, 0, false) ==
            RotateLeft(Join(left, p, r)))
  {
  }

  lemma Small(p: nat)
    ensures Insert(Leaf, p, 0, false) == One(p)
    ensures Insert(One(p), p + 1, 0, false) == Two(p)
    ensures Insert(Two(p), p + 2, 0, false) == Three(p)
    ensures Insert(Three(p), p + 3, 0, false) == Join(One(p), p + 1, Two(p + 2))
  {
    hide Insert;
    assert Insert(Leaf, p, 0, false) == One(p) && Insert(Leaf, p + 1, 0, false) == One(p + 1) &&
           Insert(Leaf, p + 2, 0, false) == One(p + 2) && Insert(Leaf, p + 3, 0, false) == One(p + 3) by {
      Empty(p);
      Empty(p + 1);
      Empty(p + 2);
      Empty(p + 3);
    }
    Onto(Leaf, p, Leaf, p + 1);
    Onto(Leaf, p + 1, Leaf, p + 2);
    Onto(Leaf, p + 2, Leaf, p + 3);
    Onto(Leaf, p, One(p + 1), p + 2);
    Onto(One(p), p + 1, One(p + 2), p + 3);
  }

  lemma Empty(p: nat)
    ensures Insert(Leaf, p, 0, false) == One(p)
  {
  }

  lemma Middle(p: nat)
    ensures Insert(Join(One(p), p + 1, Two(p + 2)), p + 4, 0, false) == Join(One(p), p + 1, Three(p + 2))
    ensures Insert(Join(One(p), p + 1, Three(p + 2)), p + 5, 0, false) == Six(p)
    ensures Insert(Six(p), p + 6, 0, false) == Seven(p)
  {
    hide Insert;
    assert Insert(Join(One(p), p + 1, Two(p + 2)), p + 4, 0, false) == Join(One(p), p + 1, Three(p + 2)) by {
      Small(p + 2);
      Onto(One(p), p + 1, Two(p + 2), p + 4);
    }
    assert Insert(Join(One(p), p + 1, Three(p + 2)), p + 5, 0, false) == Six(p) by {
      Small(p + 2);
      Onto(One(p), p + 1, Three(p + 2), p + 5);
    }
    assert Insert(Six(p), p + 6, 0, false) == Seven(p) by {
      Small(p + 4);
      Onto(Three(p), p + 3, Two(p + 4), p + 6);
    }
  }

  lemma Large(p: nat)
    ensures Insert(Seven(p), p + 7, 0, false) == Join(Three(p), p + 3, Join(One(p + 4), p + 5, Two(p + 6)))
    ensures Insert(Join(Three(p), p + 3, Join(One(p + 4), p + 5, Two(p + 6))), p + 8, 0, false)
      == Join(Three(p), p + 3, Join(One(p + 4), p + 5, Three(p + 6)))
    ensures Insert(Join(Three(p), p + 3, Join(One(p + 4), p + 5, Three(p + 6))), p + 9, 0, false)
      == Join(Three(p), p + 3, Six(p + 4))
    ensures Insert(Join(Three(p), p + 3, Six(p + 4)), p + 10, 0, false) == Join(Three(p), p + 3, Seven(p + 4))
  {
    hide Insert;
    Small(p + 4);
    Middle(p + 4);
    Onto(Three(p), p + 3, Three(p + 4), p + 7);
    Onto(Three(p), p + 3, Join(One(p + 4), p + 5, Two(p + 6)), p + 8);
    Onto(Three(p), p + 3, Join(One(p + 4), p + 5, Three(p + 6)), p + 9);
    Onto(Three(p), p + 3, Six(p + 4), p + 10);
  }

  lemma Last12(p: nat)
    ensures Insert(Join(Three(p), p + 3, Seven(p + 4)), p + 11, 0, false) == Twelve(p)
  {
    hide Insert, One, Two, Three, Six, Seven, Twelve, Join, RotateLeft, Positive;
    Large(p + 4);
    Heights12(p);
    Onto(Three(p), p + 3, Seven(p + 4), p + 11);
  }

  lemma Heights12(p: nat)
    ensures var r := Join(Three(p + 4), p + 7, Join(One(p + 8), p + 9, Two(p + 10)));
      && Positive(Three(p)) && Positive(Seven(p + 4)) && Height(Seven(p + 4)) == 3 && Height(Three(p)) == 2
      && Height(r) == 4 && Balance(r) <= 0 && r.right.Node?
      && RotateLeft(Join(Three(p), p + 3, r)) == Twelve(p)
  {
  }

  /** 1, 2, ..., count */
  function Upto(count: nat): seq<nat> {
    if count == 0 then [] else Upto(count - 1) + [count]
  }

  lemma InsertMore(t: Tree, pids: seq<nat>, pid: nat)
    requires Positive(t)
    ensures InsertAll(t, pids + [pid]) == Insert(InsertAll(t, pids), pid, 0, false)
    decreases |pids|
  {
    if pids == [] {
      assert pids + [pid] == [pid];
      assert InsertAll(Insert(t, pid, 0, false), []) == Insert(t, pid, 0, false);
    } else {
      assert (pids + [pid])[1..] == pids[1..] + [pid];
      InsertMore(Insert(t, pids[0], 0, false), pids[1..], pid);
    }
  }

  lemma NextOf(count: nat)
    ensures InsertAll(Leaf, Upto(count + 1)) == Insert(InsertAll(Leaf, Upto(count)), count + 1, 0, false)
  {
    InsertMore(Leaf, Upto(count), count + 1);
  }

  lemma SevenOf()
    ensures InsertAll(Leaf, Upto(7)) == Seven(1)
  {
    hide *;
    Nothing();
    NextOf(0);
    NextOf(1);
    NextOf(2);
    NextOf(3);
    Small(1);
    NextOf(4);
    NextOf(5);
    NextOf(6);
    Middle(1);
  }

  lemma TwelveOf()
    ensures InsertAll(Leaf, Upto(12)) == Twelve(1)
  {
    hide *;
    SevenOf();
    NextOf(7);
    NextOf(8);
    NextOf(9);
    NextOf(10);
    Large(1);
    NextOf(11);
    Last12(1);
  }

  lemma Nothing()
    ensures InsertAll(Leaf, Upto(0)) == Leaf
  {
  }

  /** What deleting 12, 11, 10 and 9 leaves: the left subtree under a node that keeps its height. */
  function Thinned(): Tree {
    Node(Seven(1), 8, 0, Leaf, 4)
  }

  lemma DeleteRight(t: Tree, pid: nat)
    requires t.Node? && pid > t.pid
    ensures Delete(t, pid) == t.(right := Delete(t.right, pid))
  {
  }

  lemma ThinnedOf()
    ensures Delete(Delete(Delete(Delete(Twelve(1), 12), 11), 10), 9) == Thinned()
  {
    var right := Join(One(9), 10, Two(11));
    var right12 := right.(right := Two(11).(right := Leaf));
    DeleteRight(Twelve(1), 12);
    assert Delete(right, 12) == right12;
    var t12 := Twelve(1).(right := right12);
    var right11 := right.(right := Leaf);
    DeleteRight(t12, 11);
    assert Delete(right12, 11) == right11;
    var t11 := t12.(right := right11);
    DeleteRight(t11, 10);
    assert Delete(right11, 10) == One(9);
    DeleteRight(t11.(right := One(9)), 9);
  }

  lemma ThinnedTurns()
    ensures Positive(Thinned()) && Insert(Thinned(), 13, 0, false) == Seven(1)
  {
    hide Insert, Seven, Three, One;
    Shape(1);
    Empty(13);
    assert Insert(Thinned(), 13, 0, false) == Rebalanced(Join(Seven(1), 8, One(13)), false) by {
      AtRight(Thinned(), 13);
    }
    OneShape(13);
  }

  lemma AtRight(t: Tree, pid: nat)
    requires t.Node? && Positive(t) && pid > t.pid
    ensures Insert(t, pid, 0, false) ==
      Rebalanced(Updated(t.left, t.pid, t.index, Insert(t.right, pid, 0, false)), false)
  {
  }

  lemma OneShape(p: nat)
    ensures Height(One(p)) == 1
  {
  }

  lemma Shape(p: nat)
    ensures Height(Seven(p)) == 3 && Positive(Seven(p)) && Seven(p).Node? && Balance(Seven(p)) == 0
    ensures var s := Seven(p); s == Updated(s.left, s.pid, s.index, s.right)
  {
  }

  lemma Missing(p: nat)
    requires p > 7
    ensures Lookup(Seven(1), p) == None
  {
    assert Lookup(One(7), p) == None;
    assert Lookup(Three(5), p) == None;
  }

  /**
   Twelve pids in order, the last four deleted again, one more inserted: as written both a
   pid that was bound before and the new one are gone.
   */
  lemma LivePidsLost()
    ensures var t := InsertAll(Leaf, Upto(12));
      var d := Delete(Delete(Delete(Delete(t, 12), 11), 10), 9);
      && Positive(d) && Lookup(d, 8) == Some(0)
      && Lookup(Insert(d, 13, 0, false), 8) == None && Lookup(Insert(d, 13, 0, false), 13) == None
  {
    hide Insert, Delete, Seven, Twelve, Upto;
    TwelveOf();
    ThinnedOf();
    ThinnedTurns();
    Missing(8);
    Missing(13);
  }
}
