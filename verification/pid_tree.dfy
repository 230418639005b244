/**
 The AVL tree from pids to process table entries (c/disp.c) as values. `repaired` tells
 rotateRight as it must be from rotateRight as it is written, which drops a subtree.
 */
module PidTree {
  import opened Basics
  import opened Bits

  datatype Tree = Leaf | Node(left: Tree, pid: nat, index: nat, right: Tree, height: nat)

  function Height(t: Tree): nat {
    if t.Leaf? then 0 else t.height
  }

  /** updateHeight */
  function Updated(left: Tree, pid: nat, index: nat, right: Tree): (r: Tree)
    ensures Positive(left) && Positive(right) ==> Positive(r)
  {
    Node(left, pid, index, right, Max(Height(left), Height(right)) + 1)
  }

  /** balanceFactor */
  function Balance(t: Tree): int
    requires t.Node?
  {
    Height(t.left) - Height(t.right)
  }

  function RotateLeft(t: Tree): (r: Tree)
    requires t.Node? && t.right.Node?
    ensures r.Node? && (Positive(t) ==> Positive(r))
  {
    var ret := t.right;
    assert Positive(t) ==> Positive(ret);
    Updated(Updated(t.left, t.pid, t.index, ret.left), ret.pid, ret.index, ret.right)
  }

  /** As written, nothing makes the old root a child of the new one. */
  function RotateRight(t: Tree, repaired: bool): (r: Tree)
    requires t.Node? && t.left.Node?
    ensures r.Node? && (Positive(t) ==> Positive(r))
  {
    var ret := t.left;
    assert Positive(t) ==> Positive(ret);
    Updated(ret.left, ret.pid, ret.index, if repaired then Updated(ret.right, t.pid, t.index, t.right) else ret.right)
  }

  /** Every stored height is at least 1: enough for the rotations to find the nodes they turn. */
  predicate Positive(t: Tree) {
    t.Leaf? || (t.height >= 1 && Positive(t.left) && Positive(t.right))
  }

  function Rebalanced(t: Tree, repaired: bool): (r: Tree)
    requires t.Node? && Positive(t)
    ensures Positive(r) && r.Node?
  {
    if Balance(t) > 1 then
      var left := if Balance(t.left) < 0 then RotateLeft(t.left) else t.left;
      RotateRight(t.(left := left), repaired)
    else if Balance(t) < -1 then
      var right := if Balance(t.right) > 0 then RotateRight(t.right, repaired) else t.right;
      RotateLeft(t.(right := right))
    else t
  }

  function Insert(t: Tree, pid: nat, index: nat, repaired: bool): (r: Tree)
    requires Positive(t)
    ensures Positive(r) && r.Node?
  {
    if t.Leaf? then Node(Leaf, pid, index, Leaf, 1)
    else if pid > t.pid then
      Rebalanced(Updated(t.left, t.pid, t.index, Insert(t.right, pid, index, repaired)), repaired)
    else if pid < t.pid then
      Rebalanced(Updated(Insert(t.left, pid, index, repaired), t.pid, t.index, t.right), repaired)
    else t.(index := index)
  }

  function Lookup(t: Tree, pid: nat): Option<nat> {
    if t.Leaf? then None
    else if t.pid == pid then Some(t.index)
    else if pid > t.pid then Lookup(t.right, pid)
    else Lookup(t.left, pid)
  }

  /** The rightmost node. */
  function Last(t: Tree): (r: Tree)
    requires t.Node?
    ensures r.Node?
  {
    if t.right.Leaf? then t else Last(t.right)
  }

  /** Heights are not updated. */
  function Delete(t: Tree, pid: nat): Tree {
    if t.Leaf? then Leaf
    else if t.pid == pid then
      if t.left.Node? && t.right.Node? then
        var pred := Last(t.left);
        t.(pid := pred.pid, index := pred.index, left := Delete(t.left, pred.pid))
      else if t.left.Node? then t.left else t.right
    else if pid > t.pid then t.(right := Delete(t.right, pid))
    else t.(left := Delete(t.left, pid))
  }

  // ------------------------------------------------------------------
  // The map the tree stands for

  function Keys(t: Tree): set<nat> {
    if t.Leaf? then {} else Keys(t.left) + {t.pid} + Keys(t.right)
  }

  function Map(t: Tree): map<nat, nat> {
    if t.Leaf? then map[] else Map(t.left) + Map(t.right) + map[t.pid := t.index]
  }

  ghost predicate Ordered(t: Tree) {
    t.Leaf? || (
      && Ordered(t.left) && Ordered(t.right)
      && (forall k :: k in Keys(t.left) ==> k < t.pid) && (forall k :: k in Keys(t.right) ==> t.pid < k))
  }

  lemma {:induction false} MapKeys(t: Tree)
    ensures Map(t).Keys == Keys(t)
  {
    if t.Node? {
      MapKeys(t.left);
      MapKeys(t.right);
    }
  }

  /** Between two keys that enclose it. */
  ghost predicate Between(t: Tree, lo: int, hi: int) {
    forall k :: k in Keys(t) ==> lo < k < hi
  }

  /** Three subtrees with two keys between them, in order. */
  ghost predicate InOrder(a: Tree, p: nat, b: Tree, q: nat, c: Tree) {
    && p < q && Ordered(a) && Ordered(b) && Ordered(c)
    && (forall k :: k in Keys(a) ==> k < p) && Between(b, p, q) && (forall k :: k in Keys(c) ==> q < k)
  }

  lemma LeftOrder(a: Tree, p: nat, i: nat, b: Tree, q: nat, j: nat, c: Tree, h1: nat, h2: nat)
    ensures Ordered(Node(Node(a, p, i, b, h1), q, j, c, h2)) <==> InOrder(a, p, b, q, c)
  {
    var l := Node(a, p, i, b, h1);
    assert Keys(l) == Keys(a) + {p} + Keys(b);
    if Ordered(Node(l, q, j, c, h2)) {
      assert p in Keys(l);
      assert forall k :: k in Keys(b) ==> k in Keys(l);
    }
  }

  lemma RightOrder(a: Tree, p: nat, i: nat, b: Tree, q: nat, j: nat, c: Tree, h1: nat, h2: nat)
    ensures Ordered(Node(a, p, i, Node(b, q, j, c, h1), h2)) <==> InOrder(a, p, b, q, c)
  {
    var r := Node(b, q, j, c, h1);
    assert Keys(r) == Keys(b) + {q} + Keys(c);
    if Ordered(Node(a, p, i, r, h2)) {
      assert q in Keys(r);
      assert forall k :: k in Keys(b) ==> k in Keys(r);
    }
  }

  lemma SameMap(a: Tree, p: nat, i: nat, b: Tree, q: nat, j: nat, c: Tree, h1: nat, h2: nat, h3: nat, h4: nat)
    requires InOrder(a, p, b, q, c)
    ensures Map(Node(Node(a, p, i, b, h1), q, j, c, h2)) == Map(Node(a, p, i, Node(b, q, j, c, h3), h4))
  {
    MapKeys(a);
    MapKeys(b);
    MapKeys(c);
    hide Map, Keys;
    SameUnion(Map(a), p, i, Map(b), q, j, Map(c));
    MapOf(a, p, i, b, q, j, c, h1, h2, h3, h4);
  }

  lemma SameUnion(a: map<nat, nat>, p: nat, i: nat, b: map<nat, nat>, q: nat, j: nat, c: map<nat, nat>)
    requires p < q && p !in a && p !in b && p !in c && q !in a && q !in b && q !in c
    requires forall k :: k in a ==> k !in b && k !in c
    requires forall k :: k in b ==> k !in c
    ensures a + b + map[p := i] + c + map[q := j] == a + (b + c + map[q := j]) + map[p := i]
  {
  }

  lemma MapOf(a: Tree, p: nat, i: nat, b: Tree, q: nat, j: nat, c: Tree, h1: nat, h2: nat, h3: nat, h4: nat)
    ensures Map(Node(Node(a, p, i, b, h1), q, j, c, h2)) == Map(a) + Map(b) + map[p := i] + Map(c) + map[q := j]
    ensures Map(Node(a, p, i, Node(b, q, j, c, h3), h4)) == Map(a) + (Map(b) + Map(c) + map[q := j]) + map[p := i]
  {
  }

  /** A rotation to the left keeps order and contents. */
  lemma RotateLeftKeeps(t: Tree)
    requires t.Node? && t.right.Node? && Ordered(t)
    ensures Ordered(RotateLeft(t)) && Map(RotateLeft(t)) == Map(t)
  {
    var (a, b, c) := (t.left, t.right.left, t.right.right);
    var r := RotateLeft(t);
    RightOrder(a, t.pid, t.index, b, t.right.pid, t.right.index, c, t.right.height, t.height);
    LeftOrder(a, t.pid, t.index, b, t.right.pid, t.right.index, c, r.left.height, r.height);
    SameMap(a, t.pid, t.index, b, t.right.pid, t.right.index, c, r.left.height, r.height, t.right.height, t.height);
  }

  /** The repaired rotation to the right keeps order and contents. */
  lemma RotateRightKeeps(t: Tree)
    requires t.Node? && t.left.Node? && Ordered(t)
    ensures Ordered(RotateRight(t, true)) && Map(RotateRight(t, true)) == Map(t)
  {
    var (a, b, c) := (t.left.left, t.left.right, t.right);
    var r := RotateRight(t, true);
    LeftOrder(a, t.left.pid, t.left.index, b, t.pid, t.index, c, t.left.height, t.height);
    RightOrder(a, t.left.pid, t.left.index, b, t.pid, t.index, c, r.right.height, r.height);
    SameMap(a, t.left.pid, t.left.index, b, t.pid, t.index, c, t.left.height, t.height, r.right.height, r.height);
  }

  /** Exchanging a subtree for one with the same contents. */
  lemma SubtreeLeft(t: Tree, left: Tree)
    requires t.Node? && Ordered(t) && Ordered(left) && Map(left) == Map(t.left)
    ensures Ordered(t.(left := left)) && Map(t.(left := left)) == Map(t)
  {
    MapKeys(left);
    MapKeys(t.left);
  }

  lemma SubtreeRight(t: Tree, right: Tree)
    requires t.Node? && Ordered(t) && Ordered(right) && Map(right) == Map(t.right)
    ensures Ordered(t.(right := right)) && Map(t.(right := right)) == Map(t)
  {
    MapKeys(right);
    MapKeys(t.right);
  }

  lemma RebalancedKeeps(t: Tree)
    requires t.Node? && Positive(t) && Ordered(t)
    ensures Ordered(Rebalanced(t, true)) && Map(Rebalanced(t, true)) == Map(t)
  {
    hide Ordered, Map, RotateLeft, RotateRight;
    OrderedParts(t);
    if Balance(t) > 1 {
      var left := t.left;
      if Balance(t.left) < 0 {
        RotateLeftKeeps(t.left);
        left := RotateLeft(t.left);
      }
      SubtreeLeft(t, left);
      RotateRightKeeps(t.(left := left));
    } else if Balance(t) < -1 {
      var right := t.right;
      if Balance(t.right) > 0 {
        RotateRightKeeps(t.right);
        right := RotateRight(t.right, true);
      }
      SubtreeRight(t, right);
      RotateLeftKeeps(t.(right := right));
    }
  }

  lemma OrderedParts(t: Tree)
    requires t.Node? && Ordered(t)
    ensures Ordered(t.left) && Ordered(t.right)
  {
  }

  type Binding = map<nat, nat>

  lemma BindRight(l: Binding, r: Binding, k: nat, i: nat, pid: nat, index: nat)
    requires pid != k
    ensures l + r[pid := index] + map[k := i] == (l + r + map[k := i])[pid := index]
  {
  }

  lemma BindLeft(l: Binding, r: Binding, k: nat, i: nat, pid: nat, index: nat)
    requires pid != k && pid !in r
    ensures l[pid := index] + r + map[k := i] == (l + r + map[k := i])[pid := index]
  {
  }

  lemma DropRight(l: Binding, r: Binding, k: nat, i: nat, pid: nat)
    requires pid != k && pid !in l
    ensures l + (r - {pid}) + map[k := i] == (l + r + map[k := i]) - {pid}
  {
  }

  lemma DropLeft(l: Binding, r: Binding, k: nat, i: nat, pid: nat)
    requires pid != k && pid !in r
    ensures (l - {pid}) + r + map[k := i] == (l + r + map[k := i]) - {pid}
  {
  }

  lemma DropRoot(l: Binding, r: Binding, k: nat, i: nat, p: nat)
    requires k !in l && k !in r && p in l && p !in r && p != k
    ensures (l - {p}) + r + map[p := l[p]] == (l + r + map[k := i]) - {k}
  {
  }

  /** Order and contents of a node, from those of its subtrees. */
  lemma NodeOf(t: Tree)
    requires t.Node?
    ensures Map(t) == Map(t.left) + Map(t.right) + map[t.pid := t.index]
    ensures Ordered(t) <==>
      && Ordered(t.left) && Ordered(t.right)
      && (forall k :: k in Map(t.left) ==> k < t.pid) && (forall k :: k in Map(t.right) ==> t.pid < k)
  {
    MapKeys(t.left);
    MapKeys(t.right);
  }

  /** Inserting binds the pid and changes nothing else, whatever the stored heights are. */
  lemma {:induction false} InsertMaps(t: Tree, pid: nat, index: nat)
    requires Positive(t) && Ordered(t)
    ensures Ordered(Insert(t, pid, index, true)) && Map(Insert(t, pid, index, true)) == Map(t)[pid := index]
  {
    if t.Leaf? {
      assert Map(t)[pid := index] == map[pid := index];
    } else if t.pid == pid {
      InsertHere(t, index);
    } else if pid > t.pid {
      OrderedParts(t);
      InsertMaps(t.right, pid, index);
      InsertRight(t, pid, index, Insert(t.right, pid, index, true));
    } else {
      OrderedParts(t);
      InsertMaps(t.left, pid, index);
      InsertLeft(t, pid, index, Insert(t.left, pid, index, true));
    }
  }

  lemma InsertHere(t: Tree, index: nat)
    requires t.Node? && Ordered(t)
    ensures Ordered(t.(index := index)) && Map(t.(index := index)) == Map(t)[t.pid := index]
  {
    NodeOf(t);
    NodeOf(t.(index := index));
    hide Ordered, Map, Keys;
  }

  lemma InsertRight(t: Tree, pid: nat, index: nat, right: Tree)
    requires t.Node? && Positive(t) && Ordered(t) && pid > t.pid && Positive(right)
    requires Ordered(right) && Map(right) == Map(t.right)[pid := index]
    ensures var r := Rebalanced(Updated(t.left, t.pid, t.index, right), true);
      Ordered(r) && Map(r) == Map(t)[pid := index]
  {
    hide Rebalanced, Ordered, Map, Keys;
    var u := Updated(t.left, t.pid, t.index, right);
    NodeOf(t);
    NodeOf(u);
    BindRight(Map(t.left), Map(t.right), t.pid, t.index, pid, index);
    RebalancedKeeps(u);
  }

  lemma InsertLeft(t: Tree, pid: nat, index: nat, left: Tree)
    requires t.Node? && Positive(t) && Ordered(t) && pid < t.pid && Positive(left)
    requires Ordered(left) && Map(left) == Map(t.left)[pid := index]
    ensures var r := Rebalanced(Updated(left, t.pid, t.index, t.right), true);
      Ordered(r) && Map(r) == Map(t)[pid := index]
  {
    hide Rebalanced, Ordered, Map, Keys;
    var u := Updated(left, t.pid, t.index, t.right);
    NodeOf(t);
    NodeOf(u);
    BindLeft(Map(t.left), Map(t.right), t.pid, t.index, pid, index);
    RebalancedKeeps(u);
  }

  /** Looking up finds exactly what the map binds. */
  lemma {:induction false} LookupMaps(t: Tree, pid: nat)
    requires Ordered(t)
    ensures Lookup(t, pid) == if pid in Map(t) then Some(Map(t)[pid]) else None
  {
    if t.Node? {
      MapKeys(t.left);
      MapKeys(t.right);
      LookupMaps(t.left, pid);
      LookupMaps(t.right, pid);
    }
  }

  lemma {:induction false} LastIs(t: Tree)
    requires t.Node? && Ordered(t)
    ensures Last(t).pid in Map(t) && Map(t)[Last(t).pid] == Last(t).index
    ensures forall k :: k in Keys(t) ==> k <= Last(t).pid
  {
    MapKeys(t);
    if t.right.Node? {
      LastIs(t.right);
      MapKeys(t.left);
      MapKeys(t.right);
    }
  }

  /** Deleting removes the pid and changes nothing else. */
  lemma {:induction false} DeleteMaps(t: Tree, pid: nat)
    requires Ordered(t) && Positive(t)
    ensures Ordered(Delete(t, pid)) && Map(Delete(t, pid)) == Map(t) - {pid} && Positive(Delete(t, pid))
    decreases t, 1
  {
    if t.Node? {
      hide Ordered, Map, Keys;
      NodeOf(t);
      if t.pid == pid {
        DeleteRoot(t);
      } else if pid > t.pid {
        DeleteMaps(t.right, pid);
        NodeOf(t.(right := Delete(t.right, pid)));
        DropRight(Map(t.left), Map(t.right), t.pid, t.index, pid);
      } else {
        DeleteMaps(t.left, pid);
        NodeOf(t.(left := Delete(t.left, pid)));
        DropLeft(Map(t.left), Map(t.right), t.pid, t.index, pid);
      }
    }
  }

  lemma LeafMap()
    ensures Map(Leaf) == map[] && Ordered(Leaf)
  {
  }

  /** A node with two children takes over its predecessor; one with fewer gives way to its child. */
  lemma {:induction false} DeleteRoot(t: Tree)
    requires t.Node? && Ordered(t) && Positive(t)
    ensures Ordered(Delete(t, t.pid)) && Map(Delete(t, t.pid)) == Map(t) - {t.pid} && Positive(Delete(t, t.pid))
    decreases t, 0
  {
    hide Ordered, Map, Last, Keys;
    NodeOf(t);
    if t.left.Node? && t.right.Node? {
      var pred := Last(t.left);
      MapKeys(t.left);
      LastIs(t.left);
      DeleteMaps(t.left, pred.pid);
      var r := t.(pid := pred.pid, index := pred.index, left := Delete(t.left, pred.pid));
      assert Delete(t, t.pid) == r;
      hide Delete;
      NodeOf(r);
      DropRoot(Map(t.left), Map(t.right), t.pid, t.index, pred.pid);
    } else {
      LeafMap();
      assert Map(Delete(t, t.pid)) == Map(t) - {t.pid};
    }
  }

  // ------------------------------------------------------------------
  // Runs of inserts and deletes

  datatype Op = Bind(pid: nat, index: nat) | Drop(pid: nat)

  function Do(t: Tree, op: Op): (r: Tree)
    requires Positive(t) && Ordered(t)
    ensures Positive(r) && Ordered(r)
    ensures Map(r) == if op.Bind? then Map(t)[op.pid := op.index] else Map(t) - {op.pid}
  {
    match op
    case Bind(pid, index) =>
      InsertMaps(t, pid, index);
      Insert(t, pid, index, true)
    case Drop(pid) =>
      DeleteMaps(t, pid);
      Delete(t, pid)
  }

  function RunOps(t: Tree, ops: seq<Op>): (r: Tree)
    requires Positive(t) && Ordered(t)
    ensures Positive(r) && Ordered(r)
    decreases |ops|
  {
    if ops == [] then t else RunOps(Do(t, ops[0]), ops[1..])
  }

  /** The index a pid was last bound to, None if it was deleted since or never bound. */
  function LastBinding(ops: seq<Op>, pid: nat): Option<nat> {
    if ops == [] then None
    else
      var op := ops[|ops| - 1];
      if op.pid != pid then LastBinding(ops[..|ops| - 1], pid)
      else if op.Bind? then Some(op.index) else None
  }

  lemma {:induction false} RunSnoc(t: Tree, ops: seq<Op>, op: Op)
    requires Positive(t) && Ordered(t)
    ensures RunOps(t, ops + [op]) == Do(RunOps(t, ops), op)
    decreases |ops|
  {
    if ops == [] {
      assert ops + [op] == [op] && [op][1..] == [];
    } else {
      RunSnoc(Do(t, ops[0]), ops[1..], op);
      assert (ops + [op])[1..] == ops[1..] + [op];
    }
  }

  /** With the repaired rotation a lookup finds exactly the last binding of a pid. */
  lemma {:induction false} LookupFindsLast(ops: seq<Op>, pid: nat)
    ensures Lookup(RunOps(Leaf, ops), pid) == LastBinding(ops, pid)
    decreases |ops|
  {
    if ops != [] {
      var n := |ops| - 1;
      LookupFindsLast(ops[..n], pid);
      assert ops == ops[..n] + [ops[n]];
      RunSnoc(Leaf, ops[..n], ops[n]);
      var t := RunOps(Leaf, ops[..n]);
      LookupMaps(t, pid);
      LookupMaps(Do(t, ops[n]), pid);
    }
  }

  // ------------------------------------------------------------------
  // rotateRight as it is written

  /** Rebalancing comes to a rotation to the right. */
  predicate TurnsRight(u: Tree)
    requires u.Node? && Positive(u)
  {
    Balance(u) > 1 || (Balance(u) < -1 && Balance(u.right) > 0)
  }

  /** Inserting, as written, comes to a rotation to the right somewhere. */
  predicate NeedsRight(t: Tree, pid: nat, index: nat)
    requires Positive(t)
  {
    t.Node? && t.pid != pid && (
      if pid > t.pid then
        || NeedsRight(t.right, pid, index)
        || TurnsRight(Updated(t.left, t.pid, t.index, Insert(t.right, pid, index, false)))
      else
        || NeedsRight(t.left, pid, index)
        || TurnsRight(Updated(Insert(t.left, pid, index, false), t.pid, t.index, t.right)))
  }

  lemma {:induction false} SameWithoutTurns(t: Tree, pid: nat, index: nat)
    requires Positive(t) && !NeedsRight(t, pid, index)
    ensures Insert(t, pid, index, false) == Insert(t, pid, index, true)
  {
    if t.Node? && pid > t.pid {
      SameWithoutTurns(t.right, pid, index);
    } else if t.Node? && pid < t.pid {
      SameWithoutTurns(t.left, pid, index);
    }
  }

  /** The rotation as written keeps the order but drops the old root and its right subtree. */
  lemma RotateRightDrops(t: Tree)
    requires t.Node? && t.left.Node? && Ordered(t)
    ensures Ordered(RotateRight(t, false)) && Keys(RotateRight(t, false)) == Keys(t.left)
    ensures t.pid !in Keys(t.left)
  {
  }

  /** Rebalancing as written drops a key exactly when it turns right. */
  lemma RebalancedDrops(u: Tree) returns (lost: nat)
    requires u.Node? && Positive(u) && Ordered(u)
    ensures var r := Rebalanced(u, false);
      && Ordered(r) && Keys(r) <= Keys(u)
      && (TurnsRight(u) ==> lost in Keys(u) && lost !in Keys(r))
      && (!TurnsRight(u) ==> Keys(r) == Keys(u))
  {
    hide Ordered, Map, RotateLeft, RotateRight;
    NodeOf(u);
    MapKeys(u);
    MapKeys(u.left);
    MapKeys(u.right);
    lost := u.pid;
    if Balance(u) > 1 {
      var left := u.left;
      if Balance(u.left) < 0 {
        RotateLeftKeeps(u.left);
        left := RotateLeft(u.left);
        MapKeys(left);
      }
      SubtreeLeft(u, left);
      RotateRightDrops(u.(left := left));
    } else if Balance(u) < -1 {
      var right := u.right;
      if Balance(u.right) > 0 {
        lost := u.right.pid;
        RotateRightDrops(u.right);
        right := RotateRight(u.right, false);
        NodeOf(u.right);
        MapKeys(right);
      }
      NodeOf(u.(right := right));
      RotateLeftKeeps(u.(right := right));
      MapKeys(u.(right := right));
      MapKeys(RotateLeft(u.(right := right)));
    }
  }

  /** As written, inserting loses a key that was there or should be now, exactly when it comes to a right turn. */
  lemma {:induction false} WrittenLosesIff(t: Tree, pid: nat, index: nat) returns (lost: nat)
    requires Positive(t) && Ordered(t)
    ensures var r := Insert(t, pid, index, false);
      && Ordered(r) && Keys(r) <= Keys(t) + {pid}
      && (NeedsRight(t, pid, index) ==> lost in Keys(t) + {pid} && lost !in Keys(r) && Lookup(r, lost) == None)
      && (!NeedsRight(t, pid, index) ==> Map(r) == Map(t)[pid := index])
  {
    lost := pid;
    if NeedsRight(t, pid, index) {
      lost := WrittenLoses(t, pid, index);
    } else {
      SameWithoutTurns(t, pid, index);
      InsertMaps(t, pid, index);
      MapKeys(t);
    }
    MapKeys(Insert(t, pid, index, false));
    LookupMaps(Insert(t, pid, index, false), lost);
  }

  lemma {:induction false} WrittenLoses(t: Tree, pid: nat, index: nat) returns (lost: nat)
    requires Positive(t) && Ordered(t)
    ensures var r := Insert(t, pid, index, false);
      && Ordered(r) && Keys(r) <= Keys(t) + {pid}
      && (NeedsRight(t, pid, index) ==> lost in Keys(t) + {pid} && lost !in Keys(r))
  {
    hide Ordered, Map, Rebalanced;
    lost := pid;
    if t.Leaf? {
      LeafMap();
      NodeOf(Node(Leaf, pid, index, Leaf, 1));
    } else {
      NodeOf(t);
      MapKeys(t.left);
      MapKeys(t.right);
      if pid > t.pid {
        lost := WrittenLoses(t.right, pid, index);
        lost := RightLoses(t, pid, index, lost);
      } else if pid < t.pid {
        lost := WrittenLoses(t.left, pid, index);
        lost := LeftLoses(t, pid, index, lost);
      } else {
        NodeOf(t.(index := index));
      }
    }
  }

  /** What the subtree lost is lost, and so is what the turn at the root drops. */
  lemma RightLoses(t: Tree, pid: nat, index: nat, deep: nat) returns (lost: nat)
    requires t.Node? && Positive(t) && Ordered(t) && pid > t.pid
    requires var right := Insert(t.right, pid, index, false);
      && Ordered(right) && Keys(right) <= Keys(t.right) + {pid}
      && (NeedsRight(t.right, pid, index) ==> deep in Keys(t.right) + {pid} && deep !in Keys(right))
    ensures var r := Insert(t, pid, index, false);
      && Ordered(r) && Keys(r) <= Keys(t) + {pid}
      && (NeedsRight(t, pid, index) ==> lost in Keys(t) + {pid} && lost !in Keys(r))
  {
    hide Ordered, Map, Rebalanced;
    var right := Insert(t.right, pid, index, false);
    var u := Updated(t.left, t.pid, t.index, right);
    NodeOf(t);
    NodeOf(u);
    MapKeys(t.left);
    MapKeys(t.right);
    MapKeys(right);
    lost := RebalancedDrops(u);
    if NeedsRight(t.right, pid, index) {
      lost := deep;
    }
  }

  lemma LeftLoses(t: Tree, pid: nat, index: nat, deep: nat) returns (lost: nat)
    requires t.Node? && Positive(t) && Ordered(t) && pid < t.pid
    requires var left := Insert(t.left, pid, index, false);
      && Ordered(left) && Keys(left) <= Keys(t.left) + {pid}
      && (NeedsRight(t.left, pid, index) ==> deep in Keys(t.left) + {pid} && deep !in Keys(left))
    ensures var r := Insert(t, pid, index, false);
      && Ordered(r) && Keys(r) <= Keys(t) + {pid}
      && (NeedsRight(t, pid, index) ==> lost in Keys(t) + {pid} && lost !in Keys(r))
  {
    hide Ordered, Map, Rebalanced;
    var left := Insert(t.left, pid, index, false);
    var u := Updated(left, t.pid, t.index, t.right);
    NodeOf(t);
    NodeOf(u);
    MapKeys(t.left);
    MapKeys(t.right);
    MapKeys(left);
    lost := RebalancedDrops(u);
    if NeedsRight(t.left, pid, index) {
      lost := deep;
    }
  }

  // ------------------------------------------------------------------
  // Increasing pids

  /** Stored heights are the real ones, and no node's subtrees differ by more than one. */
  predicate Avl(t: Tree) {
    t.Leaf? || (
      && Avl(t.left) && Avl(t.right)
      && t.height == Max(Height(t.left), Height(t.right)) + 1 && -1 <= Balance(t) <= 1)
  }

  /** A single left rotation mends a node whose right subtree has become too high on its right. */
  lemma RotateMends(left: Tree, pid: nat, index: nat, right: Tree)
    requires Avl(left) && Avl(right) && right.Node? && Balance(right) == -1 && Height(right) == Height(left) + 2
    ensures var r := RotateLeft(Updated(left, pid, index, right));
      Avl(r) && Height(r) == Height(right)
  {
    assert Avl(Updated(left, pid, index, right.left));
  }

  /**
   As written, a pid above all others goes in without a right turn: the tree stays an AVL
   tree, and it grows only by becoming heavier on the right.
   */
  lemma {:induction false} InsertLargest(t: Tree, pid: nat, index: nat)
    requires Avl(t) && Positive(t) && forall k :: k in Keys(t) ==> k < pid
    ensures !NeedsRight(t, pid, index)
    ensures var r := Insert(t, pid, index, false);
      && Avl(r) && Height(t) <= Height(r) <= Height(t) + 1
      && (Height(r) > Height(t) ==> t.Leaf? || Balance(r) == -1)
  {
    if t.Node? {
      assert t.pid in Keys(t);
      assert forall k :: k in Keys(t.right) ==> k in Keys(t);
      InsertLargest(t.right, pid, index);
      LargestAtRoot(t, pid, index);
    }
  }

  lemma LargestAtRoot(t: Tree, pid: nat, index: nat)
    requires t.Node? && Avl(t) && Positive(t) && t.pid < pid && !NeedsRight(t.right, pid, index)
    requires var r := Insert(t.right, pid, index, false);
      && Avl(r) && Height(t.right) <= Height(r) <= Height(t.right) + 1
      && (Height(r) > Height(t.right) ==> t.right.Leaf? || Balance(r) == -1)
    ensures !NeedsRight(t, pid, index)
    ensures var r := Insert(t, pid, index, false);
      && Avl(r) && Height(t) <= Height(r) <= Height(t) + 1 && (Height(r) > Height(t) ==> Balance(r) == -1)
  {
    var right := Insert(t.right, pid, index, false);
    var u := Updated(t.left, t.pid, t.index, right);
    assert Insert(t, pid, index, false) == Rebalanced(u, false);
    hide Insert;
    if Balance(u) < -1 {
      RotateMends(t.left, t.pid, t.index, right);
    }
  }

  function InsertAll(t: Tree, pids: seq<nat>): (r: Tree)
    requires Positive(t)
    ensures Positive(r)
    decreases |pids|
  {
    if pids == [] then t else InsertAll(Insert(t, pids[0], 0, false), pids[1..])
  }

  function Size(t: Tree): nat {
    if t.Leaf? then 0 else Size(t.left) + 1 + Size(t.right)
  }

  /** An AVL tree of height h has at least 2^(h/2) - 1 nodes. */
  lemma {:induction false} HeightBound(t: Tree)
    requires Avl(t)
    ensures Pow2(Height(t) / 2) <= Size(t) + 1
    decreases t
  {
    if t.Node? {
      HeightBound(t.left);
      HeightBound(t.right);
      var h := t.height / 2;
      if t.height >= 2 {
        Pow2Monotone(h - 1, Height(t.left) / 2);
        Pow2Monotone(h - 1, Height(t.right) / 2);
        assert Pow2(h) == 2 * Pow2(h - 1);
      } else {
        assert Pow2(0) == 1;
      }
    }
  }

  lemma {:induction false} SizeIsKeys(t: Tree)
    requires Ordered(t)
    ensures Size(t) == |Keys(t)|
  {
    if t.Node? {
      SizeIsKeys(t.left);
      SizeIsKeys(t.right);
      assert |Keys(t.left) + {t.pid}| == |Keys(t.left)| + 1;
      assert Keys(t.left) + {t.pid} !! Keys(t.right);
    }
  }

  function Elements(pids: seq<nat>): set<nat> {
    if pids == [] then {} else {pids[0]} + Elements(pids[1..])
  }

  predicate Increasing(pids: seq<nat>) {
    |pids| > 1 ==> pids[0] < pids[1] && Increasing(pids[1..])
  }

  lemma IncreasingStep(t: Tree, pid: nat)
    requires Avl(t) && Positive(t) && Ordered(t) && forall k :: k in Keys(t) ==> k < pid
    ensures var r := Insert(t, pid, 0, false);
      && Avl(r) && Ordered(r) && Keys(r) == Keys(t) + {pid} && |Keys(r)| == |Keys(t)| + 1
      && (forall k :: k in Keys(r) ==> k <= pid)
  {
    hide Insert, Avl, Ordered, Keys, Map, Positive;
    var r := Insert(t, pid, 0, false);
    InsertLargest(t, pid, 0);
    SameWithoutTurns(t, pid, 0);
    InsertMaps(t, pid, 0);
    MapKeys(t);
    MapKeys(r);
    assert pid !in Keys(t);
  }

  /**
   As written, strictly increasing pids inserted into an AVL tree of smaller ones all
   stay bound, and the tree stays an AVL tree.
   */
  lemma {:induction false} IncreasingStaysAvl(t: Tree, pids: seq<nat>)
    requires Avl(t) && Positive(t) && Ordered(t) && Increasing(pids)
    requires pids != [] ==> forall k :: k in Keys(t) ==> k < pids[0]
    ensures Avl(InsertAll(t, pids)) && Ordered(InsertAll(t, pids))
    ensures Keys(InsertAll(t, pids)) == Keys(t) + Elements(pids)
    ensures |Keys(InsertAll(t, pids))| == |Keys(t)| + |pids|
    decreases |pids|
  {
    hide Insert, Avl, Ordered, Keys, Positive;
    if pids != [] {
      var rest := pids[1..];
      IncreasingStep(t, pids[0]);
      assert rest != [] ==> rest[0] == pids[1];
      IncreasingStaysAvl(Insert(t, pids[0], 0, false), rest);
      AddThree(Keys(t), pids[0], Elements(rest));
    }
  }

  lemma AddThree(a: set<nat>, x: nat, b: set<nat>)
    ensures a + {x} + b == a + ({x} + b)
  {
  }

  /** So its height is logarithmic in the number of pids. */
  lemma IncreasingHeight(pids: seq<nat>)
    requires Increasing(pids)
    ensures Pow2(Height(InsertAll(Leaf, pids)) / 2) <= |pids| + 1
  {
    IncreasingStaysAvl(Leaf, pids);
    HeightBound(InsertAll(Leaf, pids));
    SizeIsKeys(InsertAll(Leaf, pids));
  }
}
