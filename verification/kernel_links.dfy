/**
 The lists of PCBs as they lie in memory: one `next` field per PCB, list heads in two
 globals and in two fields of every PCB, changed through pointers to pointers.
 */
module KernelLinks {
  import opened KernelState

  /** struct _pcb, its pointers as indices into pcbTable or NIL. */
  datatype Pcb = Pcb(proc: Proc, next: int, senders: int, receivers: int, delta: nat)

  /** pcbTable, ready_queue and sleep_list. */
  datatype Mem = Mem(t: seq<Pcb>, readyQueue: int, sleepList: int)

  /** What a pcb** can point to. */
  datatype Cell = HeadOf(h: Head) | NextOf(i: nat)

  predicate IsCell(m: Mem, c: Cell) {
    match c
    case HeadOf(Senders(d)) => d < |m.t|
    case HeadOf(Receivers(d)) => d < |m.t|
    case HeadOf(_) => true
    case NextOf(i) => i < |m.t|
  }

  /** What a cell points to. */
  function Load(m: Mem, c: Cell): int
    requires IsCell(m, c)
  {
    match c
    case HeadOf(ReadyQueue) => m.readyQueue
    case HeadOf(SleepList) => m.sleepList
    case HeadOf(Senders(d)) => m.t[d].senders
    case HeadOf(Receivers(d)) => m.t[d].receivers
    case NextOf(i) => m.t[i].next
  }

  /** The memory once a cell points to v. */
  function Store(m: Mem, c: Cell, v: int): (r: Mem)
    requires IsCell(m, c)
    ensures |r.t| == |m.t| && Load(r, c) == v
    ensures forall i :: 0 <= i < |m.t| ==> r.t[i].proc == m.t[i].proc && r.t[i].delta == m.t[i].delta
  {
    match c
    case HeadOf(ReadyQueue) => m.(readyQueue := v)
    case HeadOf(SleepList) => m.(sleepList := v)
    case HeadOf(Senders(d)) => m.(t := m.t[d := m.t[d].(senders := v)])
    case HeadOf(Receivers(d)) => m.(t := m.t[d := m.t[d].(receivers := v)])
    case NextOf(i) => m.(t := m.t[i := m.t[i].(next := v)])
  }

  lemma StoreFrame(m: Mem, c: Cell, v: int, c': Cell)
    requires IsCell(m, c) && IsCell(m, c') && c != c'
    ensures IsCell(Store(m, c, v), c') && Load(Store(m, c, v), c') == Load(m, c')
  {
  }

  /** The k-th element, or NIL past the end. */
  function At(l: seq<nat>, k: nat): int {
    if k < |l| then l[k] else NIL
  }

  /** The cell that points to the k-th element. */
  function CellAt(h: Head, l: seq<nat>, k: nat): Cell
    requires k <= |l|
  {
    if k == 0 then HeadOf(h) else NextOf(l[k - 1])
  }

  /** Starting at its head, memory spells out the list. */
  ghost predicate Chain(m: Mem, h: Head, l: seq<nat>) {
    && (forall i :: 0 <= i < |l| ==> l[i] < |m.t|)
    && (IsCell(m, HeadOf(h)) || l == [])
    && (forall k {:trigger At(l, k)} :: 0 <= k <= |l| && IsCell(m, HeadOf(h)) ==> Load(m, CellAt(h, l, k)) == At(l, k))
  }

  ghost predicate Wired(m: Mem, q: Lists) {
    |m.t| == N && forall h :: Chain(m, h, Of(q, h))
  }

  /** No PCB is twice in a list or in two lists. */
  ghost predicate Apart(q: Lists) {
    && (forall h :: Distinct(Of(q, h)))
    && (forall g, h, x :: x in Of(q, g) && x in Of(q, h) ==> g == h)
  }

  ghost predicate Free(q: Lists, x: nat) {
    forall h :: x !in Of(q, h)
  }

  /** Linking a PCB in at the k-th cell of a list: it is the k-th now, and all else is as before. */
  lemma WiredInsert(m: Mem, q: Lists, h: Head, k: nat, x: nat)
    requires Wired(m, q) && Apart(q) && Free(q, x) && x < N && k <= |Of(q, h)| && IsCell(m, HeadOf(h))
    requires m.t[x].next == At(Of(q, h), k)
    ensures IsCell(m, CellAt(h, Of(q, h), k))
    ensures Wired(Store(m, CellAt(h, Of(q, h), k), x), q[h := Of(q, h)[..k] + [x] + Of(q, h)[k..]])
  {
    var l := Of(q, h);
    assert Chain(m, h, l);
    var c := CellAt(h, l, k);
    var m', q' := Store(m, c, x), q[h := l[..k] + [x] + l[k..]];
    InsertChain(m, h, l, k, x);
    forall g
      ensures Chain(m', g, Of(q', g))
    {
      if g != h {
        assert Of(q', g) == Of(q, g) && Chain(m, g, Of(q, g));
        assert k > 0 ==> l[k - 1] in l;
        OtherChain(m, c, x, g, Of(q, g));
      }
    }
  }

  /** A list is spelled out as before if none of its cells is the one written. */
  lemma OtherChain(m: Mem, c: Cell, v: int, g: Head, l: seq<nat>)
    requires Chain(m, g, l) && IsCell(m, c) && c != HeadOf(g) && (c.NextOf? ==> c.i !in l)
    ensures Chain(Store(m, c, v), g, l)
  {
    var m' := Store(m, c, v);
    assert IsCell(m', HeadOf(g)) == IsCell(m, HeadOf(g));
    forall k {:trigger At(l, k)} | 0 <= k <= |l| && IsCell(m, HeadOf(g))
      ensures Load(m', CellAt(g, l, k)) == At(l, k)
    {
      if k > 0 {
        assert l[k - 1] in l;
      }
      StoreFrame(m, c, v, CellAt(g, l, k));
    }
  }

  lemma InsertChain(m: Mem, h: Head, l: seq<nat>, k: nat, x: nat)
    requires Chain(m, h, l) && Distinct(l) && x !in l && x < |m.t| && k <= |l| && IsCell(m, HeadOf(h))
    requires m.t[x].next == At(l, k)
    ensures IsCell(m, CellAt(h, l, k)) && Chain(Store(m, CellAt(h, l, k), x), h, l[..k] + [x] + l[k..])
  {
    var c := CellAt(h, l, k);
    var m', l' := Store(m, c, x), l[..k] + [x] + l[k..];
    assert IsCell(m', HeadOf(h));
    forall j {:trigger At(l', j)} | 0 <= j <= |l'|
      ensures Load(m', CellAt(h, l', j)) == At(l', j)
    {
      var c' := CellAt(h, l', j);
      if j < k {
        assert c' == CellAt(h, l, j) && At(l', j) == At(l, j);
        StoreFrame(m, c, x, c');
      } else if j == k {
        assert c' == c;
      } else if j == k + 1 {
        assert c' == NextOf(x) && At(l', j) == At(l, k);
        assert k > 0 ==> l[k - 1] in l;
        StoreFrame(m, c, x, c');
      } else {
        assert c' == CellAt(h, l, j - 1) && At(l', j) == At(l, j - 1);
        StoreFrame(m, c, x, c');
      }
    }
  }

  /** Making the k-th cell of a list point past its PCB takes that PCB out. */
  lemma WiredRemove(m: Mem, q: Lists, h: Head, k: nat)
    requires Wired(m, q) && Apart(q) && k < |Of(q, h)|
    ensures Of(q, h)[k] < |m.t| && IsCell(m, CellAt(h, Of(q, h), k)) && Load(m, CellAt(h, Of(q, h), k)) == Of(q, h)[k]
    ensures Wired(Store(m, CellAt(h, Of(q, h), k), m.t[Of(q, h)[k]].next), q[h := RemoveOne(Of(q, h), Of(q, h)[k])])
  {
    var l := Of(q, h);
    assert Chain(m, h, l);
    var c, v := CellAt(h, l, k), m.t[l[k]].next;
    assert At(l, k) == l[k];
    RemoveChain(m, h, l, k);
    RemoveOneIs(l, k);
    var m', q' := Store(m, c, v), q[h := RemoveOne(l, l[k])];
    forall g
      ensures Chain(m', g, Of(q', g))
    {
      if g != h {
        assert Of(q', g) == Of(q, g) && Chain(m, g, Of(q, g));
        assert k > 0 ==> l[k - 1] in l;
        OtherChain(m, c, v, g, Of(q, g));
      }
    }
  }

  lemma RemoveChain(m: Mem, h: Head, l: seq<nat>, k: nat)
    requires Chain(m, h, l) && Distinct(l) && k < |l|
    ensures IsCell(m, CellAt(h, l, k)) && Chain(Store(m, CellAt(h, l, k), m.t[l[k]].next), h, l[..k] + l[k + 1..])
  {
    var c, v := CellAt(h, l, k), m.t[l[k]].next;
    var m', l' := Store(m, c, v), l[..k] + l[k + 1..];
    assert v == At(l, k + 1) by {
      assert CellAt(h, l, k + 1) == NextOf(l[k]);
    }
    assert IsCell(m', HeadOf(h));
    forall j {:trigger At(l', j)} | 0 <= j <= |l'|
      ensures Load(m', CellAt(h, l', j)) == At(l', j)
    {
      var c' := CellAt(h, l', j);
      if j < k {
        assert c' == CellAt(h, l, j) && At(l', j) == At(l, j);
        StoreFrame(m, c, v, c');
      } else if j == k {
        assert c' == c && At(l', j) == At(l, k + 1);
      } else {
        assert c' == CellAt(h, l, j + 1) && At(l', j) == At(l, j + 1);
        StoreFrame(m, c, v, c');
      }
    }
  }

  /** Fields other than the links, and the link of a free PCB, do not matter. */
  lemma WiredUpdate(m: Mem, q: Lists, x: nat, u: Pcb)
    requires Wired(m, q) && x < N && u.senders == m.t[x].senders && u.receivers == m.t[x].receivers
    requires u.next == m.t[x].next || Free(q, x)
    ensures Wired(m.(t := m.t[x := u]), q)
  {
    var m' := m.(t := m.t[x := u]);
    forall h
      ensures Chain(m', h, Of(q, h))
    {
      var l := Of(q, h);
      assert Chain(m, h, l);
      forall k {:trigger At(l, k)} | 0 <= k <= |l| && IsCell(m', HeadOf(h))
        ensures Load(m', CellAt(h, l, k)) == At(l, k)
      {
        assert IsCell(m, HeadOf(h)) && Load(m, CellAt(h, l, k)) == At(l, k);
        if k > 0 {
          assert l[k - 1] in l;
        }
      }
    }
  }

  lemma ApartInsert(q: Lists, h: Head, k: nat, x: nat)
    requires Apart(q) && Free(q, x) && k <= |Of(q, h)|
    ensures Apart(q[h := Of(q, h)[..k] + [x] + Of(q, h)[k..]])
    ensures forall y: nat :: y != x && Free(q, y) ==> Free(q[h := Of(q, h)[..k] + [x] + Of(q, h)[k..]], y)
  {
    var q' := q[h := Of(q, h)[..k] + [x] + Of(q, h)[k..]];
    DistinctInsert(Of(q, h), k, x);
    assert forall g {:trigger Of(q', g)} :: g != h ==> Of(q', g) == Of(q, g);
    assert forall g, y {:trigger y in Of(q', g)} :: y in Of(q', g) ==> y in Of(q, g) || (g == h && y == x);
  }

  lemma ApartRemove(q: Lists, h: Head, x: nat)
    requires Apart(q) && x in Of(q, h)
    ensures Apart(q[h := RemoveOne(Of(q, h), x)]) && Free(q[h := RemoveOne(Of(q, h), x)], x)
    ensures forall y: nat :: Free(q, y) ==> Free(q[h := RemoveOne(Of(q, h), x)], y)
  {
    var q' := q[h := RemoveOne(Of(q, h), x)];
    RemoveOneKeeps(Of(q, h), x);
    assert forall g {:trigger Of(q', g)} :: g != h ==> Of(q', g) == Of(q, g);
    assert forall g, y {:trigger y in Of(q', g)} :: y in Of(q', g) ==> y in Of(q, g) && (g == h ==> y != x);
  }

  /** Making the last cell of a list point to a PCB without a link appends it; other fields may be set too. */
  lemma WiredAppend(m: Mem, q: Lists, h: Head, x: nat, p: Proc)
    requires Wired(m, q) && Apart(q) && Free(q, x) && x < N && IsCell(m, HeadOf(h))
    ensures IsCell(m, CellAt(h, Of(q, h), |Of(q, h)|))
    ensures var m1 := Store(m, CellAt(h, Of(q, h), |Of(q, h)|), x);
      Wired(m1.(t := m1.t[x := m1.t[x].(next := NIL, proc := p)]), q[h := Of(q, h) + [x]])
  {
    var l := Of(q, h);
    var c := CellAt(h, l, |l|);
    assert Chain(m, h, l);
    assert |l| > 0 ==> l[|l| - 1] in l;
    var u := m.t[x].(next := NIL, proc := p);
    var m0, m1 := m.(t := m.t[x := u]), Store(m, c, x);
    WiredUpdate(m, q, x, u);
    WiredInsert(m0, q, h, |l|, x);
    assert l[..|l|] + [x] + l[|l|..] == l + [x];
    var m2 := m1.(t := m1.t[x := m1.t[x].(next := NIL, proc := p)]);
    assert Store(m0, c, x).t == m2.t;
    hide Wired;
  }

  // ------------------------------------------------------------------
  // ready() wherever the process is

  /** The memory after ready() on a ready queue l: the last cell points to x, whose link is cleared. */
  ghost function Readied(m: Mem, l: seq<nat>, x: nat, p: Proc): (r: Mem)
    requires Chain(m, ReadyQueue, l) && x < |m.t|
    ensures |r.t| == |m.t|
  {
    LastCell(m, l);
    var m1 := Store(m, CellAt(ReadyQueue, l, |l|), x);
    m1.(t := m1.t[x := m1.t[x].(next := NIL, proc := p)])
  }

  lemma LastCell(m: Mem, l: seq<nat>)
    requires Chain(m, ReadyQueue, l)
    ensures IsCell(m, CellAt(ReadyQueue, l, |l|))
  {
  }

  /** In its own queue x is last now. */
  lemma ReadiedQueue(m: Mem, l: seq<nat>, x: nat, p: Proc)
    requires Chain(m, ReadyQueue, l) && Distinct(l) && x < |m.t| && x !in l
    ensures Chain(Readied(m, l, x, p), ReadyQueue, l + [x])
  {
    var m', l' := Readied(m, l, x, p), l + [x];
    LastCell(m, l);
    forall k {:trigger At(l', k)} | 0 <= k <= |l'|
      ensures Load(m', CellAt(ReadyQueue, l', k)) == At(l', k)
    {
      if k <= |l| {
        assert CellAt(ReadyQueue, l', k) == CellAt(ReadyQueue, l, k);
        assert k < |l| ==> At(l', k) == At(l, k) && Load(m, CellAt(ReadyQueue, l, k)) == At(l, k);
      }
    }
  }

  /** A list without x and without the last of the queue is as it was. */
  lemma ReadiedApart(m: Mem, l: seq<nat>, x: nat, p: Proc, g: Head, lg: seq<nat>)
    requires Chain(m, ReadyQueue, l) && x < |m.t| && g != ReadyQueue && Chain(m, g, lg) && x !in lg
    requires forall y :: y in l ==> y !in lg
    ensures Chain(Readied(m, l, x, p), g, lg)
  {
    var m' := Readied(m, l, x, p);
    forall k {:trigger At(lg, k)} | 0 <= k <= |lg| && IsCell(m', HeadOf(g))
      ensures Load(m', CellAt(g, lg, k)) == At(lg, k)
    {
      assert IsCell(m, HeadOf(g)) && Load(m, CellAt(g, lg, k)) == At(lg, k);
      if k > 0 {
        assert lg[k - 1] in lg;
      }
      if |l| > 0 {
        assert l[|l| - 1] in l;
      }
    }
  }

  /** A list with x in it ends there. */
  lemma ReadiedCut(m: Mem, l: seq<nat>, x: nat, p: Proc, g: Head, lg: seq<nat>, i: nat)
    requires Chain(m, ReadyQueue, l) && x < |m.t| && g != ReadyQueue && Chain(m, g, lg)
    requires Distinct(lg) && i < |lg| && lg[i] == x && forall y :: y in l ==> y !in lg
    ensures Chain(Readied(m, l, x, p), g, lg[..i + 1])
  {
    var m', c := Readied(m, l, x, p), lg[..i + 1];
    forall k {:trigger At(c, k)} | 0 <= k <= |c| && IsCell(m', HeadOf(g))
      ensures Load(m', CellAt(g, c, k)) == At(c, k)
    {
      assert IsCell(m, HeadOf(g)) && Load(m, CellAt(g, lg, k)) == At(lg, k);
      assert CellAt(g, c, k) == CellAt(g, lg, k);
      if k > 0 {
        assert lg[k - 1] in lg;
      }
      if |l| > 0 {
        assert l[|l| - 1] in l;
      }
    }
  }

  /** A list that ends where the queue does runs on to x. */
  lemma ReadiedTail(m: Mem, l: seq<nat>, x: nat, p: Proc, g: Head, lg: seq<nat>)
    requires Chain(m, ReadyQueue, l) && x < |m.t| && g != ReadyQueue && Chain(m, g, lg) && x !in lg
    requires Distinct(lg) && l != [] && lg != [] && l[|l| - 1] == lg[|lg| - 1]
    ensures Chain(Readied(m, l, x, p), g, lg + [x])
  {
    var m', c := Readied(m, l, x, p), lg + [x];
    forall k {:trigger At(c, k)} | 0 <= k <= |c| && IsCell(m', HeadOf(g))
      ensures Load(m', CellAt(g, c, k)) == At(c, k)
    {
      if k <= |lg| {
        assert IsCell(m, HeadOf(g)) && Load(m, CellAt(g, lg, k)) == At(lg, k);
        assert CellAt(g, c, k) == CellAt(g, lg, k);
        assert k > 0 ==> lg[k - 1] in lg;
      }
    }
  }

  function SetProc(m: Mem, x: nat, p: Proc): (r: Mem)
    requires x < |m.t|
    ensures |r.t| == |m.t|
  {
    m.(t := m.t[x := m.t[x].(proc := p)])
  }

  lemma SetProcKeeps(m: Mem, x: nat, p: Proc, g: Head, lg: seq<nat>)
    requires x < |m.t| && Chain(m, g, lg)
    ensures Chain(SetProc(m, x, p), g, lg)
  {
    var m' := SetProc(m, x, p);
    forall k {:trigger At(lg, k)} | 0 <= k <= |lg| && IsCell(m', HeadOf(g))
      ensures Load(m', CellAt(g, lg, k)) == At(lg, k)
    {
      assert IsCell(m, HeadOf(g)) && Load(m, CellAt(g, lg, k)) == At(lg, k);
    }
  }

  /** The queue after two processes were readied with ready(), t from the middle of a list. */
  ghost predicate TwoReadied(m: Mem, m': Mem, r: seq<nat>, t: nat, t': Proc, t'': Proc, p: nat, p': Proc, p'': Proc) {
    && t < |m.t| && p < |m.t| && Chain(SetProc(m, t, t'), ReadyQueue, r)
    && var m2 := Readied(SetProc(m, t, t'), r, t, t'');
       Chain(SetProc(m2, p, p'), ReadyQueue, r + [t]) && m' == Readied(SetProc(m2, p, p'), r + [t], p, p'')
  }

  /**
   Where the links lead once t was readied while it is the i-th in a list h, and then p: the
   list ends at t and runs on to p, as the ready queue does. All other lists are as before.
   */
  lemma TailShared(m: Mem, m': Mem, q: Lists, h: Head, i: nat, t: nat, t': Proc, t'': Proc, p: nat, p': Proc, p'': Proc)
    requires Wired(m, q) && Apart(q) && Free(q, p) && h != ReadyQueue && i < |Of(q, h)| && Of(q, h)[i] == t && p != t
    requires TwoReadied(m, m', Of(q, ReadyQueue), t, t', t'', p, p', p'')
    ensures Chain(m', ReadyQueue, Of(q, ReadyQueue) + [t, p]) && Chain(m', h, Of(q, h)[..i + 1] + [p])
    ensures forall g :: g != h && g != ReadyQueue ==> Chain(m', g, Of(q, g))
  {
    hide Chain, Readied, SetProc, IsCell;
    var r, l := Of(q, ReadyQueue), Of(q, h);
    assert t in l;
    var m1 := SetProc(m, t, t');
    var m2 := Readied(m1, r, t, t'');
    var m3 := SetProc(m2, p, p');
    assert r + [t, p] == (r + [t]) + [p];
    ReadiedQueue(m3, r + [t], p, p'');
    forall g | g != ReadyQueue
      ensures g != h ==> Chain(m', g, Of(q, g))
      ensures g == h ==> Chain(m', h, l[..i + 1] + [p])
    {
      var lg := Of(q, g);
      assert Chain(m, g, lg);
      SetProcKeeps(m, t, t', g, lg);
      if g == h {
        ReadiedCut(m1, r, t, t'', h, l, i);
        SetProcKeeps(m2, p, p', h, l[..i + 1]);
        assert forall x :: x in l[..i + 1] ==> x in l;
        ReadiedTail(m3, r + [t], p, p'', h, l[..i + 1]);
      } else {
        ReadiedApart(m1, r, t, t'', g, lg);
        SetProcKeeps(m2, p, p', g, lg);
        ReadiedApart(m3, r + [t], p, p'', g, lg);
      }
    }
  }

  /** A process stays free while another joins the end of a list. */
  lemma StillFree(q: Lists, h: Head, x: nat, y: nat)
    requires Free(q, y) && x != y
    ensures Free(q[h := Of(q, h) + [x]], y)
  {
    var q' := q[h := Of(q, h) + [x]];
    forall g
      ensures y !in Of(q', g)
    {
      assert y !in Of(q, g);
    }
  }

  function Procs(t: seq<Pcb>): (r: seq<Proc>)
    ensures |r| == |t| && forall i :: 0 <= i < |t| ==> r[i] == t[i].proc
  {
    seq(|t|, i requires 0 <= i < |t| => t[i].proc)
  }

  /** What the sleepers before the k-th have left at most: 0 for the first. */
  function Before(l: seq<nat>, left: map<nat, nat>, k: nat): nat
    requires k <= |l| && forall x :: x in l ==> x in left
  {
    if k == 0 then 0 else assert l[k - 1] in l; left[l[k - 1]]
  }

  /** The delta list: every sleeper holds the ticks between the one before it and itself. */
  ghost predicate Deltas(t: seq<Pcb>, l: seq<nat>, left: map<nat, nat>) {
    && (forall x :: x in l ==> x in left && x < |t|)
    && (forall i {:trigger Before(l, left, i)} :: 0 <= i < |l| ==>
          l[i] in l && left[l[i]] == Before(l, left, i) + t[l[i]].delta)
  }

  lemma DeltasSame(t: seq<Pcb>, t': seq<Pcb>, l: seq<nat>, left: map<nat, nat>)
    requires Deltas(t, l, left) && |t'| == |t| && forall i :: 0 <= i < |t| ==> t'[i].delta == t[i].delta
    ensures Deltas(t', l, left)
  {
    assert forall i :: 0 <= i < |l| ==> l[i] in l;
  }
}
