/**
 The process table of the kernel (h/xeroskernel.h, c/disp.c) with its queues as plain
 sequences, and what holds of it whenever a process runs.
 */
module KernelState {
  import opened Basics

  /** MAX_NUM_PROCESS */
  const N: nat := 256
  const NIL: int := -1

  const SYSERR: int := -1
  const SYS_SR_NO_PID: int := -1
  const SYS_SR_SELF: int := -2

  datatype State = STOPPED | RUNNING | READY | SENDING | RECEIVING | SLEEPING | READING | WAITING

  /**
   A process control block without its links. `partner` and `buf` are the arguments of the
   last send or receive: the pid named (0: any) and the buffer.
   */
  datatype Proc = Proc(pid: nat, parent: nat, state: State, irc: int, partner: nat, buf: seq<byte>,
                       allowed: bv32, pending: bv32)

  /** The heads a list of PCBs can hang from; every list runs through the one `next` field. */
  datatype Head = ReadyQueue | SleepList | Senders(of: nat) | Receivers(of: nat)

  type Lists = map<Head, seq<nat>>

  /** The list at a head, empty if nothing was ever put there. */
  function Of(q: Lists, h: Head): seq<nat> {
    if h in q then q[h] else []
  }

  /** left: ticks until a sleeping process wakes. cur, idle: index of a process or NIL. */
  datatype Sys = Sys(procs: seq<Proc>, q: Lists, left: map<nat, nat>, pids: map<nat, nat>, nextPid: nat,
                     idle: int, cur: int)

  // ------------------------------------------------------------------
  // Each process in exactly one place

  /** The list the state of a process says it is in. */
  predicate Belongs(p: Proc, pids: map<nat, nat>, h: Head) {
    match h
    case ReadyQueue => p.state.READY?
    case SleepList => p.state.SLEEPING?
    case Senders(d) => p.state.SENDING? && p.partner in pids && pids[p.partner] == d
    case Receivers(d) => p.state.RECEIVING? && p.partner != 0 && p.partner in pids && pids[p.partner] == d
  }

  predicate Linked(p: Proc) {
    p.state.READY? || p.state.SLEEPING? || p.state.SENDING? || (p.state.RECEIVING? && p.partner != 0)
  }

  ghost predicate Distinct(l: seq<nat>) {
    forall i, j :: 0 <= i < j < |l| ==> l[i] != l[j]
  }

  /** Every process is once in the list it belongs to and in no other; those in `loose` are in none. */
  ghost predicate Placed(procs: seq<Proc>, q: Lists, pids: map<nat, nat>, loose: set<nat>) {
    && |procs| == N
    && (forall h :: Distinct(Of(q, h)))
    && (forall h, x {:trigger x in Of(q, h)} :: x in Of(q, h) ==> x < N && x !in loose && Belongs(procs[x], pids, h))
    && (forall h, x {:trigger Belongs(procs[x], pids, h)} ::
          0 <= x < N && x !in loose && Belongs(procs[x], pids, h) ==> x in Of(q, h))
  }

  // ------------------------------------------------------------------
  // Pids and partners

  /** What holds of one process: its pid is registered, and whom it waits for is alive and not itself. */
  predicate Fine(p: Proc, x: nat, pids: map<nat, nat>) {
    && (!p.state.STOPPED? ==> 0 < p.pid < WORD && p.pid in pids && pids[p.pid] == x)
    && (p.state.SENDING? || (p.state.RECEIVING? && p.partner != 0) ==> p.partner in pids && p.partner != p.pid)
  }

  /** `a` waits to send to `d` although `d` waits to receive from it or from any. */
  predicate Missed(a: Proc, d: Proc) {
    && a.state.SENDING? && d.state.RECEIVING?
    && a.partner == d.pid && (d.partner == 0 || d.partner == a.pid)
  }

  ghost predicate Sane(procs: seq<Proc>, pids: map<nat, nat>) {
    && |procs| == N
    && (forall x :: 0 <= x < N ==> Fine(procs[x], x, pids))
    && (forall pid :: pid in pids ==> pids[pid] < N && procs[pids[pid]].pid == pid && !procs[pids[pid]].state.STOPPED?)
    && (forall a, d :: 0 <= a < N && 0 <= d < N ==> !Missed(procs[a], procs[d]))
  }

  // ------------------------------------------------------------------
  // The rest

  /** Sleepers in order of waking, each with at least one tick to go. */
  ghost predicate Sleeping(l: seq<nat>, left: map<nat, nat>) {
    && (forall i :: 0 <= i < |l| ==> l[i] in left && left[l[i]] >= 1)
    && Ascending(l, left)
    && (forall x :: x in left ==> x in l)
  }

  ghost predicate Ascending(l: seq<nat>, left: map<nat, nat>) {
    forall i, j :: 0 <= i < j < |l| && l[i] in left && l[j] in left ==> left[l[i]] <= left[l[j]]
  }

  ghost predicate OneRuns(procs: seq<Proc>, cur: int) {
    && -1 <= cur < |procs|
    && forall x :: 0 <= x < |procs| ==> (procs[x].state.RUNNING? <==> x == cur)
  }

  /** The idle process is always ready or running. */
  predicate IdleReady(procs: seq<Proc>, idle: int) {
    idle == NIL || (0 <= idle < |procs| && (procs[idle].state.READY? || procs[idle].state.RUNNING?))
  }

  /** Between two requests; `loose` and `cur` differ from {} and the running process only inside a request. */
  ghost predicate Steady(s: Sys, loose: set<nat>, cur: int) {
    && Placed(s.procs, s.q, s.pids, loose)
    && Sane(s.procs, s.pids)
    && Sleeping(Of(s.q, SleepList), s.left)
    && OneRuns(s.procs, cur)
    && s.nextPid < WORD
  }

  ghost predicate Inv(s: Sys) {
    Steady(s, {}, s.cur) && IdleReady(s.procs, s.idle)
  }

  // ------------------------------------------------------------------
  // What the invariant says

  /** A process is in at most one list. */
  lemma OnePlace(procs: seq<Proc>, q: Lists, pids: map<nat, nat>, loose: set<nat>, g: Head, h: Head, x: nat)
    requires Placed(procs, q, pids, loose) && x in Of(q, g) && x in Of(q, h)
    ensures g == h
  {
    assert Belongs(procs[x], pids, g) && Belongs(procs[x], pids, h);
  }

  /** A process is in some list exactly when it is ready, sleeping, sending or receiving from someone. */
  lemma InAListIff(s: Sys, x: nat)
    requires Inv(s) && x < N
    ensures Linked(s.procs[x]) <==> exists h :: x in Of(s.q, h)
  {
    var p := s.procs[x];
    assert Fine(p, x, s.pids);
    if Linked(p) {
      var h := if p.state.READY? then ReadyQueue else if p.state.SLEEPING? then SleepList
               else if p.state.SENDING? then Senders(s.pids[p.partner]) else Receivers(s.pids[p.partner]);
      assert Belongs(p, s.pids, h);
    }
  }

  /** Nobody waits on the dead: the queues of a stopped process are empty. */
  lemma StoppedQueuesEmpty(s: Sys, d: nat)
    requires Inv(s) && d < N && s.procs[d].state.STOPPED?
    ensures Of(s.q, Senders(d)) == [] && Of(s.q, Receivers(d)) == []
  {
    FirstIn(Of(s.q, Senders(d)));
    FirstIn(Of(s.q, Receivers(d)));
  }

  lemma FirstIn(l: seq<nat>)
    ensures l != [] ==> l[0] in l
  {
  }

  /** No rendezvous is missed, said in terms of the queues. */
  lemma NobodyWaitsForAReceiver(s: Sys, a: nat, d: nat)
    requires Inv(s) && d < N && a in Of(s.q, Senders(d))
    ensures a < N && !(s.procs[d].state.RECEIVING? && (s.procs[d].partner == 0 || d in Of(s.q, Receivers(a))))
  {
    assert Belongs(s.procs[a], s.pids, Senders(d));
    assert !Missed(s.procs[a], s.procs[d]);
    if d in Of(s.q, Receivers(a)) {
      assert Belongs(s.procs[d], s.pids, Receivers(a));
    }
  }

  // ------------------------------------------------------------------
  // How changes of one process and one list keep everything in place

  function RemoveOne(l: seq<nat>, x: nat): (r: seq<nat>)
    ensures |r| <= |l|
  {
    if l == [] then [] else if l[0] == x then l[1..] else [l[0]] + RemoveOne(l[1..], x)
  }

  lemma {:induction false} RemoveOneIs(l: seq<nat>, k: nat)
    requires Distinct(l) && k < |l|
    ensures RemoveOne(l, l[k]) == l[..k] + l[k + 1..]
  {
    if k > 0 {
      assert l[0] != l[k];
      RemoveOneIs(l[1..], k - 1);
      assert l[1..][..k - 1] == l[1..k] && l[1..][k..] == l[k + 1..];
    }
  }

  lemma {:induction false} RemoveOneKeeps(l: seq<nat>, x: nat)
    requires Distinct(l) && x in l
    ensures Distinct(RemoveOne(l, x))
    ensures forall y :: y in RemoveOne(l, x) <==> y in l && y != x
    decreases |l|
  {
    DistinctRest(l);
    assert l == [l[0]] + l[1..];
    if l[0] != x {
      RemoveOneKeeps(l[1..], x);
      DistinctCons(l[0], RemoveOne(l[1..], x));
    }
  }

  lemma DistinctRest(l: seq<nat>)
    requires Distinct(l) && l != []
    ensures Distinct(l[1..]) && l[0] !in l[1..]
  {
  }

  lemma DistinctCons(x: nat, l: seq<nat>)
    requires Distinct(l) && x !in l
    ensures Distinct([x] + l)
  {
    forall i, j | 0 <= i < j < |l| + 1
      ensures ([x] + l)[i] != ([x] + l)[j]
    {
      assert ([x] + l)[j] == l[j - 1] && l[j - 1] in l;
    }
  }

  lemma DistinctInsert(l: seq<nat>, k: nat, x: nat)
    requires Distinct(l) && k <= |l| && x !in l
    ensures Distinct(l[..k] + [x] + l[k..])
    ensures forall y :: y in l[..k] + [x] + l[k..] <==> y in l || y == x
  {
    var r := l[..k] + [x] + l[k..];
    assert l == l[..k] + l[k..];
    forall i, j | 0 <= i < j < |r|
      ensures r[i] != r[j]
    {
      var y, z := if i < k then i else i - 1, if j < k then j else j - 1;
      assert i != k ==> r[i] == l[y] && l[y] in l;
      assert j != k ==> r[j] == l[z] && l[z] in l;
    }
  }

  /** A loose process may change in any way. */
  lemma PlacedLoose(procs: seq<Proc>, q: Lists, pids: map<nat, nat>, loose: set<nat>, x: nat, p: Proc)
    requires Placed(procs, q, pids, loose) && x in loose && x < N
    ensures Placed(procs[x := p], q, pids, loose)
  {
  }

  /** A loose process that belongs in no list is in its place. */
  lemma PlacedNowhere(procs: seq<Proc>, q: Lists, pids: map<nat, nat>, loose: set<nat>, x: nat)
    requires Placed(procs, q, pids, loose) && x in loose && x < N && forall h :: !Belongs(procs[x], pids, h)
    ensures Placed(procs, q, pids, loose - {x})
  {
  }

  /** The converse: a process in no list may be treated as loose. */
  lemma PlacedUnlisted(procs: seq<Proc>, q: Lists, pids: map<nat, nat>, loose: set<nat>, x: nat)
    requires Placed(procs, q, pids, loose) && x < N && forall h :: !Belongs(procs[x], pids, h)
    ensures Placed(procs, q, pids, loose + {x})
  {
  }

  /** A loose process joins the list it now belongs to. */
  lemma PlacedJoin(procs: seq<Proc>, q: Lists, pids: map<nat, nat>, loose: set<nat>, x: nat, p: Proc, h: Head, k: nat)
    requires Placed(procs, q, pids, loose) && x in loose && x < N && Belongs(p, pids, h) && k <= |Of(q, h)|
    ensures Placed(procs[x := p], q[h := Of(q, h)[..k] + [x] + Of(q, h)[k..]], pids, loose - {x})
  {
    var l, q' := Of(q, h), q[h := Of(q, h)[..k] + [x] + Of(q, h)[k..]];
    var procs', l' := procs[x := p], l[..k] + [x] + l[k..];
    assert x !in l;
    DistinctInsert(l, k, x);
    assert forall g :: Of(q', g) == if g == h then l' else Of(q, g);
    hide Of, Distinct;
    forall g
      ensures Distinct(Of(q', g))
    {
      assert Of(q', g) == if g == h then l' else Of(q, g);
    }
    forall g, y {:trigger y in Of(q', g)} | y in Of(q', g)
      ensures y < N && y !in loose - {x} && Belongs(procs'[y], pids, g)
    {
      assert Of(q', g) == if g == h then l' else Of(q, g);
      assert y != x ==> y in Of(q, g);
      assert y == x ==> x !in Of(q, g);
    }
    forall g, y {:trigger Belongs(procs'[y], pids, g)} | 0 <= y < N && y !in loose - {x} && Belongs(procs'[y], pids, g)
      ensures y in Of(q', g)
    {
      assert Of(q', g) == if g == h then l' else Of(q, g);
      if y != x {
        assert Belongs(procs[y], pids, g) && y in Of(q, g);
      } else {
        BelongsOnce(p, pids, g, h);
      }
    }
  }

  lemma BelongsOnce(p: Proc, pids: map<nat, nat>, g: Head, h: Head)
    requires Belongs(p, pids, g) && Belongs(p, pids, h)
    ensures g == h
  {
  }

  /** A process taken out of its list is loose. */
  lemma PlacedLeave(procs: seq<Proc>, q: Lists, pids: map<nat, nat>, loose: set<nat>, x: nat, h: Head)
    requires Placed(procs, q, pids, loose) && x in Of(q, h)
    ensures Placed(procs, q[h := RemoveOne(Of(q, h), x)], pids, loose + {x})
  {
    var l, q' := RemoveOne(Of(q, h), x), q[h := RemoveOne(Of(q, h), x)];
    RemoveOneKeeps(Of(q, h), x);
    assert forall g :: Of(q', g) == if g == h then l else Of(q, g);
    hide RemoveOne, Of;
    assert Belongs(procs[x], pids, h);
    forall g, y {:trigger y in Of(q', g)} | y in Of(q', g)
      ensures y < N && y !in loose + {x} && Belongs(procs[y], pids, g)
    {
      assert y in Of(q, g);
      if y == x {
        BelongsOnce(procs[x], pids, g, h);
      }
    }
    forall g, y {:trigger Belongs(procs[y], pids, g)} | 0 <= y < N && y !in loose + {x} && Belongs(procs[y], pids, g)
      ensures y in Of(q', g)
    {
      assert y in Of(q, g) && y != x;
    }
  }

  /** A process goes from its list to the end of the ready queue. */
  lemma PlacedMove(procs: seq<Proc>, q: Lists, pids: map<nat, nat>, loose: set<nat>, h: Head, x: nat, p: Proc)
    requires Placed(procs, q, pids, loose) && h != ReadyQueue && x in Of(q, h) && p.state.READY?
    ensures var q1 := q[h := RemoveOne(Of(q, h), x)];
      Placed(procs[x := p], q1[ReadyQueue := Of(q1, ReadyQueue) + [x]], pids, loose)
  {
    var q1 := q[h := RemoveOne(Of(q, h), x)];
    var l := Of(q1, ReadyQueue);
    PlacedLeave(procs, q, pids, loose, x, h);
    PlacedJoin(procs, q1, pids, loose + {x}, x, p, ReadyQueue, |l|);
    assert l[..|l|] + [x] + l[|l|..] == l + [x] && x !in loose && loose + {x} - {x} == loose;
    hide Placed, RemoveOne;
  }

  /**
   A change that neither starts nor ends a wait for a message, nor the process itself, keeps
   pids and partners right.
   */
  lemma SaneQuiet(procs: seq<Proc>, pids: map<nat, nat>, x: nat, p: Proc)
    requires Sane(procs, pids) && x < N && p.pid == procs[x].pid
    requires !procs[x].state.STOPPED? && !p.state.STOPPED? && !p.state.SENDING? && !p.state.RECEIVING?
    ensures Sane(procs[x := p], pids)
  {
    assert Fine(procs[x], x, pids);
    assert forall a, d :: 0 <= a < N && 0 <= d < N && Missed(procs[x := p][a], procs[x := p][d]) ==>
      Missed(procs[a], procs[d]);
  }

  /** A change of what neither pids nor partners nor places depend on. */
  predicate Same(p: Proc, before: Proc) {
    && p.pid == before.pid && p.state == before.state
    && (p.partner == before.partner || (!p.state.SENDING? && !p.state.RECEIVING?))
  }

  lemma SaneSame(procs: seq<Proc>, pids: map<nat, nat>, x: nat, p: Proc)
    requires Sane(procs, pids) && x < N && Same(p, procs[x])
    ensures Sane(procs[x := p], pids)
  {
    assert Fine(procs[x], x, pids);
    assert forall a, d :: 0 <= a < N && 0 <= d < N && Missed(procs[x := p][a], procs[x := p][d]) ==>
      Missed(procs[a], procs[d]);
  }

  lemma PlacedSame(procs: seq<Proc>, q: Lists, pids: map<nat, nat>, loose: set<nat>, x: nat, p: Proc)
    requires Placed(procs, q, pids, loose) && x < N && Same(p, procs[x])
    ensures Placed(procs[x := p], q, pids, loose)
  {
    assert forall h {:trigger Belongs(p, pids, h)} :: Belongs(p, pids, h) == Belongs(procs[x], pids, h);
  }

  /** A process starts to wait for a message. */
  lemma SaneWait(procs: seq<Proc>, pids: map<nat, nat>, x: nat, p: Proc)
    requires Sane(procs, pids) && x < N && p.pid == procs[x].pid
    requires !procs[x].state.STOPPED? && !p.state.STOPPED? && Fine(p, x, pids)
    requires forall y :: 0 <= y < N && y != x ==> !Missed(p, procs[y]) && !Missed(procs[y], p)
    ensures Sane(procs[x := p], pids)
  {
    var procs' := procs[x := p];
    forall a, d | 0 <= a < N && 0 <= d < N
      ensures !Missed(procs'[a], procs'[d])
    {
      assert !Missed(procs[a], procs[d]);
    }
  }
}
