/**
 Sleeping, waking, creating, stopping and signals keep the invariant, and so does choosing
 the next process: a whole turn of dispatch() does.
 */
module KernelTurn {
  import opened Basics
  import opened KernelState
  import opened KernelSteps
  import opened KernelInv

  // ------------------------------------------------------------------
  // Sleeping

  lemma InsertAt(l: seq<nat>, k: nat, x: nat)
    requires k <= |l|
    ensures var r := l[..k] + [x] + l[k..];
      && |r| == |l| + 1
      && (forall i {:trigger r[i]} :: 0 <= i < |r| ==> r[i] == if i < k then l[i] else if i == k then x else l[i - 1])
      && (forall y :: y in r <==> y in l || y == x)
  {
    assert l == l[..k] + l[k..];
  }

  lemma SleepInsert(l: seq<nat>, left: map<nat, nat>, x: nat, d: nat)
    requires Sleeping(l, left) && x !in l && d >= 1
    ensures var k := Rank(l, left, d); Sleeping(l[..k] + [x] + l[k..], left[x := d])
  {
    hide Ascending, Rank;
    var k := Rank(l, left, d);
    InsertAt(l, k, x);
    SleepAscending(l, left, x, d);
    assert forall i :: 0 <= i < |l| ==> l[i] in l;
  }

  lemma SleepAscending(l: seq<nat>, left: map<nat, nat>, x: nat, d: nat)
    requires Sleeping(l, left) && x !in l && d >= 1
    ensures var k := Rank(l, left, d); Ascending(l[..k] + [x] + l[k..], left[x := d])
  {
    var k := Rank(l, left, d);
    var l', left' := l[..k] + [x] + l[k..], left[x := d];
    InsertAt(l, k, x);
    hide Sleeping, Rank;
    forall i, j | 0 <= i < j < |l'| && l'[i] in left' && l'[j] in left'
      ensures left'[l'[i]] <= left'[l'[j]]
    {
      SleepOrder(l, left, x, d, i, j);
    }
  }

  lemma SleepOrder(l: seq<nat>, left: map<nat, nat>, x: nat, d: nat, i: nat, j: nat)
    requires Sleeping(l, left) && x !in l && i < j <= |l|
    ensures var k := Rank(l, left, d);
      var y := if i < k then l[i] else if i == k then x else l[i - 1];
      var z := if j < k then l[j] else if j == k then x else l[j - 1];
      y in left[x := d] && z in left[x := d] && left[x := d][y] <= left[x := d][z]
  {
    var k := Rank(l, left, d);
    assert i < |l| ==> l[i] in l;
    assert i >= 1 ==> l[i - 1] in l;
    assert j < |l| ==> l[j] in l;
    assert l[j - 1] in l;
    assert k < |l| ==> l[k] in l;
  }

  lemma NotListed(s: Sys, loose: set<nat>, x: nat, h: Head)
    requires Placed(s.procs, s.q, s.pids, loose) && x in loose
    ensures x !in Of(s.q, h)
  {
  }

  lemma SleepKeeps(s: Sys, ms: nat)
    requires Steady(s, {}, s.cur) && s.cur >= 0
    ensures Steady(FallAsleep(s, ms), {}, NIL) && Wakes(s, FallAsleep(s, ms))
  {
    hide Missed, Fine, Placed, Sane, Ticks;
    SteadyShape(s, {}, s.cur);
    var c, d, l := s.cur as nat, Ticks(ms), Of(s.q, SleepList);
    if d == 0 {
      RunningReady(s);
    } else {
      var k := Rank(l, s.left, d);
      var p := s.procs[c].(state := SLEEPING);
      RunningLoose(s, {}, c);
      assert {} + {c} == {c} && {c} - {c} == {};
      PlacedJoin(s.procs, s.q, s.pids, {c}, c, p, SleepList, k);
      SaneQuiet(s.procs, s.pids, c, p);
      NotListed(s, {c}, c, SleepList);
      SleepInsert(l, s.left, c, d);
      hide Sleeping, Rank;
    }
  }

  /** Like Steady, but the first sleepers may have no ticks left. */
  ghost predicate Waking(s: Sys, loose: set<nat>, cur: int) {
    && Placed(s.procs, s.q, s.pids, loose)
    && Sane(s.procs, s.pids)
    && Counted(Of(s.q, SleepList), s.left)
    && OneRuns(s.procs, cur)
    && s.nextPid < WORD
  }

  ghost predicate Counted(l: seq<nat>, left: map<nat, nat>) {
    && (forall i :: 0 <= i < |l| ==> l[i] in left)
    && Ascending(l, left)
    && (forall x :: x in left ==> x in l)
  }

  /** Taking the first sleeper off the list. */
  lemma CountedRest(l: seq<nat>, left: map<nat, nat>)
    requires Counted(l, left) && Distinct(l) && l != []
    ensures Counted(l[1..], left - {l[0]})
  {
    forall x | x in left - {l[0]}
      ensures x in l[1..]
    {
      var i :| 0 <= i < |l| && l[i] == x;
      assert l[1..][i - 1] == x;
    }
  }

  lemma WakeOne(s: Sys, loose: set<nat>, cur: int)
    requires Waking(s, loose, cur) && Of(s.q, SleepList) != []
    ensures var l := Of(s.q, SleepList);
      var r := Return(s.(q := s.q[SleepList := l[1..]], left := s.left - {l[0]}), l[0], 0);
      Waking(r, loose, cur) && Wakes(s, r)
  {
    var l, x := Of(s.q, SleepList), Of(s.q, SleepList)[0];
    FirstIn(l);
    var p := s.procs[x].(irc := 0, state := READY);
    var r := Return(s.(q := s.q[SleepList := l[1..]], left := s.left - {x}), x, 0);
    assert Belongs(s.procs[x], s.pids, SleepList) && x < |s.procs| == N && Distinct(l);
    hide Placed, Sane, Counted, RemoveOne, Distinct;
    MoveIs(s, SleepList, s.left - {x}, x, 0);
    PlacedMove(s.procs, s.q, s.pids, loose, SleepList, x, p);
    SaneQuiet(s.procs, s.pids, x, p);
    CountedRest(l, s.left);
    OneRunsStill(s, cur, x, p);
    hide Return, Of, OneRuns, Wakes;
  }

  lemma OneRunsStill(s: Sys, cur: int, x: nat, p: Proc)
    requires OneRuns(s.procs, cur) && x < |s.procs| && !s.procs[x].state.RUNNING? && p.state.READY?
    ensures OneRuns(s.procs[x := p], cur)
    ensures forall r: Sys :: r.procs == s.procs[x := p] && r.idle == s.idle ==> Wakes(s, r)
  {
  }

  /** Taking the first of a list and returning it to its program. */
  lemma MoveIs(s: Sys, h: Head, left: map<nat, nat>, x: nat, irc: int)
    requires x < |s.procs| && Of(s.q, h) != [] && Of(s.q, h)[0] == x && h != ReadyQueue
    ensures var r := Return(s.(q := s.q[h := Of(s.q, h)[1..]], left := left), x, irc);
      var q1 := s.q[h := RemoveOne(Of(s.q, h), x)];
      && r == s.(procs := s.procs[x := s.procs[x].(irc := irc, state := READY)],
                 q := q1[ReadyQueue := Of(q1, ReadyQueue) + [x]], left := left)
      && Of(r.q, h) == Of(s.q, h)[1..] && (h != SleepList ==> Of(r.q, SleepList) == Of(s.q, SleepList))
  {
  }

  lemma {:induction false} WakeKeeps(s: Sys, loose: set<nat>, cur: int)
    requires Waking(s, loose, cur)
    ensures Steady(Wake(s), loose, cur) && Wakes(s, Wake(s))
    ensures Wake(s).cur == s.cur && Wake(s).pids == s.pids
    decreases |Of(s.q, SleepList)|
  {
    var l := Of(s.q, SleepList);
    FirstIn(l);
    if l != [] && l[0] in s.left && s.left[l[0]] == 0 {
      var r := Return(s.(q := s.q[SleepList := l[1..]], left := s.left - {l[0]}), l[0], 0);
      WakeOne(s, loose, cur);
      hide Waking, Steady;
      WakeKeeps(r, loose, cur);
      WakesTrans(s, r, Wake(s));
    }
  }

  lemma TickKeeps(s: Sys)
    requires Steady(s, {}, s.cur)
    ensures Steady(Tick(s), {}, s.cur) && Wakes(s, Tick(s)) && Tick(s).cur == s.cur
  {
    WakeKeeps(s.(left := CountDown(s.left)), {}, s.cur);
  }

  // ------------------------------------------------------------------
  // Stopping

  lemma UnblockOne(s: Sys, h: Head, loose: set<nat>)
    requires Steady(s, loose, s.cur) && (h.Senders? || h.Receivers?) && Of(s.q, h) != []
    ensures var l := Of(s.q, h);
      l[0] < N &&
      var r := Return(s.(q := s.q[h := l[1..]]), l[0], SYS_SR_NO_PID);
      Steady(r, loose, s.cur) && Wakes(s, r) && Of(r.q, h) == l[1..]
  {
    var l, x := Of(s.q, h), Of(s.q, h)[0];
    FirstIn(l);
    var p := s.procs[x].(irc := SYS_SR_NO_PID, state := READY);
    var r := Return(s.(q := s.q[h := l[1..]]), x, SYS_SR_NO_PID);
    MoveIs(s, h, s.left, x, SYS_SR_NO_PID);
    assert Belongs(s.procs[x], s.pids, h);
    PlacedMove(s.procs, s.q, s.pids, loose, h, x, p);
    SaneQuiet(s.procs, s.pids, x, p);
    hide Placed, Sane, Sleeping, RemoveOne, Return, Of;
  }

  lemma {:induction false} UnblockKeeps(s: Sys, h: Head, loose: set<nat>)
    requires Steady(s, loose, s.cur) && (h.Senders? || h.Receivers?)
    ensures var r := Unblock(s, h);
      && Steady(r, loose, s.cur) && Wakes(s, r) && r.pids == s.pids && r.cur == s.cur
    decreases |Of(s.q, h)|
  {
    var l := Of(s.q, h);
    FirstIn(l);
    if l != [] {
      var s1 := Return(s.(q := s.q[h := l[1..]]), l[0], SYS_SR_NO_PID);
      UnblockOne(s, h, loose);
      hide Steady;
      UnblockKeeps(s1, h, loose);
      WakesTrans(s, s1, Unblock(s, h));
    }
  }

  /** Without the pid of a process nobody waits for, all others belong where they did. */
  lemma NobodyWaits(s: Sys, c: nat, x: nat)
    requires Placed(s.procs, s.q, s.pids, {}) && Sane(s.procs, s.pids) && c < N && s.procs[c].state.RUNNING?
    requires Of(s.q, Senders(c)) == [] && Of(s.q, Receivers(c)) == [] && x < N && x != c
    ensures Fine(s.procs[x], x, s.pids - {s.procs[c].pid})
    ensures forall h {:trigger Belongs(s.procs[x], s.pids, h)} ::
      Belongs(s.procs[x], s.pids - {s.procs[c].pid}, h) == Belongs(s.procs[x], s.pids, h)
  {
    assert Fine(s.procs[x], x, s.pids) && Fine(s.procs[c], c, s.pids);
    assert !Belongs(s.procs[x], s.pids, Senders(c)) && !Belongs(s.procs[x], s.pids, Receivers(c));
  }

  /** Removing the pid of a process nobody waits for. */
  lemma DropPid(s: Sys)
    requires Steady(s, {}, s.cur) && s.cur >= 0
    requires Of(s.q, Senders(s.cur)) == [] && Of(s.q, Receivers(s.cur)) == []
    ensures var r := Put(s, s.cur, s.procs[s.cur].(state := STOPPED)).(pids := s.pids - {s.procs[s.cur].pid});
      Steady(r, {}, NIL) && Wakes(s, r)
  {
    var c := s.cur as nat;
    var p := s.procs[c].(state := STOPPED);
    forall x: nat | x < N && x != c
      ensures Fine(s.procs[x], x, s.pids - {p.pid})
      ensures forall h {:trigger Belongs(s.procs[x], s.pids, h)} ::
        Belongs(s.procs[x], s.pids - {p.pid}, h) == Belongs(s.procs[x], s.pids, h)
    {
      NobodyWaits(s, c, x);
    }
    DropPlaced(s, c, p);
    DropSane(s, c, p);
    hide Placed, Sane, Sleeping, Fine, Belongs;
  }

  lemma DropPlaced(s: Sys, c: nat, p: Proc)
    requires Placed(s.procs, s.q, s.pids, {}) && c < N && s.procs[c].state.RUNNING? && p.state.STOPPED?
    requires forall x: nat, h {:trigger Belongs(s.procs[x], s.pids, h)} :: x < N && x != c ==>
      Belongs(s.procs[x], s.pids - {p.pid}, h) == Belongs(s.procs[x], s.pids, h)
    ensures Placed(s.procs[c := p], s.q, s.pids - {p.pid}, {})
  {
    var procs', pids' := s.procs[c := p], s.pids - {p.pid};
    assert forall h :: !Belongs(s.procs[c], s.pids, h) && !Belongs(p, pids', h);
    hide Belongs, Distinct;
    forall h, x {:trigger Belongs(procs'[x], pids', h)} | 0 <= x < N && Belongs(procs'[x], pids', h)
      ensures x in Of(s.q, h)
    {
      assert x != c && Belongs(s.procs[x], s.pids, h);
    }
  }

  lemma DropSane(s: Sys, c: nat, p: Proc)
    requires Sane(s.procs, s.pids) && c < N && p == s.procs[c].(state := STOPPED) && !s.procs[c].state.STOPPED?
    requires forall x: nat :: x < N && x != c ==> Fine(s.procs[x], x, s.pids - {p.pid})
    ensures Sane(s.procs[c := p], s.pids - {p.pid})
  {
    var procs' := s.procs[c := p];
    assert Fine(s.procs[c], c, s.pids);
    assert forall a, d :: 0 <= a < N && 0 <= d < N && Missed(procs'[a], procs'[d]) ==> Missed(s.procs[a], s.procs[d]);
  }

  lemma ExitKeeps(s: Sys)
    requires Steady(s, {}, s.cur) && s.cur >= 0
    ensures Steady(Exit(s), {}, NIL) && Wakes(s, Exit(s))
  {
    var c := s.cur as nat;
    var s1 := Unblock(s, Senders(c));
    UnblockFrame(s, Senders(c));
    UnblockKeeps(s, Senders(c), {});
    var s2 := Unblock(s1, Receivers(c));
    UnblockFrame(s1, Receivers(c));
    UnblockKeeps(s1, Receivers(c), {});
    DropPid(s2);
    hide Steady, Unblock;
    WakesTrans(s, s1, s2);
    WakesTrans(s, s2, Exit(s));
  }

  // ------------------------------------------------------------------
  // Creating

  /** The j-th pid after n; the counter wraps around. */
  function Nth(n: nat, j: nat): nat {
    (n + j) % WORD
  }

  /** Some k-th pid from n on is free, the ones before are busy, and k is at most the number of busy ones. */
  lemma {:induction false} NextFreeIs(n: nat, busy: set<nat>) returns (k: nat)
    requires n < WORD && |busy| < WORD
    ensures k <= |busy| && NextFree(n, busy) == Nth(n, k) && NextFree(n, busy) !in busy
    ensures forall j: nat {:trigger Nth(n, j)} :: j < k ==> Nth(n, j) in busy
    decreases |busy|
  {
    if n !in busy {
      k := 0;
    } else {
      var rest, n' := busy - {n}, (n + 1) % WORD;
      assert |rest| == |busy| - 1;
      var k1 := NextFreeIs(n', rest);
      k := k1 + 1;
      forall j: nat {:trigger Nth(n, j)} | j < k
        ensures Nth(n, j) in busy
      {
        if j > 0 {
          Around(n, j);
          assert Nth(n', j - 1) in rest;
        }
      }
      Around(n, k);
      NotItself(n, k);
    }
  }

  lemma Around(n: nat, j: nat)
    requires n < WORD && j >= 1
    ensures Nth((n + 1) % WORD, j - 1) == Nth(n, j)
  {
  }

  lemma NotItself(n: nat, k: nat)
    requires n < WORD && 1 <= k < WORD
    ensures Nth(n, k) != n && Nth(n, 0) == n
  {
  }

  /** The indices below n. */
  function Below(n: nat): (r: set<nat>)
    ensures |r| == n && forall x :: x in r <==> 0 <= x < n
  {
    if n == 0 then {} else Below(n - 1) + {n - 1}
  }

  /** At most N pids are registered. */
  lemma FewPids(s: Sys, loose: set<nat>, cur: int)
    requires Steady(s, loose, cur)
    ensures |s.pids.Keys| <= N
  {
    PidCount(s.pids, s.pids.Keys, Below(N), s.procs);
  }

  lemma {:induction false} PidCount(pids: map<nat, nat>, keys: set<nat>, slots: set<nat>, procs: seq<Proc>)
    requires forall pid :: pid in keys ==>
      pid in pids && pids[pid] in slots && pids[pid] < |procs| && procs[pids[pid]].pid == pid
    ensures |keys| <= |slots|
    decreases |keys|
  {
    if keys != {} {
      var pid :| pid in keys;
      PidCount(pids, keys - {pid}, slots - {pids[pid]}, procs);
    }
  }

  /** getNextPid: the pid is not zero, fits a word and belongs to no process. */
  lemma FreshPid(s: Sys, loose: set<nat>, cur: int)
    requires Steady(s, loose, cur)
    ensures 0 < NextFree(s.nextPid, Busy(s.pids)) < WORD
    ensures NextFree(s.nextPid, Busy(s.pids)) !in s.pids
  {
    hide Steady, NextFree, Nth, Busy;
    FewPids(s, loose, cur);
    NextIsWord(s, loose, cur);
    FewBusy(s.pids);
    var k := NextFreeIs(s.nextPid, Busy(s.pids));
    NthIsWord(s.nextPid, k);
  }

  lemma NextIsWord(s: Sys, loose: set<nat>, cur: int)
    requires Steady(s, loose, cur)
    ensures s.nextPid < WORD
  {
  }

  lemma FewBusy(pids: map<nat, nat>)
    ensures |Busy(pids)| <= |pids.Keys| + 1
    ensures 0 in Busy(pids) && forall pid :: pid in pids ==> pid in Busy(pids)
  {
  }

  lemma NthIsWord(n: nat, k: nat)
    ensures Nth(n, k) < WORD
  {
  }

  lemma ReadyIs(s: Sys, x: nat)
    requires x < |s.procs|
    ensures Ready(s, x) == s.(procs := s.procs[x := s.procs[x].(state := READY)],
                              q := s.q[ReadyQueue := Of(s.q, ReadyQueue) + [x]])
  {
  }

  lemma NewProcess(s: Sys, i: nat, p: Proc)
    requires Steady(s, {}, s.cur) && i < N && s.procs[i].state.STOPPED? && p.state.READY?
    requires 0 < p.pid < WORD && p.pid !in s.pids
    ensures var r := Ready(Put(s, i, p).(pids := s.pids[p.pid := i], nextPid := (p.pid + 1) % WORD), i);
      Steady(r, {}, s.cur) && Wakes(s, r)
  {
    hide Placed, Sane, Sleeping, Ready;
    SteadyShape(s, {}, s.cur);
    var pids', l := s.pids[p.pid := i], Of(s.q, ReadyQueue);
    assert {} + {i} == {i} && {i} - {i} == {};
    PlacedUnlisted(s.procs, s.q, s.pids, {}, i);
    NewPlaced(s, i, p.pid);
    PlacedJoin(s.procs, s.q, pids', {i}, i, p, ReadyQueue, |l|);
    assert l[..|l|] + [i] + l[|l|..] == l + [i];
    NewSane(s, i, p);
    var r := Ready(Put(s, i, p).(pids := pids', nextPid := (p.pid + 1) % WORD), i);
    ReadyIs(Put(s, i, p).(pids := pids', nextPid := (p.pid + 1) % WORD), i);
    assert r.procs == s.procs[i := p] && r.q == s.q[ReadyQueue := l + [i]] && Of(r.q, SleepList) == Of(s.q, SleepList);
  }

  /** Registering another pid changes nothing for those that wait. */
  lemma OtherPid(s: Sys, i: nat, pid: nat, x: nat, h: Head)
    requires Sane(s.procs, s.pids) && pid !in s.pids && i < N && x < N
    ensures Belongs(s.procs[x], s.pids[pid := i], h) == Belongs(s.procs[x], s.pids, h)
    ensures x != i ==> Fine(s.procs[x], x, s.pids[pid := i])
    ensures s.procs[x].state.SENDING? ==> s.procs[x].partner != pid
  {
    assert Fine(s.procs[x], x, s.pids);
  }

  lemma NewPlaced(s: Sys, i: nat, pid: nat)
    requires Placed(s.procs, s.q, s.pids, {i}) && Sane(s.procs, s.pids) && pid !in s.pids && i < N
    ensures Placed(s.procs, s.q, s.pids[pid := i], {i})
  {
    forall x: nat, h
      {:trigger Belongs(s.procs[x], s.pids[pid := i], h)} {:trigger Belongs(s.procs[x], s.pids, h)} | x < N
      ensures Belongs(s.procs[x], s.pids[pid := i], h) == Belongs(s.procs[x], s.pids, h)
    {
      OtherPid(s, i, pid, x, h);
    }
    hide Belongs, Sane, Distinct;
  }

  lemma NewSane(s: Sys, i: nat, p: Proc)
    requires Sane(s.procs, s.pids) && i < N && s.procs[i].state.STOPPED? && p.state.READY?
    requires 0 < p.pid < WORD && p.pid !in s.pids
    ensures Sane(s.procs[i := p], s.pids[p.pid := i])
  {
    var procs' := s.procs[i := p];
    forall x: nat | x < N
      ensures x != i ==> Fine(s.procs[x], x, s.pids[p.pid := i])
      ensures s.procs[x].state.SENDING? ==> s.procs[x].partner != p.pid
    {
      OtherPid(s, i, p.pid, x, ReadyQueue);
    }
    assert forall a, d :: 0 <= a < N && 0 <= d < N && Missed(procs'[a], procs'[d]) ==> Missed(s.procs[a], s.procs[d]);
  }

  lemma SpawnKeeps(s: Sys, parent: nat, memory: bool)
    requires Steady(s, {}, s.cur)
    ensures Steady(Spawn(s, parent, memory).0, {}, s.cur) && Wakes(s, Spawn(s, parent, memory).0)
    ensures Spawn(s, parent, memory).0.cur == s.cur
  {
    var i := Unused(s.procs, 0);
    if memory && i < N {
      FreshPid(s, {}, s.cur);
      var pid := NextFree(s.nextPid, Busy(s.pids));
      hide NextFree, Steady;
      NewProcess(s, i, Proc(pid, parent, READY, 0, 0, [], 0, 0));
    }
  }
}
