/**
 What single requests come to, said in terms of the processes: signals, new processes, and
 what happens to those that wait for one that stops.
 */
module KernelOutcomes {
  import opened Basics
  import opened KernelState
  import opened KernelSteps
  import opened KernelInv
  import opened KernelTurn
  import opened KernelRuns
  import opened KernelTheorems
  import opened KernelSchedule

  function OneAt(k: nat): bv32
    requires k < 32
  {
    1 << k
  }

  /** Bit k of a mask. */
  predicate InMask(mask: bv32, k: nat)
    requires k < 32
  {
    And(mask, OneAt(k)) != 0
  }

  lemma Added(mask: bv32, b: bv32, c: bv32)
    ensures And(b, c) == 0 ==> And(Or(mask, b), c) == And(mask, c)
    ensures And(Or(mask, b), b) == b
  {
  }

  lemma OneBit(i: bv5, k: bv5)
    ensures (1 as bv32) << k != 0
    ensures And((1 as bv32) << i, (1 as bv32) << k) == if i == k then (1 as bv32) << k else 0
  {
  }

  lemma ShiftAmount(k: nat)
    requires k < 32
    ensures OneAt(k) == (1 as bv32) << (k as bv5) && (k as bv5) as int == k
  {
  }

  lemma OneOfTwo(i: nat, k: nat)
    requires i < 32 && k < 32
    ensures OneAt(k) != 0 && (And(OneAt(i), OneAt(k)) == if i == k then OneAt(k) else 0)
  {
    ShiftAmount(i);
    ShiftAmount(k);
    OneBit(i as bv5, k as bv5);
  }

  lemma SigBitIs(sig: nat)
    requires sig < 32
    ensures SigBit(sig) == OneAt(sig)
  {
  }

  lemma TakesIff(p: Proc, sig: nat)
    requires sig < 32
    ensures Takes(p, sig) <==> InMask(p.allowed, sig)
  {
    hide And, SigBit, OneAt;
    SigBitIs(sig);
  }

  /** What signal() records is that one signal, besides those recorded before. */
  lemma RecordBits(p: Proc, sig: nat, k: nat)
    requires sig < 32 && k < 32
    ensures InMask(Record(p, sig).pending, k) <==> k == sig || InMask(p.pending, k)
  {
    hide And, Or, SigBit, OneAt;
    SigBitIs(sig);
    Added(p.pending, OneAt(sig), OneAt(k));
    OneOfTwo(sig, k);
  }

  /** A process that is not stopped has this pid. */
  predicate Lives(s: Sys, t: nat, pid: nat) {
    t < |s.procs| && !s.procs[t].state.STOPPED? && s.procs[t].pid == pid
  }

  /** The signal is allowed, and the process neither ready nor running. */
  predicate Roused(p: Proc, sig: nat)
    requires sig < 32
  {
    InMask(p.allowed, sig) && !p.state.READY? && !p.state.RUNNING?
  }

  /** The state and result of a process that a signal was sent to. */
  predicate Told(p: Proc, p': Proc, sig: nat)
    requires sig < 32
  {
    if Roused(p, sig) then p'.state.READY? && p'.irc == (if p.state.WAITING? then sig else -129)
    else p'.state == p.state && p'.irc == p.irc
  }

  /** Exactly the signals recorded before are, and this one if it is allowed. */
  ghost predicate Recorded(p: Proc, p': Proc, sig: nat)
    requires sig < 32
  {
    forall k: nat {:trigger InMask(p'.pending, k)} :: k < 32 ==>
      (InMask(p'.pending, k) <==> InMask(p.pending, k) || (k == sig && InMask(p.allowed, sig)))
  }

  lemma RecordIsRecorded(p: Proc, p': Proc, sig: nat)
    requires sig < 32 && p'.pending == if Takes(p, sig) then Record(p, sig).pending else p.pending
    ensures Recorded(p, p', sig)
  {
    hide Record, Takes, InMask;
    TakesIff(p, sig);
    forall k: nat | k < 32
      ensures InMask(p'.pending, k) <==> InMask(p.pending, k) || (k == sig && InMask(p.allowed, sig))
    {
      RecordBits(p, sig, k);
    }
  }

  /** signal() on a process that takes it, case by case. */
  lemma SignalToIs(s: Sys, t: nat, sig: nat)
    requires t < |s.procs| && sig < 32 && !s.procs[t].state.STOPPED? && !s.procs[t].state.RUNNING?
    requires Queued(s.procs[t]) ==> PlaceOf(s.procs[t], s.pids) != ReadyQueue
    ensures var a, r := s.procs[t], SignalTo(s, t, sig);
      var b := Record(a, sig);
      && r.procs == s.procs[t := if a.state.READY? then b
                                 else b.(irc := if a.state.WAITING? then sig else -129, state := READY)]
      && r.cur == s.cur && Of(r.q, ReadyQueue) == Of(s.q, ReadyQueue) + if a.state.READY? then [] else [t]
  {
    hide Record, UpTo;
    CutProcs(Put(s, t, Record(s.procs[t], sig)), t);
    if s.procs[t].state.READY? {
      assert Of(s.q, ReadyQueue) + [] == Of(s.q, ReadyQueue);
    } else {
      CutReady(Put(s, t, Record(s.procs[t], sig)), t);
      hide CutAfter;
    }
  }

  lemma CutReady(s: Sys, t: nat)
    requires t < |s.procs| && (Queued(s.procs[t]) ==> PlaceOf(s.procs[t], s.pids) != ReadyQueue)
    ensures Of(CutAfter(s, t).q, ReadyQueue) == Of(s.q, ReadyQueue)
  {
    hide UpTo, PlaceOf, Linked;
  }

  /**
   A signal to a live process is recorded exactly if that process allows it, and makes it
   ready exactly if it is blocked; nothing else about it changes, nor about any other.
   */
  lemma SignalOutcome(s: Sys, t: nat, pid: nat, sig: nat)
    requires Inv(s) && s.cur >= 0 && Lives(s, t, pid) && t != s.cur && sig < 32
    ensures Handleable(s)
    ensures var p, r := s.cur as nat, Signal(s, pid, sig);
      && r.procs[p] == s.procs[p].(irc := 0, state := READY)
      && (forall x :: 0 <= x < N && x != p && x != t ==> r.procs[x] == s.procs[x])
      && (var a, b := s.procs[t], r.procs[t];
          && b == a.(pending := b.pending, state := b.state, irc := b.irc) && Recorded(a, b, sig) && Told(a, b, sig)
          && (!InMask(a.allowed, sig) ==> b == a))
      && Of(r.q, ReadyQueue) == Of(s.q, ReadyQueue) + (if Roused(s.procs[t], sig) then [t] else []) + [p]
  {
    hide Steady, Record, Takes, InMask, Recorded, SignalTo, Queued, PlaceOf;
    InvHandleable(s);
    LookupIs(s, t, pid);
    RunnerLive(s);
    OnlyRunner(s, t);
    TakesIff(s.procs[t], sig);
    SignalToIs(s, t, sig);
    RecordIsRecorded(s.procs[t], Signal(s, pid, sig).procs[t], sig);
  }

  lemma OnlyRunner(s: Sys, t: nat)
    requires Inv(s) && t < N && t != s.cur
    ensures |s.procs| == N && !s.procs[t].state.RUNNING?
    ensures Queued(s.procs[t]) ==> PlaceOf(s.procs[t], s.pids) != ReadyQueue
  {
    assert Fine(s.procs[t], t, s.pids);
  }

  /** A process that signals itself only has the signal recorded. */
  lemma SelfSignalOutcome(s: Sys, sig: nat)
    requires Inv(s) && s.cur >= 0 && sig < 32
    ensures Handleable(s)
    ensures var p, r := s.cur as nat, Signal(s, s.procs[s.cur].pid, sig);
      && (forall x :: 0 <= x < N && x != p ==> r.procs[x] == s.procs[x])
      && r.procs[p] == s.procs[p].(pending := r.procs[p].pending, irc := 0, state := READY)
      && Recorded(s.procs[p], r.procs[p], sig)
  {
    hide Steady, Record, Takes, InMask, UpTo, PlaceOf, Recorded;
    InvHandleable(s);
    RunnerLive(s);
    LookupIs(s, s.cur, s.procs[s.cur].pid);
    RecordIsRecorded(s.procs[s.cur], Signal(s, s.procs[s.cur].pid, sig).procs[s.cur], sig);
  }

  /** A bad signal number, or else a pid that no process has, only gives the caller an error code. */
  lemma SignalFails(s: Sys, pid: nat, sig: int)
    requires Inv(s) && s.cur >= 0
    requires (0 <= sig < 32) ==> forall t: nat :: !Lives(s, t, pid)
    ensures Handleable(s)
    ensures var p := s.cur as nat;
      Signal(s, pid, sig) ==
        s.(procs := s.procs[p := s.procs[p].(irc := if 0 <= sig < 32 then -33 else -12, state := READY)],
           q := s.q[ReadyQueue := Of(s.q, ReadyQueue) + [p]])
  {
    hide Steady, Record, Takes, SignalTo;
    InvHandleable(s);
    RunnerLive(s);
    PidsLive(s, pid);
  }

  lemma PidsLive(s: Sys, pid: nat)
    requires Inv(s)
    ensures pid in s.pids <==> exists t: nat :: Lives(s, t, pid)
  {
    hide Placed, Sleeping, OneRuns;
    if pid in s.pids {
      assert Lives(s, s.pids[pid], pid);
    }
    if t: nat :| Lives(s, t, pid) {
      assert Fine(s.procs[t], t, s.pids);
    }
  }

  // ------------------------------------------------------------------
  // Creating and stopping

  /** As create() leaves it: ready, with nothing pending, allowed or asked for. */
  predicate New(p: Proc, pid: nat, parent: nat) {
    && p.pid == pid && p.parent == parent && p.state.READY? && p.irc == 0
    && p.allowed == 0 && p.pending == 0 && p.partner == 0 && p.buf == []
  }

  /** A pid that create() does not give out: 0, or that of a live process. */
  ghost predicate Taken(s: Sys, pid: nat) {
    pid == 0 || exists t: nat :: Lives(s, t, pid)
  }

  lemma TakenIff(s: Sys, pid: nat)
    requires Inv(s)
    ensures Taken(s, pid) <==> pid in Busy(s.pids)
  {
    hide Inv, Lives;
    PidsLive(s, pid);
  }

  /** No process before the i-th is stopped, but that one is. */
  predicate FirstStopped(s: Sys, i: nat) {
    i < |s.procs| && s.procs[i].state.STOPPED? && forall j :: 0 <= j < i ==> !s.procs[j].state.STOPPED?
  }

  /**
   A create takes the first stopped entry and gives it the first pid from nextPid on, modulo
   2^32, that is not 0 and that nobody has; the next search starts behind it.
   */
  lemma CreateOutcome(s: Sys, i: nat) returns (pid: nat, k: nat)
    requires Inv(s) && s.cur >= 0 && FirstStopped(s, i)
    ensures Handleable(s) && 0 < pid < WORD && pid == Nth(s.nextPid, k)
    ensures !Taken(s, pid)
    ensures forall j: nat :: j < k ==> Taken(s, Nth(s.nextPid, j))
    ensures var p, r := s.cur as nat, Handle(s, Create(true));
      && New(r.procs[i], pid, s.procs[p].pid) && r.nextPid == (pid + 1) % WORD
      && r.procs[p] == s.procs[p].(irc := pid, state := READY)
      && (forall x :: 0 <= x < N && x != p && x != i ==> r.procs[x] == s.procs[x])
      && Of(r.q, ReadyQueue) == Of(s.q, ReadyQueue) + [i, p]
  {
    hide Steady, NextFree, Taken, Busy, Nth, New, Return, Spawn;
    InvHandleable(s);
    RunnerLive(s);
    pid, k := FirstFreePid(s);
    SpawnAt(s, s.procs[s.cur].pid, i);
    NewIs(pid, s.procs[s.cur].pid);
    ReturnAdds(Spawn(s, s.procs[s.cur].pid, true).0, s.cur, pid);
    assert Of(s.q, ReadyQueue) + [i] + [s.cur as nat] == Of(s.q, ReadyQueue) + [i, s.cur as nat];
  }

  lemma NewIs(pid: nat, parent: nat)
    ensures New(Proc(pid, parent, READY, 0, 0, [], 0, 0), pid, parent)
  {
  }

  lemma ReturnAdds(s: Sys, x: nat, irc: int)
    requires x < |s.procs|
    ensures var r := Return(s, x, irc);
      && r.procs == s.procs[x := s.procs[x].(irc := irc, state := READY)] && r.nextPid == s.nextPid
      && Of(r.q, ReadyQueue) == Of(s.q, ReadyQueue) + [x]
  {
  }

  lemma FirstUnused(s: Sys, i: nat)
    requires FirstStopped(s, i)
    ensures Unused(s.procs, 0) == i
  {
  }

  lemma SpawnAt(s: Sys, parent: nat, i: nat)
    requires FirstStopped(s, i)
    ensures var (r, pid) := Spawn(s, parent, true);
      && pid == NextFree(s.nextPid, Busy(s.pids)) && r.nextPid == (pid + 1) % WORD && r.cur == s.cur
      && r.procs == s.procs[i := Proc(pid, parent, READY, 0, 0, [], 0, 0)]
      && Of(r.q, ReadyQueue) == Of(s.q, ReadyQueue) + [i]
  {
    FirstUnused(s, i);
    hide NextFree, Unused, Busy;
  }

  lemma FirstFreePid(s: Sys) returns (pid: nat, k: nat)
    requires Inv(s)
    ensures pid == NextFree(s.nextPid, Busy(s.pids)) && 0 < pid < WORD && pid == Nth(s.nextPid, k)
    ensures !Taken(s, pid)
    ensures forall j: nat :: j < k ==> Taken(s, Nth(s.nextPid, j))
  {
    hide NextFree, Taken, Busy, Placed, Sane, Sleeping, OneRuns, Nth;
    pid := NextFree(s.nextPid, Busy(s.pids));
    FreshPid(s, {}, s.cur);
    TakenIff(s, pid);
    FewPids(s, {}, s.cur);
    FewBusy(s.pids);
    k := NextFreeIs(s.nextPid, Busy(s.pids));
    forall j: nat | j < k
      ensures Taken(s, Nth(s.nextPid, j))
    {
      TakenIff(s, Nth(s.nextPid, j));
    }
  }

  /** Without memory, or with all entries in use, a create only returns the error code. */
  lemma CreateFails(s: Sys, memory: bool)
    requires Inv(s) && s.cur >= 0 && (!memory || forall i :: 0 <= i < N ==> !s.procs[i].state.STOPPED?)
    ensures Handleable(s)
    ensures var p := s.cur as nat;
      Handle(s, Create(memory)) ==
        s.(procs := s.procs[p := s.procs[p].(irc := SYSERR, state := READY)],
           q := s.q[ReadyQueue := Of(s.q, ReadyQueue) + [p]])
  {
    InvHandleable(s);
    RunnerLive(s);
    hide Inv, Steady, NextFree;
  }

  lemma ReturnOne(s: Sys, h: Head, l: seq<nat>, left: map<nat, nat>, x: nat, irc: int)
    requires h != ReadyQueue && x < |s.procs|
    ensures var r := Return(s.(q := s.q[h := l], left := left), x, irc);
      && r.procs == s.procs[x := s.procs[x].(irc := irc, state := READY)] && r.cur == s.cur
      && r.left == left && r.pids == s.pids && Of(r.q, h) == l
      && Of(r.q, ReadyQueue) == Of(s.q, ReadyQueue) + [x]
      && forall g :: g != h && g != ReadyQueue ==> Of(r.q, g) == Of(s.q, g)
  {
  }

  function Returned(p: Proc, irc: int): Proc {
    p.(irc := irc, state := READY)
  }

  /** Those in xs returned with irc, and nobody else changed. */
  ghost predicate AllReturned(procs: seq<Proc>, procs': seq<Proc>, xs: set<nat>, irc: int) {
    && |procs'| == |procs|
    && forall x :: 0 <= x < |procs| ==> procs'[x] == if x in xs then Returned(procs[x], irc) else procs[x]
  }

  lemma OneMore(procs: seq<Proc>, procs': seq<Proc>, x: nat, xs: set<nat>, irc: int)
    requires x < |procs| && AllReturned(procs[x := Returned(procs[x], irc)], procs', xs, irc)
    ensures AllReturned(procs, procs', xs + {x}, irc)
  {
  }

  lemma NoneReturned(procs: seq<Proc>, irc: int)
    ensures AllReturned(procs, procs, {}, irc)
  {
  }

  function Members(l: seq<nat>): set<nat> {
    set x | x in l
  }

  lemma {:induction false} UnblockIs(s: Sys, h: Head)
    requires h != ReadyQueue && forall x :: x in Of(s.q, h) ==> x < |s.procs|
    ensures var r := Unblock(s, h);
      && AllReturned(s.procs, r.procs, Members(Of(s.q, h)), SYS_SR_NO_PID)
      && Of(r.q, ReadyQueue) == Of(s.q, ReadyQueue) + Of(s.q, h) && r.cur == s.cur && r.pids == s.pids
    decreases |Of(s.q, h)|
  {
    hide Return, Of, AllReturned;
    var l := Of(s.q, h);
    NoneReturned(s.procs, SYS_SR_NO_PID);
    if l != [] {
      assert l[0] in l && forall x :: x in l[1..] ==> x in l;
      var s1 := Return(s.(q := s.q[h := l[1..]]), l[0], SYS_SR_NO_PID);
      ReturnOne(s, h, l[1..], s.left, l[0], SYS_SR_NO_PID);
      UnblockIs(s1, h);
      OneMore(s.procs, Unblock(s, h).procs, l[0], Members(l[1..]), SYS_SR_NO_PID);
      assert Members(l[1..]) + {l[0]} == Members(l);
      assert Of(s.q, ReadyQueue) + [l[0]] + l[1..] == Of(s.q, ReadyQueue) + l;
    } else {
      assert Members(l) == {};
      assert Of(s.q, ReadyQueue) + l == Of(s.q, ReadyQueue);
    }
  }

  /** Waits to send to, or to receive from, the process with this pid. */
  predicate WaitsFor(p: Proc, pid: nat) {
    (p.state.SENDING? || (p.state.RECEIVING? && p.partner != 0)) && p.partner == pid
  }

  lemma WaitersAre(s: Sys, x: nat)
    requires Inv(s) && s.cur >= 0 && x < N
    ensures |s.procs| == N && s.cur < N && s.procs[s.cur].pid in s.pids
    ensures WaitsFor(s.procs[x], s.procs[s.cur].pid) <==> x in Of(s.q, Senders(s.cur)) || x in Of(s.q, Receivers(s.cur))
  {
    hide Sleeping;
    RunnerLive(s);
    assert Fine(s.procs[s.cur], s.cur, s.pids) && Fine(s.procs[x], x, s.pids);
    assert Belongs(s.procs[x], s.pids, Senders(s.cur)) <==> x in Of(s.q, Senders(s.cur));
    assert Belongs(s.procs[x], s.pids, Receivers(s.cur)) <==> x in Of(s.q, Receivers(s.cur));
  }

  /**
   When a process stops, exactly those that wait to send to it or to receive from it are made
   ready with the error code, senders first, each in order of arrival; its pid is nobody's.
   */
  lemma StopOutcome(s: Sys)
    requires Inv(s) && s.cur >= 0
    ensures Handleable(s)
    ensures var p, r := s.cur as nat, Handle(s, Stop);
      && r.procs[p] == s.procs[p].(state := STOPPED) && s.procs[p].pid !in r.pids
      && (forall x :: 0 <= x < N && x != p ==>
           r.procs[x] == if WaitsFor(s.procs[x], s.procs[p].pid) then Returned(s.procs[x], SYS_SR_NO_PID)
                         else s.procs[x])
      && Of(r.q, ReadyQueue) == Of(s.q, ReadyQueue) + Of(s.q, Senders(p)) + Of(s.q, Receivers(p))
  {
    hide Steady, Unblock, Of, WaitsFor;
    InvHandleable(s);
    RunnerLive(s);
    var p := s.cur as nat;
    var s1 := Unblock(s, Senders(p));
    UnblockIs(s, Senders(p));
    UnblockFrame(s, Senders(p));
    UnblockIs(s1, Receivers(p));
    forall x: nat | x < N
      ensures WaitsFor(s.procs[x], s.procs[p].pid) <==> x in Of(s.q, Senders(p)) || x in Of(s.q, Receivers(p))
    {
      WaitersAre(s, x);
    }
    NotWaiting(s);
  }

  lemma NotWaiting(s: Sys)
    requires Inv(s) && s.cur >= 0
    ensures |s.procs| == N && s.cur < N && !WaitsFor(s.procs[s.cur], s.procs[s.cur].pid)
  {
  }

  // ------------------------------------------------------------------
  // Ticks

  function Due(left: map<nat, nat>): set<nat> {
    set x | x in left && left[x] == 0
  }

  lemma {:induction false} WakeIs(s: Sys)
    requires Counted(Of(s.q, SleepList), s.left) && Distinct(Of(s.q, SleepList))
    requires forall x :: x in Of(s.q, SleepList) ==> x < |s.procs|
    ensures AllReturned(s.procs, Wake(s).procs, Due(s.left), 0) && Wake(s).cur == s.cur
    decreases |Of(s.q, SleepList)|
  {
    hide Counted, Distinct, Return, Of, AllReturned;
    var l := Of(s.q, SleepList);
    FirstCounted(l, s.left);
    FirstIsLeast(l, s.left);
    if l != [] && s.left[l[0]] == 0 {
      assert l[0] in l && forall x :: x in l[1..] ==> x in l;
      CountedRest(l, s.left);
      DistinctRest(l);
      ReturnOne(s, SleepList, l[1..], s.left - {l[0]}, l[0], 0);
      WakeIs(Return(s.(q := s.q[SleepList := l[1..]], left := s.left - {l[0]}), l[0], 0));
      OneMore(s.procs, Wake(s).procs, l[0], Due(s.left - {l[0]}), 0);
      assert Due(s.left - {l[0]}) + {l[0]} == Due(s.left);
    } else {
      assert Due(s.left) == {};
      NoneReturned(s.procs, 0);
    }
  }

  /** A tick makes those ready that have one tick left, with result 0, and changes no other process. */
  lemma TickOutcome(s: Sys)
    requires Inv(s) && s.cur >= 0
    ensures Handleable(s)
    ensures var r := Handle(s, Timer);
      && r.procs[s.cur] == s.procs[s.cur].(state := READY)
      && forall x :: 0 <= x < N && x != s.cur ==>
           r.procs[x] == if x in s.left && s.left[x] == 1 then Returned(s.procs[x], 0) else s.procs[x]
  {
    hide Steady, Wake, Counted, Distinct, Due, CountDown, Of;
    InvHandleable(s);
    RunnerLive(s);
    RunnerAwake(s);
    SleepersCounted(s);
    DueNext(s.left);
    WakeIs(s.(left := CountDown(s.left)));
    TimerIsWake(s);
  }

  lemma TimerIsWake(s: Sys)
    requires Handleable(s)
    ensures (forall x :: x in Of(s.q, SleepList) ==> x < |s.procs|)
    ensures var r := Wake(s.(left := CountDown(s.left)));
      Handle(s, Timer).procs == r.procs[s.cur := r.procs[s.cur].(state := READY)]
  {
    hide Wake, CountDown;
  }

  lemma DueNext(left: map<nat, nat>)
    requires forall x :: x in left ==> left[x] >= 1
    ensures forall x :: x in Due(CountDown(left)) <==> x in left && left[x] == 1
  {
  }

  lemma SleepersCounted(s: Sys)
    requires Inv(s)
    ensures var l := Of(s.q, SleepList);
      && Counted(l, CountDown(s.left)) && Distinct(l)
      && (forall x :: x in l ==> x < N) && forall x :: x in s.left ==> s.left[x] >= 1
  {
  }
}
