/**
 What runs of the kernel guarantee: how long a sleeper sleeps, when a ready process runs,
 in which order senders are accepted, and what a send or receive comes to.
 */
module KernelTheorems {
  import opened Basics
  import opened KernelState
  import opened KernelSteps
  import opened KernelInv
  import opened KernelTurn
  import opened KernelRuns

  // ------------------------------------------------------------------
  // Sleeping

  function Timers(run: seq<Request>): (t: nat)
    ensures t <= |run|
  {
    if run == [] then 0 else (if run[0].Timer? then 1 else 0) + Timers(run[1..])
  }

  /** A number of milliseconds is rounded up to whole time slices. */
  lemma TicksRoundUp(ms: nat)
    ensures 10 * Ticks(ms) >= ms && 10 * Ticks(ms) < ms + 10
  {
  }

  lemma {:induction false} UnblockLeft(s: Sys, h: Head)
    requires (h.Senders? || h.Receivers?) && forall x :: x in Of(s.q, h) ==> x < |s.procs|
    ensures Unblock(s, h).left == s.left
    decreases |Of(s.q, h)|
  {
    var l := Of(s.q, h);
    if l != [] {
      assert l[0] in l && forall x :: x in l[1..] ==> x in l;
      UnblockLeft(Return(s.(q := s.q[h := l[1..]]), l[0], SYS_SR_NO_PID), h);
    }
  }

  /** Until the next tick, nobody's time changes but that of the process falling asleep. */
  lemma LeftKept(s: Sys, e: Request)
    requires Handleable(s) && !e.Timer? && s.cur !in s.left
    ensures forall x :: x in s.left ==> x in Handle(s, e).left && Handle(s, e).left[x] == s.left[x]
  {
    hide Exit, Signal, SendTo, Receive, Spawn, Rank;
    match e
    case Stop => ExitLeft(s);
    case Kill(pid, sig) => SignalLeft(s, pid, sig);
    case Send(dest, buf) => SendLeft(s, dest, buf);
    case Recv(src, buf) => ReceiveLeft(s, src, buf);
    case Create(memory) => SpawnLeft(s, s.procs[s.cur].pid, memory);
    case _ =>
  }

  lemma SignalLeft(s: Sys, pid: nat, sig: int)
    requires Handleable(s)
    ensures Signal(s, pid, sig).left == s.left
  {
    hide Record, Takes, UpTo, PlaceOf, Linked, Ready;
    ReadyKeepsLeft();
  }

  lemma ReadyKeepsLeft()
    ensures forall s: Sys, x: nat {:trigger Ready(s, x)} :: x < |s.procs| ==> Ready(s, x).left == s.left
  {
  }

  lemma SendLeft(s: Sys, dest: nat, buf: seq<byte>)
    requires Handleable(s)
    ensures SendTo(s, dest, buf).left == s.left
  {
    hide RemoveOne;
  }

  lemma ReceiveLeft(s: Sys, src: nat, buf: seq<byte>)
    requires Handleable(s)
    ensures Receive(s, src, buf).left == s.left
  {
    hide RemoveOne;
  }

  lemma SpawnLeft(s: Sys, parent: nat, memory: bool)
    requires Handleable(s)
    ensures Spawn(s, parent, memory).0.left == s.left
  {
    hide NextFree, Unused;
  }

  lemma ExitLeft(s: Sys)
    requires Handleable(s)
    ensures Exit(s).left == s.left
  {
    UnblockLeft(s, Senders(s.cur));
    UnblockFrame(s, Senders(s.cur));
    UnblockLeft(Unblock(s, Senders(s.cur)), Receivers(s.cur));
    hide Unblock;
  }

  lemma ReturnIs(s: Sys, x: nat, irc: int)
    requires x < |s.procs|
    ensures Return(s, x, irc).left == s.left && forall h :: h != ReadyQueue ==> Of(Return(s, x, irc).q, h) == Of(s.q, h)
  {
  }

  /** What waking leaves: those with time left, with the same time. */
  lemma {:induction false} WakeLeft(s: Sys)
    requires Counted(Of(s.q, SleepList), s.left) && Distinct(Of(s.q, SleepList))
    requires forall x :: x in Of(s.q, SleepList) ==> x < |s.procs|
    ensures forall x :: x in Wake(s).left <==> x in s.left && s.left[x] > 0
    ensures forall x :: x in Wake(s).left ==> Wake(s).left[x] == s.left[x]
    decreases |Of(s.q, SleepList)|
  {
    hide Counted, Distinct, Return;
    var l := Of(s.q, SleepList);
    FirstCounted(l, s.left);
    if l != [] && s.left[l[0]] == 0 {
      assert l[0] in l && forall x :: x in l[1..] ==> x in l;
      CountedRest(l, s.left);
      DistinctRest(l);
      var r := s.(q := s.q[SleepList := l[1..]], left := s.left - {l[0]});
      ReturnIs(r, l[0], 0);
      WakeLeft(Return(r, l[0], 0));
    } else {
      assert forall x :: x in s.left ==> s.left[x] > 0 by {
        FirstIsLeast(l, s.left);
      }
    }
  }

  lemma {:induction false} WakeEmpties(s: Sys)
    requires Counted(Of(s.q, SleepList), s.left) && Distinct(Of(s.q, SleepList))
    requires forall x :: x in Of(s.q, SleepList) ==> x < |s.procs|
    ensures Of(Wake(s).q, SleepList) == [] <==> Wake(s).left == map[]
    decreases |Of(s.q, SleepList)|
  {
    hide Counted;
    var l := Of(s.q, SleepList);
    FirstCounted(l, s.left);
    FirstIsLeast(l, s.left);
    if l != [] && s.left[l[0]] == 0 {
      assert l[0] in l && forall x :: x in l[1..] ==> x in l;
      CountedRest(l, s.left);
      WakeEmpties(Return(s.(q := s.q[SleepList := l[1..]], left := s.left - {l[0]}), l[0], 0));
    }
  }

  lemma FirstCounted(l: seq<nat>, left: map<nat, nat>)
    requires Counted(l, left)
    ensures l != [] ==> l[0] in left
  {
  }

  lemma FirstIsLeast(l: seq<nat>, left: map<nat, nat>)
    requires Counted(l, left)
    ensures forall x :: x in left ==> |l| > 0 && left[x] >= left[l[0]]
  {
    forall x | x in left
      ensures |l| > 0 && left[x] >= left[l[0]]
    {
      var i :| 0 <= i < |l| && l[i] == x;
      assert i > 0 ==> left[l[0]] <= left[l[i]];
    }
  }

  /** A tick takes one from everybody's time and wakes exactly those with one left. */
  lemma TickLeft(s: Sys)
    requires Inv(s)
    ensures forall x :: x in Of(s.q, SleepList) ==> x < N
    ensures forall x :: x in Tick(s).left <==> x in s.left && s.left[x] > 1
    ensures forall x :: x in Tick(s).left ==> Tick(s).left[x] == s.left[x] - 1
  {
    var s1 := s.(left := CountDown(s.left));
    WakeLeft(s1);
  }

  /** Somebody sleeps, and all that do wake on the next tick. */
  predicate AllDue(left: map<nat, nat>) {
    left != map[] && forall x :: x in left ==> left[x] == 1
  }

  lemma DueIff(left: map<nat, nat>, left': map<nat, nat>)
    requires forall x :: x in left ==> left[x] >= 1
    requires forall x :: x in left' <==> x in left && left[x] > 1
    ensures left != map[] && left' == map[] <==> AllDue(left)
  {
    assert left' == map[] <==> forall x :: x !in left';
  }

  /**
   When the loop of tick(), as written, reads through a null pointer: it tests the first
   sleeper without asking whether there is one, and after a tick that woke somebody there is
   none exactly if all sleepers had one tick left.
   */
  lemma TickEmptiesIff(s: Sys)
    requires Sleeping(Of(s.q, SleepList), s.left) && Distinct(Of(s.q, SleepList))
    requires forall x :: x in Of(s.q, SleepList) ==> x < |s.procs|
    ensures Of(s.q, SleepList) != [] && Of(Tick(s).q, SleepList) == [] <==> AllDue(s.left)
  {
    var l, s1 := Of(s.q, SleepList), s.(left := CountDown(s.left));
    WakeLeft(s1);
    WakeEmpties(s1);
    hide Wake, Distinct, Ascending;
    assert l != [] <==> s.left != map[] by {
      assert l != [] ==> l[0] in s.left;
    }
    DueIff(s.left, Tick(s).left);
  }

  /** A sleeping process is one with time left. */
  lemma AsleepIff(s: Sys, x: nat)
    requires Inv(s) && x < N
    ensures s.procs[x].state.SLEEPING? <==> x in s.left
  {
    assert Belongs(s.procs[x], s.pids, SleepList) <==> x in Of(s.q, SleepList);
  }

  /** One turn: a sleeper with more than one tick to go, or no tick passing, sleeps on. */
  lemma TurnAsleep(s: Sys, e: Request, x: nat)
    requires Inv(s) && Enabled(s, e) && x < N && s.procs[x].state.SLEEPING?
    ensures x in s.left && s.left[x] >= 1
    ensures e.Timer? && s.left[x] == 1 ==> !Turn(s, e).procs[x].state.SLEEPING?
    ensures !e.Timer? || s.left[x] > 1 ==>
      && Turn(s, e).procs[x].state.SLEEPING? && x in Turn(s, e).left
      && Turn(s, e).left[x] == s.left[x] - if e.Timer? then 1 else 0
  {
    AsleepIff(s, x);
    TurnKeeps(s, e);
    AsleepIff(Turn(s, e), x);
    RunnerAwake(s);
    SelectLeft(s, e);
    if e.Timer? {
      TickLeft(s);
    } else {
      LeftKept(s, e);
    }
  }

  lemma RunnerAwake(s: Sys)
    requires Inv(s) && s.cur >= 0
    ensures s.cur !in s.left
  {
    AsleepIff(s, s.cur);
  }

  lemma SelectLeft(s: Sys, e: Request)
    requires Inv(s) && Enabled(s, e)
    ensures Handleable(s) && Turn(s, e).left == Handle(s, e).left
    ensures e.Timer? ==> (forall x :: x in Of(s.q, SleepList) ==> x < |s.procs|) && Handle(s, e).left == Tick(s).left
  {
    hide Inv, Steady, Tick, Handle;
    TurnKeeps(s, e);
    if e.Timer? {
      TimerIs(s);
    }
  }

  lemma TimerIs(s: Sys)
    requires Handleable(s)
    ensures (forall x :: x in Of(s.q, SleepList) ==> x < |s.procs|) && Handle(s, Timer).left == Tick(s).left
  {
  }

  /** A sleeper with d ticks to go sleeps through every run with fewer ticks. */
  lemma {:induction false} SleepsOn(s: Sys, x: nat, run: seq<Request>)
    requires Inv(s) && x < N && s.procs[x].state.SLEEPING? && Runnable(s, run)
    ensures x in s.left
    ensures Timers(run) < s.left[x] ==>
      && After(s, run).procs[x].state.SLEEPING? && x in After(s, run).left
      && After(s, run).left[x] == s.left[x] - Timers(run)
    decreases |run|
  {
    AsleepIff(s, x);
    if run != [] && Timers(run) < s.left[x] {
      TurnAsleep(s, run[0], x);
      SleepsOn(Turn(s, run[0]), x, run[1..]);
    }
  }

  /** A process in the ready queue, or the one chosen from it. */
  ghost predicate ReadyOrRunning(s: Sys, x: nat) {
    && x < |s.procs|
    && ((s.procs[x].state.READY? && x in Of(s.q, ReadyQueue)) || (s.procs[x].state.RUNNING? && s.cur == x))
  }

  /** The tick that takes a sleeper's last one makes it ready. */
  lemma LastTickReadies(s: Sys, x: nat)
    requires Inv(s) && Enabled(s, Timer) && x < N && s.procs[x].state.SLEEPING? && x in s.left && s.left[x] == 1
    ensures ReadyOrRunning(Turn(s, Timer), x)
  {
    TurnAsleep(s, Timer, x);
    HandleKeeps(s, Timer);
    TurnIs(s, Timer);
    SelectOthers(Handle(s, Timer));
    RunnerAwake(s);
    hide Handle, Select, Turn;
    var t := Turn(s, Timer);
    ReadyListed(t, x);
  }

  lemma ReadyListed(s: Sys, x: nat)
    requires Inv(s) && x < N
    ensures |s.procs| == N && (s.procs[x].state.READY? ==> x in Of(s.q, ReadyQueue))
    ensures (s.procs[x].state.RUNNING? <==> s.cur == x)
  {
    assert Belongs(s.procs[x], s.pids, ReadyQueue) <==> x in Of(s.q, ReadyQueue);
  }

  lemma FallsAsleep(s: Sys, ms: nat)
    requires Inv(s) && Enabled(s, Sleep(ms)) && Ticks(ms) > 0
    ensures var s1 := Turn(s, Sleep(ms));
      s1.procs[s.cur].state.SLEEPING? && s.cur as nat in s1.left && s1.left[s.cur] == Ticks(ms)
  {
    hide Inv, Turn, Ticks, Handle;
    SelectLeft(s, Sleep(ms));
    SleepLeft(s, ms);
    AsleepIff(Turn(s, Sleep(ms)), s.cur);
  }

  lemma SleepLeft(s: Sys, ms: nat)
    requires Handleable(s) && Ticks(ms) > 0
    ensures Handle(s, Sleep(ms)).left == s.left[s.cur as nat := Ticks(ms)]
  {
    hide Ticks, Rank;
  }

  /**
   A process that asks to sleep for `ms` milliseconds is readied on exactly the
   ceil(ms/10)-th later tick: it sleeps through every run with fewer ticks, and the tick
   that completes the number puts it into the ready queue, or makes it run at once.
   */
  lemma SleepIsExact(s: Sys, ms: nat, run: seq<Request>)
    requires Inv(s) && Enabled(s, Sleep(ms)) && Runnable(Turn(s, Sleep(ms)), run)
    ensures var s2 := After(Turn(s, Sleep(ms)), run);
      && (Timers(run) < Ticks(ms) ==> s2.procs[s.cur].state.SLEEPING?)
      && (Timers(run) + 1 == Ticks(ms) && Enabled(s2, Timer) ==> ReadyOrRunning(Turn(s2, Timer), s.cur))
  {
    hide Turn, Inv, Ticks;
    var s1 := Turn(s, Sleep(ms));
    if Timers(run) < Ticks(ms) {
      FallsAsleep(s, ms);
      SleepsOn(s1, s.cur, run);
      if Timers(run) + 1 == Ticks(ms) && Enabled(After(s1, run), Timer) {
        LastTickReadies(After(s1, run), s.cur);
      }
    }
  }

  /** Exactly the first k sleepers have no ticks left. */
  ghost predicate FirstDue(l: seq<nat>, left: map<nat, nat>, k: nat) {
    && Distinct(l) && k <= |l|
    && forall i :: 0 <= i < |l| ==> l[i] in left && (left[l[i]] == 0 <==> i < k)
  }

  /** Sleepers that wake on the same tick are readied in list order, ... */
  lemma {:induction false} WakeOrder(s: Sys, k: nat)
    requires FirstDue(Of(s.q, SleepList), s.left, k) && forall x :: x in Of(s.q, SleepList) ==> x < |s.procs|
    ensures Of(Wake(s).q, ReadyQueue) == Of(s.q, ReadyQueue) + Of(s.q, SleepList)[..k]
    ensures Of(Wake(s).q, SleepList) == Of(s.q, SleepList)[k..]
    decreases k
  {
    var l := Of(s.q, SleepList);
    if k > 0 {
      WakeStep(s, k);
      var r := Return(s.(q := s.q[SleepList := l[1..]], left := s.left - {l[0]}), l[0], 0);
      hide Return, Wake, FirstDue;
      WakeOrder(r, k - 1);
      FrontAndRest(Of(s.q, ReadyQueue), l, k);
    } else {
      assert l != [] ==> s.left[l[0]] > 0;
    }
  }

  lemma FrontAndRest(m: seq<nat>, l: seq<nat>, k: nat)
    requires 1 <= k <= |l|
    ensures m + [l[0]] + l[1..][..k - 1] == m + l[..k] && l[1..][k - 1..] == l[k..]
  {
  }

  lemma WakeStep(s: Sys, k: nat)
    requires FirstDue(Of(s.q, SleepList), s.left, k) && k > 0 && forall x :: x in Of(s.q, SleepList) ==> x < |s.procs|
    ensures var l := Of(s.q, SleepList);
      l[0] < |s.procs| &&
      var r := Return(s.(q := s.q[SleepList := l[1..]], left := s.left - {l[0]}), l[0], 0);
      && Of(r.q, SleepList) == l[1..] && Of(r.q, ReadyQueue) == Of(s.q, ReadyQueue) + [l[0]]
      && (forall x :: x in Of(r.q, SleepList) ==> x < |r.procs|)
      && Wake(s) == Wake(r) && FirstDue(l[1..], r.left, k - 1)
  {
    var l := Of(s.q, SleepList);
    FirstIn(l);
    assert forall x :: x in l[1..] ==> x in l;
  }

  /** ... and a process joins the list behind those that wake no later: ties go by arrival. */
  lemma TiesByArrival(s: Sys, ms: nat)
    requires Inv(s) && s.cur >= 0 && Ticks(ms) > 0
    ensures forall x :: x in Of(s.q, SleepList) ==> x in s.left
    ensures Handleable(s) && var l, l' := Of(s.q, SleepList), Of(FallAsleep(s, ms).q, SleepList);
      exists k :: 0 <= k <= |l| && l' == l[..k] + [s.cur as nat] + l[k..]
        && (forall i :: 0 <= i < k ==> s.left[l[i]] <= Ticks(ms))
        && (forall i :: k <= i < |l| ==> s.left[l[i]] > Ticks(ms))
  {
    hide Inv, Steady, Handleable, Ticks, Rank;
    var l, d := Of(s.q, SleepList), Ticks(ms);
    InvRequests(s);
    SleepersSorted(s);
    var k := Rank(l, s.left, d);
    LaterWakeLater(l, s.left, d);
    assert Of(FallAsleep(s, ms).q, SleepList) == l[..k] + [s.cur as nat] + l[k..];
  }

  lemma SleepersSorted(s: Sys)
    requires Inv(s)
    ensures |s.procs| == N && Ascending(Of(s.q, SleepList), s.left)
    ensures forall x :: x in Of(s.q, SleepList) ==> x in s.left
  {
  }

  lemma LaterWakeLater(l: seq<nat>, left: map<nat, nat>, d: nat)
    requires Ascending(l, left) && forall x :: x in l ==> x in left
    ensures forall i :: Rank(l, left, d) <= i < |l| ==> left[l[i]] > d
  {
    var k := Rank(l, left, d);
    forall i | k <= i < |l|
      ensures left[l[i]] > d
    {
      assert l[k] in l && l[i] in l;
      assert k < i ==> left[l[k]] <= left[l[i]];
    }
  }
}
