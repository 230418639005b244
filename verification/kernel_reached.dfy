/**
 States in which the kernel, as written, goes wrong, and the runs from booting that reach
 them: a signal to a process blocked in a list, and a tick after which nobody sleeps.
 */
module KernelReached {
  import opened Basics
  import opened KernelState
  import opened KernelSteps
  import opened KernelInv
  import opened KernelTurn
  import opened KernelRuns
  import opened KernelTheorems
  import opened KernelSchedule

  // ------------------------------------------------------------------
  // Turns

  lemma PidIs(s: Sys, x: nat)
    requires Inv(s) && x < N && !s.procs[x].state.STOPPED?
    ensures s.procs[x].pid in s.pids && s.pids[s.procs[x].pid] == x && |s.procs| == N
  {
    assert Fine(s.procs[x], x, s.pids);
  }

  // ------------------------------------------------------------------
  // Signals to blocked processes

  /** A request that blocks the process in a list leaves it where a signal it takes would find it. */
  lemma BlockedTrapped(s: Sys, e: Request, sig: nat)
    requires Inv(s) && Enabled(s, e) && !e.Keyboard? && sig < 32 && Takes(s.procs[s.cur], sig)
    requires Handleable(s)
    requires var p, p' := s.procs[s.cur], Handle(s, e).procs[s.cur];
      Queued(p') && p'.pid == p.pid && p'.allowed == p.allowed
    ensures Queued(Turn(s, e).procs[s.cur]) && Trapped(Turn(s, e), s.procs[s.cur].pid, sig)
  {
    hide Inv, Handle, Turn, Steady, Handleable;
    var x, r, t := s.cur as nat, Handle(s, e), Turn(s, e);
    TurnIs(s, e);
    SelectOthers(r);
    hide Select;
    NotChosen(r, x);
    PidIs(t, x);
  }

  /** So does sleeping, ... */
  lemma SleeperTrapped(s: Sys, ms: nat, sig: nat)
    requires Inv(s) && Enabled(s, Sleep(ms)) && ms > 0 && sig < 32 && Takes(s.procs[s.cur], sig)
    ensures Queued(Turn(s, Sleep(ms)).procs[s.cur])
    ensures Trapped(Turn(s, Sleep(ms)), s.procs[s.cur].pid, sig)
  {
    InvHandleable(s);
    AsleepProc(s, ms);
    hide Inv, Turn, Handle, Takes;
    BlockedTrapped(s, Sleep(ms), sig);
  }

  lemma AsleepProc(s: Sys, ms: nat)
    requires Handleable(s) && ms > 0
    ensures Handle(s, Sleep(ms)).procs[s.cur] == s.procs[s.cur].(state := SLEEPING)
  {
    TicksRoundUp(ms);
    hide Ticks, Rank;
  }

  /** ... and so does a send that finds no receiver. */
  lemma SenderTrapped(s: Sys, d: nat, buf: seq<byte>, sig: nat)
    requires Inv(s) && s.cur >= 0 && d < N && d != s.cur && !s.procs[d].state.STOPPED?
    requires Enabled(s, Send(s.procs[d].pid, buf)) && !Awaits(s.procs[d], s.procs[s.cur].pid)
    requires sig < 32 && Takes(s.procs[s.cur], sig)
    ensures var t := Turn(s, Send(s.procs[d].pid, buf));
      Queued(t.procs[s.cur]) && Trapped(t, s.procs[s.cur].pid, sig)
  {
    SendOutcome(s, d, buf);
    InvHandleable(s);
    SendIs(s, s.procs[d].pid, buf);
    hide Inv, Turn, Handle, Takes, SendTo;
    BlockedTrapped(s, Send(s.procs[d].pid, buf), sig);
  }

  lemma SendIs(s: Sys, dest: nat, buf: seq<byte>)
    requires Handleable(s)
    ensures Handle(s, Send(dest, buf)) == SendTo(s, dest, buf)
  {
  }

  // ------------------------------------------------------------------
  // From booting on

  /** What a run of the first processes needs to be followed by. */
  ghost predicate At(s: Sys, cur: nat, ready: seq<nat>) {
    Inv(s) && s.cur == cur && s.idle >= 0 && cur != s.idle && Of(s.q, ReadyQueue) == ready
  }

  lemma SelectFirst(r: Sys, a: nat, rest: seq<nat>)
    requires Steady(r, {}, NIL) && IdleReady(r.procs, r.idle) && Of(r.q, ReadyQueue) == [a] + rest && a != r.idle
    ensures forall y :: y in Of(r.q, ReadyQueue) ==> y < N
    ensures Select(r).cur == a && Of(Select(r).q, ReadyQueue) == rest
  {
    ReadyBelow(r);
    assert Of(r.q, ReadyQueue)[0] == a && Of(r.q, ReadyQueue)[1..] == rest;
  }

  lemma SelectSecond(r: Sys, i: nat, a: nat, rest: seq<nat>)
    requires Steady(r, {}, NIL) && IdleReady(r.procs, r.idle) && Of(r.q, ReadyQueue) == [i, a] + rest && i == r.idle
    ensures forall y :: y in Of(r.q, ReadyQueue) ==> y < N
    ensures Select(r).cur == a && Of(Select(r).q, ReadyQueue) == rest + [i]
  {
    ReadyBelow(r);
    RotateIs(r);
    assert Of(r.q, ReadyQueue)[2..] == rest;
  }

  /** The idle process is first: the second runs, and idle goes last. */
  lemma SecondRuns(s: Sys, e: Request, a: nat, rest: seq<nat>)
    requires Inv(s) && Enabled(s, e) && !e.Keyboard? && Handleable(s) && s.idle >= 0
    requires Handle(s, e).idle == s.idle && Of(Handle(s, e).q, ReadyQueue) == [s.idle as nat, a] + rest
    ensures Turn(s, e).cur == a && Of(Turn(s, e).q, ReadyQueue) == rest + [s.idle as nat] && Kept(s, e)
  {
    hide Inv, Steady, Turn, Select, Handle, Handleable;
    TurnIs(s, e);
    SelectSecond(Handle(s, e), s.idle, a, rest);
    SelectOthers(Handle(s, e));
  }

  lemma FirstRuns(s: Sys, e: Request, a: nat, rest: seq<nat>)
    requires Inv(s) && Enabled(s, e) && !e.Keyboard? && Handleable(s) && s.idle >= 0
    requires Handle(s, e).idle == s.idle && Of(Handle(s, e).q, ReadyQueue) == [a] + rest && a != s.idle
    ensures Turn(s, e).cur == a && Of(Turn(s, e).q, ReadyQueue) == rest && Kept(s, e)
  {
    hide Inv, Steady, Turn, Select, Handle, Handleable;
    TurnIs(s, e);
    SelectFirst(Handle(s, e), a, rest);
    SelectOthers(Handle(s, e));
  }

  /** What the choice of the next process leaves of a request. */
  ghost predicate Kept(s: Sys, e: Request)
    requires Inv(s) && Enabled(s, e) && Handleable(s)
  {
    var r, t := Handle(s, e), Turn(s, e);
    && t.idle == s.idle && t.left == r.left && |t.procs| == N
    && forall y :: 0 <= y < N ==> t.procs[y].(state := RUNNING) == r.procs[y].(state := RUNNING)
  }

  lemma Handles(s: Sys, e: Request)
    requires Handleable(s)
    ensures e.Plain? ==> var r := Handle(s, e);
      && r.idle == s.idle && Of(r.q, ReadyQueue) == Of(s.q, ReadyQueue) + [s.cur as nat]
      && r.procs[s.cur].allowed == e.allowed && r.procs[s.cur].pid == s.procs[s.cur].pid
    ensures e.Yield? ==> var r := Handle(s, e);
      && r.idle == s.idle && Of(r.q, ReadyQueue) == Of(s.q, ReadyQueue) + [s.cur as nat]
      && forall y :: 0 <= y < N ==> r.procs[y].(state := RUNNING) == s.procs[y].(state := RUNNING)
  {
  }

  /** Creating a process puts it in the ready queue before its parent. */
  lemma Creates(s: Sys, x: nat) returns (c: nat)
    requires Inv(s) && s.cur >= 0 && x < N && s.procs[x].state.STOPPED? && Handleable(s)
    ensures c < N && s.procs[c].state.STOPPED?
    ensures var r := Handle(s, Create(true));
      && r.idle == s.idle && Of(r.q, ReadyQueue) == Of(s.q, ReadyQueue) + [c] + [s.cur as nat]
      && r.procs[s.cur].allowed == s.procs[s.cur].allowed
  {
    c := Unused(s.procs, 0);
    hide NextFree;
  }

  /** Booting makes two processes, root and idle. */
  lemma BootIs()
    ensures var b := Boot();
      && |b.procs| == N && b.idle == 1 && Of(b.q, ReadyQueue) == [0, 1] && b.left == map[]
      && b.procs[0].state.READY? && b.procs[2].state.STOPPED?
      && b.pids == map[1 := 0, 2 := 1] && forall x :: 2 <= x < N ==> b.procs[x].state.STOPPED?
  {
    var s0 := Empty();
    SpawnFirst(s0, 0, 1);
    var s1 := Spawn(s0, 0, true).0;
    SpawnFirst(s1, 1, 2);
    hide Spawn, Empty;
  }

  lemma SpawnFirst(s: Sys, i: nat, pid: nat)
    requires i < |s.procs| && s.procs[i].state.STOPPED? && (forall j :: 0 <= j < i ==> !s.procs[j].state.STOPPED?)
    requires s.nextPid == pid && pid > 0 && pid !in s.pids
    ensures Spawn(s, 0, true).1 == pid && Spawn(s, 0, true).0.pids == s.pids[pid := i]
    ensures var r := Spawn(s, 0, true).0;
      && r.procs == s.procs[i := Proc(pid, 0, READY, 0, 0, [], 0, 0)] && r.nextPid == (pid + 1) % WORD
      && Of(r.q, ReadyQueue) == Of(s.q, ReadyQueue) + [i] && r.left == s.left
  {
    assert Unused(s.procs, 0) == i;
  }

  lemma BootedIs()
    ensures var s := Booted();
      && s.cur == 0 && s.idle == 1 && Of(s.q, ReadyQueue) == [1] && s.left == map[] && s.procs[2].state.STOPPED?
      && s.pids == map[1 := 0, 2 := 1] && forall x :: 2 <= x < N ==> s.procs[x].state.STOPPED?
  {
    BootInv();
    BootIs();
    hide Boot, Steady;
    assert Of(Boot().q, ReadyQueue) == [0] + [1];
    SelectFirst(Boot(), 0, [1]);
    SelectOthers(Boot());
  }

  /** Asleep at last: only the ready queue and the sleeper change. */
  lemma SleepHandled(s: Sys, ms: nat)
    requires Handleable(s) && ms > 0
    ensures Handle(s, Sleep(ms)).idle == s.idle && Of(Handle(s, Sleep(ms)).q, ReadyQueue) == Of(s.q, ReadyQueue)
    ensures Handle(s, Sleep(ms)).left == s.left[s.cur as nat := Ticks(ms)]
  {
    TicksRoundUp(ms);
    hide Rank;
  }

  /** If only idle is left to run and nobody slept, one process asleep is due on its last tick. */
  lemma LoneSleeper(s: Sys)
    requires Inv(s) && Enabled(s, Sleep(10)) && s.idle >= 0 && Of(s.q, ReadyQueue) == [s.idle as nat] && s.left == map[]
    ensures Turn(s, Sleep(10)).cur == s.idle && Turn(s, Sleep(10)).idle == s.idle && AllDue(Turn(s, Sleep(10)).left)
  {
    InvHandleable(s);
    SleepHandled(s, 10);
    OneTick();
    hide Inv, Turn, Handle, Handleable, Select, Steady, Ticks;
    TurnIs(s, Sleep(10));
    SelectLone(Handle(s, Sleep(10)), s.idle);
    SelectOthers(Handle(s, Sleep(10)));
    OneDue(s.cur, Turn(s, Sleep(10)).left);
  }

  lemma OneDue(x: nat, left: map<nat, nat>)
    requires left == map[x := 1]
    ensures AllDue(left)
  {
    assert x in left;
  }

  lemma OneTick()
    ensures Ticks(10) == 1
  {
  }

  lemma RunOne(s: Sys, e: Request)
    requires Inv(s) && Enabled(s, e)
    ensures Runnable(s, [e]) && After(s, [e]) == Turn(s, e)
  {
    hide Inv, Turn, Enabled;
    assert [e][1..] == [];
  }

  /**
   The first process sleeps for one time slice, and the next tick is such that the loop of
   tick(), as written, reads through a null pointer.
   */
  lemma NullReadReached()
    ensures Runnable(Booted(), [Sleep(10)])
    ensures var s := After(Booted(), [Sleep(10)]); Enabled(s, Timer) && AllDue(s.left)
  {
    BootedIs();
    hide Inv, Booted, Turn;
    RunOne(Booted(), Sleep(10));
    LoneSleeper(Booted());
    TurnIs(Booted(), Sleep(10));
    CurBelow(Turn(Booted(), Sleep(10)));
  }

  lemma CurBelow(s: Sys)
    requires Inv(s)
    ensures s.cur < N
  {
  }

  lemma SelectLone(r: Sys, a: nat)
    requires Steady(r, {}, NIL) && Of(r.q, ReadyQueue) == [a]
    ensures (forall y :: y in Of(r.q, ReadyQueue) ==> y < N) && |r.procs| == N && Select(r).cur == a
  {
    ReadyBelow(r);
  }

  lemma RunMore(s: Sys, e: Request, run: seq<Request>)
    requires Inv(s) && Enabled(s, e) && Runnable(Turn(s, e), run)
    ensures Runnable(s, [e] + run) && After(s, [e] + run) == After(Turn(s, e), run)
  {
    hide Inv, Turn, Enabled;
    assert ([e] + run)[1..] == run;
  }

  /** A process c other than the first one, x, runs; x and idle are ready. */
  ghost predicate ChildRuns(s: Sys, x: nat, c: nat) {
    && Inv(s) && s.cur == c && s.idle >= 0 && c < N && x < N && c != x && c != s.idle && x != s.idle
    && Of(s.q, ReadyQueue) == [x, s.idle as nat]
  }

  lemma BothLive(s: Sys)
    requires Inv(s) && s.cur >= 0 && s.idle >= 0 && Of(s.q, ReadyQueue) == [s.idle as nat]
    ensures s.cur < N && |s.procs| == N && !s.procs[s.cur].state.STOPPED? && s.idle < N
    ensures !s.procs[s.idle].state.STOPPED?
  {
    assert s.idle in Of(s.q, ReadyQueue);
  }

  lemma CreateTurn(s: Sys, z: nat) returns (c: nat)
    requires Inv(s) && Enabled(s, Create(true)) && s.idle >= 0 && s.cur != s.idle
    requires Of(s.q, ReadyQueue) == [s.idle as nat]
    requires z < N && s.procs[z].state.STOPPED?
    ensures Turn(s, Create(true)).idle == s.idle && ChildRuns(Turn(s, Create(true)), s.cur, c)
  {
    InvHandleable(s);
    BothLive(s);
    c := Creates(s, z);
    hide Inv, Turn, Handle, Handleable, Kept, Enabled;
    Created(s, c);
  }

  lemma Created(s: Sys, c: nat)
    requires Inv(s) && Enabled(s, Create(true)) && Handleable(s) && s.idle >= 0 && s.cur != s.idle && c < N
    requires c != s.idle && c != s.cur
    requires Handle(s, Create(true)).idle == s.idle
    requires Of(Handle(s, Create(true)).q, ReadyQueue) == [s.idle as nat] + [c] + [s.cur as nat]
    ensures Turn(s, Create(true)).idle == s.idle && ChildRuns(Turn(s, Create(true)), s.cur, c)
  {
    hide Inv, Turn, Handle, Handleable, Kept;
    assert [s.idle as nat] + [c] + [s.cur as nat] == [s.idle as nat, c] + [s.cur as nat];
    SecondRuns(s, Create(true), c, [s.cur as nat]);
    assert [s.cur as nat] + [s.idle as nat] == [s.cur as nat, s.idle as nat];
    KeptProc(s, Create(true), c);
  }

  lemma KeptProc(s: Sys, e: Request, c: nat)
    requires Inv(s) && Enabled(s, e) && Handleable(s) && Kept(s, e) && c < N
    ensures Turn(s, e).idle == s.idle && |Turn(s, e).procs| == N
    ensures Turn(s, e).procs[c].allowed == Handle(s, e).procs[c].allowed
  {
    hide Inv, Turn, Handle, Handleable, Enabled;
    assert Turn(s, e).procs[c].(state := RUNNING) == Handle(s, e).procs[c].(state := RUNNING);
  }

  lemma AllowTurn(s: Sys, x: nat, c: nat)
    requires ChildRuns(s, x, c)
    ensures Enabled(s, Plain(0, 2))
    ensures var t := Turn(s, Plain(0, 2));
      && t.idle == s.idle && t.cur == x && Of(t.q, ReadyQueue) == [s.idle as nat, c]
      && |t.procs| == N && t.procs[c].allowed == 2
  {
    InvHandleable(s);
    Handles(s, Plain(0, 2));
    hide Inv, Turn, Handle, Handleable, Kept;
    assert [x, s.idle as nat] + [c] == [x] + [s.idle as nat, c];
    FirstRuns(s, Plain(0, 2), x, [s.idle as nat, c]);
    KeptProc(s, Plain(0, 2), c);
  }

  lemma YieldTurn(s: Sys, x: nat, c: nat)
    requires Inv(s) && s.cur == x && s.idle >= 0 && x < N && c < N && x != s.idle && c != s.idle && c != x
    requires Of(s.q, ReadyQueue) == [s.idle as nat, c] && s.procs[c].allowed == 2
    ensures Enabled(s, Yield)
    ensures var t := Turn(s, Yield); t.idle == s.idle && ChildRuns(t, x, c) && t.procs[c].allowed == 2
  {
    hide Steady, Turn, Handle, Handleable, Kept, Select, Ready;
    InvHandleable(s);
    Handles(s, Yield);
    hide Inv;
    SecondRuns(s, Yield, c, [x]);
    assert [x] + [s.idle as nat] == [x, s.idle as nat];
    KeptProc(s, Yield, c);
  }

  lemma SleepTurn(s: Sys, x: nat, c: nat) returns (pid: nat)
    requires ChildRuns(s, x, c) && s.procs[c].allowed == 2
    ensures Enabled(s, Sleep(10))
    ensures var t := Turn(s, Sleep(10)); t.cur == x && x != t.idle && Trapped(t, pid, 1)
  {
    InvHandleable(s);
    SleepHandled(s, 10);
    assert Takes(s.procs[c], 1);
    SleeperTrapped(s, 10, 1);
    pid := s.procs[c].pid;
    hide Inv, Turn, Handle, Handleable, Trapped;
    assert [x, s.idle as nat] == [x] + [s.idle as nat];
    FirstRuns(s, Sleep(10), x, [s.idle as nat]);
  }

  const TRAPPING: seq<Request> := [Create(true), Plain(0, 2), Yield, Sleep(10)]

  /** The first process creates another, which allows a signal and sleeps: the signal would find it in a list. */
  lemma TrapReached() returns (pid: nat)
    ensures Runnable(Booted(), TRAPPING)
    ensures var s := After(Booted(), TRAPPING);
      && 0 <= s.cur < N && s.cur != s.idle && Trapped(s, pid, 1)
      && !Steady(Signal(s, pid, 1), {}, NIL)
  {
    var s0 := Booted();
    BootedIs();
    hide Inv, Booted, Turn, Steady, Signal, Trapped, Enabled;
    var c := FromCreate(s0);
    var s1 := Turn(s0, Create(true));
    AllowTurn(s1, 0, c);
    var s2 := Turn(s1, Plain(0, 2));
    YieldTurn(s2, 0, c);
    var s3 := Turn(s2, Yield);
    pid := SleepTurn(s3, 0, c);
    var s4 := Turn(s3, Sleep(10));
    RunOne(s3, Sleep(10));
    RunMore(s2, Yield, [Sleep(10)]);
    RunMore(s1, Plain(0, 2), [Yield] + [Sleep(10)]);
    RunMore(s0, Create(true), [Plain(0, 2)] + ([Yield] + [Sleep(10)]));
    assert TRAPPING == [Create(true)] + ([Plain(0, 2)] + ([Yield] + [Sleep(10)]));
    TrappedBreaksIt(s4, pid);
  }

  lemma FromCreate(s: Sys) returns (c: nat)
    requires Inv(s) && s.cur == 0 && s.idle == 1 && Of(s.q, ReadyQueue) == [1] && s.procs[2].state.STOPPED?
    ensures Enabled(s, Create(true)) && Turn(s, Create(true)).idle == 1 && ChildRuns(Turn(s, Create(true)), 0, c)
  {
    hide Inv, Turn;
    c := CreateTurn(s, 2);
  }

  lemma TrappedBreaksIt(s: Sys, pid: nat)
    requires Inv(s) && s.cur >= 0 && Trapped(s, pid, 1)
    ensures (forall p :: p in s.pids ==> s.pids[p] < |s.procs|) && s.cur < N == |s.procs|
    ensures !Steady(Signal(s, pid, 1), {}, NIL)
  {
    SignalKeepsIff(s, pid, 1);
  }

  // ------------------------------------------------------------------
  // Ready without asking

  /**
   ready() of the process that opened the keyboard, with its count of characters, whatever it
   is doing. A process still in a list has its link cleared, which ends that list there; in
   the ready queue it is not even appended, since it is reached before its own new place.
   */
  function ReadyReader(s: Sys, x: nat, n: int): (r: Sys)
    requires x < |s.procs|
    ensures |r.procs| == |s.procs|
  {
    if s.procs[x].state.READY? then
      Put(s, x, s.procs[x].(irc := n)).(q := s.q[ReadyQueue := UpTo(Of(s.q, ReadyQueue), x)])
    else Return(CutAfter(s, x), x, n)
  }

  /** Blocked in no list, or ready and last. */
  predicate MayReady(s: Sys, x: nat)
    requires x < |s.procs|
  {
    var p, l := s.procs[x], Of(s.q, ReadyQueue);
    || p.state.READING? || p.state.WAITING? || (p.state.RECEIVING? && p.partner == 0)
    || (p.state.READY? && l != [] && l[|l| - 1] == x)
  }

  /**
   The keyboard interrupt, as written, keeps every process in its place exactly if the process
   it readies waits in no list, or is last in the ready queue already.
   */
  lemma ReaderKeepsIff(s: Sys, x: nat, n: int)
    requires Steady(s, {}, s.cur) && s.cur >= 0 && x < N
    ensures |s.procs| == N && (Steady(ReadyReader(s, x, n), {}, s.cur) <==> MayReady(s, x))
  {
    var p := s.procs[x];
    if p.state.READING? || p.state.WAITING? || (p.state.RECEIVING? && p.partner == 0) {
      ReaderWaits(s, x, n);
    } else if p.state.READY? {
      ReaderReady(s, x, n);
    } else if Queued(p) {
      ReaderQueued(s, x, n);
    } else {
      ReaderBusy(s, x, n);
    }
  }

  lemma ReaderWaits(s: Sys, x: nat, n: int)
    requires Steady(s, {}, s.cur) && s.cur >= 0 && x < N
    requires var p := s.procs[x]; p.state.READING? || p.state.WAITING? || (p.state.RECEIVING? && p.partner == 0)
    ensures Steady(ReadyReader(s, x, n), {}, s.cur)
  {
    hide Steady, Return;
    SteadyShape(s, {}, s.cur);
    ReturnUnlisted(s, x, n);
  }

  lemma ReaderReady(s: Sys, x: nat, n: int)
    requires Steady(s, {}, s.cur) && s.cur >= 0 && x < N && s.procs[x].state.READY?
    ensures Steady(ReadyReader(s, x, n), {}, s.cur) <==> MayReady(s, x)
  {
    var l := Of(s.q, ReadyQueue);
    var i := ReadyPlace(s, x);
    hide Steady, UpTo;
    SteadyShape(s, {}, s.cur);
    if i == |l| - 1 {
      ReaderLast(s, x, n, i);
    } else {
      ReaderCuts(s, x, n, i);
    }
  }

  lemma ReadyPlace(s: Sys, x: nat) returns (i: nat)
    requires Steady(s, {}, s.cur) && x < N && s.procs[x].state.READY?
    ensures var l := Of(s.q, ReadyQueue);
      i < |l| && l[i] == x && UpTo(l, x) == l[..i + 1] && forall j :: 0 <= j < |l| && j != i ==> l[j] != x
  {
    hide Sane, Sleeping, UpTo;
    var l := Of(s.q, ReadyQueue);
    assert Belongs(s.procs[x], s.pids, ReadyQueue) && x in l;
    i :| 0 <= i < |l| && l[i] == x;
    UpToIs(l, x, i);
  }

  lemma ReaderLast(s: Sys, x: nat, n: int, i: nat)
    requires Steady(s, {}, s.cur) && x < N && |s.procs| == N && s.procs[x].state.READY?
    requires i + 1 == |Of(s.q, ReadyQueue)| && UpTo(Of(s.q, ReadyQueue), x) == Of(s.q, ReadyQueue)[..i + 1]
    ensures Steady(ReadyReader(s, x, n), {}, s.cur)
  {
    hide Steady, UpTo;
    var l := Of(s.q, ReadyQueue);
    KeepPut(s, {}, s.cur, x, s.procs[x].(irc := n));
    assert s.q[ReadyQueue := l] == s.q && l[..i + 1] == l;
  }

  /** The one behind it is lost. */
  lemma ReaderCuts(s: Sys, x: nat, n: int, i: nat)
    requires Steady(s, {}, s.cur) && x < N && |s.procs| == N && s.procs[x].state.READY?
    requires i + 1 < |Of(s.q, ReadyQueue)| && UpTo(Of(s.q, ReadyQueue), x) == Of(s.q, ReadyQueue)[..i + 1]
    ensures !Steady(ReadyReader(s, x, n), {}, s.cur)
  {
    hide Sane, Sleeping, UpTo;
    var l, r := Of(s.q, ReadyQueue), ReadyReader(s, x, n);
    var y := l[i + 1];
    assert y in l && y !in l[..i + 1];
    assert Belongs(r.procs[y], r.pids, ReadyQueue) && y !in Of(r.q, ReadyQueue);
  }

  lemma ReaderQueued(s: Sys, x: nat, n: int)
    requires Steady(s, {}, s.cur) && s.cur >= 0 && x < N && Queued(s.procs[x])
    ensures !Steady(ReadyReader(s, x, n), {}, s.cur)
  {
    hide Sleeping;
    var p, h, r := s.procs[x], PlaceOf(s.procs[x], s.pids), ReadyReader(s, x, n);
    assert Fine(p, x, s.pids);
    assert Belongs(p, s.pids, h) && x in Of(s.q, h);
    UpToHas(Of(s.q, h), x);
    assert Of(r.q, h) == UpTo(Of(s.q, h), x);
    assert !Belongs(r.procs[x], r.pids, h);
  }

  lemma ReaderBusy(s: Sys, x: nat, n: int)
    requires Steady(s, {}, s.cur) && s.cur >= 0 && x < N && (s.procs[x].state.RUNNING? || s.procs[x].state.STOPPED?)
    ensures !Steady(ReadyReader(s, x, n), {}, s.cur)
  {
    var r := ReadyReader(s, x, n);
    if s.procs[x].state.RUNNING? {
      assert x == s.cur && r.procs[x].state.READY?;
    } else {
      assert !Fine(r.procs[x], x, r.pids);
    }
  }
}
