/**
 Whole turns and whole runs of dispatch(): the invariant over every run, when signals
 keep it, and which process runs next.
 */
module KernelRuns {
  import opened KernelState
  import opened KernelSteps
  import opened KernelInv
  import opened KernelTurn

  // ------------------------------------------------------------------
  // Signals

  /** The signal would be delivered to a process blocked in some list. */
  predicate Trapped(s: Sys, pid: nat, sig: int) {
    && 0 <= sig < 32 && pid in s.pids && s.pids[pid] < |s.procs|
    && Takes(s.procs[s.pids[pid]], sig) && Queued(s.procs[s.pids[pid]])
  }

  lemma SignalToKeeps(s: Sys, t: nat, sig: nat)
    requires Steady(s, {}, s.cur) && t < N && sig < 32 && !s.procs[t].state.STOPPED? && !Queued(s.procs[t])
    ensures Steady(SignalTo(s, t, sig), {}, s.cur) && Wakes(s, SignalTo(s, t, sig)) && SignalTo(s, t, sig).cur == s.cur
  {
    hide Record, Steady, Wakes;
    SteadyShape(s, {}, s.cur);
    var p := Record(s.procs[t], sig);
    RecordKeeps(s, t, p);
  }

  lemma RecordKeeps(s: Sys, t: nat, p: Proc)
    requires Steady(s, {}, s.cur) && t < N && !s.procs[t].state.STOPPED? && !Queued(s.procs[t])
    requires p == s.procs[t].(pending := p.pending)
    ensures Steady(Put(s, t, p), {}, s.cur) && Wakes(s, Put(s, t, p))
    ensures p.state.WAITING? || p.state.READING? || p.state.RECEIVING? ==>
      forall irc :: Steady(Return(Put(s, t, p), t, irc), {}, s.cur) && Wakes(s, Return(Put(s, t, p), t, irc))
  {
    hide Steady, Wakes, Return;
    SteadyShape(s, {}, s.cur);
    var s1 := Put(s, t, p);
    PutKeeps(s, t, p);
    if p.state.WAITING? || p.state.READING? || p.state.RECEIVING? {
      forall irc
        ensures Steady(Return(s1, t, irc), {}, s.cur) && Wakes(s, Return(s1, t, irc))
      {
        ReturnUnlisted(s1, t, irc);
        WakesTrans(s, s1, Return(s1, t, irc));
      }
    }
  }

  lemma PutKeeps(s: Sys, t: nat, p: Proc)
    requires Steady(s, {}, s.cur) && t < N && |s.procs| == N && p == s.procs[t].(pending := p.pending)
    ensures Steady(Put(s, t, p), {}, s.cur) && Wakes(s, Put(s, t, p))
  {
    KeepPut(s, {}, s.cur, t, p);
    hide Steady;
  }

  /** A process blocked outside all lists is made ready. */
  lemma ReturnUnlisted(s: Sys, t: nat, irc: int)
    requires Steady(s, {}, s.cur) && t < N && |s.procs| == N
    requires var p := s.procs[t]; p.state.WAITING? || p.state.READING? || (p.state.RECEIVING? && p.partner == 0)
    ensures Steady(Return(s, t, irc), {}, s.cur) && Wakes(s, Return(s, t, irc))
  {
    hide Steady, Wakes, Return;
    LooseUnlisted(s, {}, s.cur, t);
    assert {} + {t} == {t} && {t} - {t} == {};
    ReturnSteady(s, {t}, s.cur, t, irc);
    NotRunning(s, t);
  }

  lemma NotRunning(s: Sys, t: nat)
    requires Steady(s, {}, s.cur) && t < N && |s.procs| == N && !s.procs[t].state.RUNNING?
    ensures t != s.cur
  {
  }

  lemma {:induction false} UpToHas(l: seq<nat>, x: nat)
    requires x in l
    ensures x in UpTo(l, x)
  {
    if l[0] != x {
      UpToHas(l[1..], x);
    }
  }

  lemma {:induction false} UpToIs(l: seq<nat>, x: nat, i: nat)
    requires Distinct(l) && i < |l| && l[i] == x
    ensures UpTo(l, x) == l[..i + 1]
    decreases i
  {
    if i > 0 {
      UpToIs(l[1..], x, i - 1);
      assert [l[0]] + l[1..][..i] == l[..i + 1];
    }
  }

  lemma QueuedProcs(s: Sys, t: nat, sig: nat)
    requires t < N && |s.procs| == N && 0 <= s.cur < N && s.cur != t && sig < 32 && Queued(s.procs[t])
    ensures var t' := Record(s.procs[t], sig).(irc := -129, state := READY);
      Return(SignalTo(s, t, sig), s.cur, 0).procs
        == s.procs[t := t'][s.cur := s.procs[t := t'][s.cur].(irc := 0, state := READY)]
  {
    hide Record, CutAfter, Return;
    var s1 := Put(s, t, Record(s.procs[t], sig));
    CutProcs(s1, t);
    ReturnProcs(CutAfter(s1, t), t, -129);
    ReturnProcs(SignalTo(s, t, sig), s.cur, 0);
    assert s.procs[t := Record(s.procs[t], sig)][t := Record(s.procs[t], sig).(irc := -129, state := READY)]
        == s.procs[t := Record(s.procs[t], sig).(irc := -129, state := READY)];
  }

  lemma CutProcs(s: Sys, t: nat)
    requires t < |s.procs|
    ensures CutAfter(s, t).procs == s.procs
  {
    hide UpTo, PlaceOf;
  }

  lemma ReturnProcs(s: Sys, x: nat, irc: int)
    requires x < |s.procs|
    ensures Return(s, x, irc).procs == s.procs[x := s.procs[x].(irc := irc, state := READY)]
  {
  }

  lemma QueuedList(s: Sys, t: nat, sig: nat)
    requires t < N && |s.procs| == N && 0 <= s.cur < N && sig < 32 && Queued(s.procs[t])
    requires PlaceOf(s.procs[t], s.pids) != ReadyQueue
    ensures var h := PlaceOf(s.procs[t], s.pids);
      Of(Return(SignalTo(s, t, sig), s.cur, 0).q, h) == UpTo(Of(s.q, h), t)
  {
    hide Record, UpTo;
  }

  lemma QueuedPlace(s: Sys, t: nat)
    requires Steady(s, {}, s.cur) && s.cur >= 0 && t < N && |s.procs| == N && Queued(s.procs[t])
    ensures var h := PlaceOf(s.procs[t], s.pids);
      h != ReadyQueue && Belongs(s.procs[t], s.pids, h) && t in Of(s.q, h) && t != s.cur && s.cur < N
  {
    assert Fine(s.procs[t], t, s.pids);
    assert Belongs(s.procs[t], s.pids, PlaceOf(s.procs[t], s.pids));
  }

  /** A process made ready while it is still in a list is in two lists. */
  lemma TrappedBreaks(s: Sys, t: nat, sig: nat)
    requires Steady(s, {}, s.cur) && s.cur >= 0 && t < N && sig < 32 && Queued(s.procs[t])
    ensures |s.procs| == N && s.cur < N
    ensures var r := Return(SignalTo(s, t, sig), s.cur, 0); !Placed(r.procs, r.q, s.pids, {})
  {
    SteadyShape(s, {}, s.cur);
    QueuedPlace(s, t);
    QueuedProcs(s, t, sig);
    QueuedList(s, t, sig);
    hide Return, SignalTo, Steady, Record, PlaceOf, Queued;
    var h, r := PlaceOf(s.procs[t], s.pids), Return(SignalTo(s, t, sig), s.cur, 0);
    UpToHas(Of(s.q, h), t);
    assert t in Of(r.q, h);
    assert !Belongs(r.procs[t], s.pids, h);
  }

  /** KILL keeps every process in one place exactly when its target is not blocked in a list. */
  lemma SignalKeepsIff(s: Sys, pid: nat, sig: int)
    requires Steady(s, {}, s.cur) && s.cur >= 0
    ensures Steady(Signal(s, pid, sig), {}, NIL) <==> !Trapped(s, pid, sig)
    ensures !Trapped(s, pid, sig) ==> Wakes(s, Signal(s, pid, sig))
  {
    hide Takes, Record;
    if sig < 0 || sig >= 32 {
      RunningReturns(s, -12);
    } else if pid !in s.pids {
      RunningReturns(s, -33);
    } else if !Takes(s.procs[s.pids[pid]], sig) {
      RunningReturns(s, 0);
    } else if Queued(s.procs[s.pids[pid]]) {
      TrappedBreaks(s, s.pids[pid], sig);
    } else {
      var s1 := SignalTo(s, s.pids[pid], sig);
      SignalToKeeps(s, s.pids[pid], sig);
      RunningReturns(s1, 0);
      hide Steady, SignalTo;
      WakesTrans(s, s1, Signal(s, pid, sig));
    }
  }

  // ------------------------------------------------------------------
  // One turn

  /** The running process blocks outside all lists. */
  lemma ParkSteady(s: Sys, state: State)
    requires Steady(s, {}, s.cur) && s.cur >= 0 && (state.WAITING? || state.READING?)
    ensures var r := Put(s, s.cur, s.procs[s.cur].(state := state)); Steady(r, {}, NIL) && Wakes(s, r)
  {
    var c := s.cur as nat;
    var p := s.procs[c].(state := state);
    RunningLoose(s, {}, c);
    assert {} + {c} == {c} && {c} - {c} == {};
    SaneQuiet(s.procs, s.pids, c, p);
    PlacedLoose(s.procs, s.q, s.pids, {c}, c, p);
    PlacedNowhere(s.procs[c := p], s.q, s.pids, {c}, c);
    hide Placed, Sane;
  }

  /** What the environment respects: no signal to a process in a list, and the idle process only halts. */
  predicate Enabled(s: Sys, e: Request) {
    && 0 <= s.cur < N
    && (s.cur == s.idle ==> e.Timer? || e.Keyboard?)
    && (e.Kill? ==> !Trapped(s, e.pid, e.sig))
  }

  lemma InvHandleable(s: Sys)
    requires Steady(s, {}, s.cur) && s.cur >= 0
    ensures Handleable(s)
  {
    assert forall x :: x in Of(s.q, SleepList) ==> x in s.left;
  }

  lemma InvRequests(s: Sys)
    requires Inv(s) && s.cur >= 0
    ensures Handleable(s)
  {
    InvHandleable(s);
  }

  lemma CreateKeeps(s: Sys, memory: bool)
    requires Steady(s, {}, s.cur) && s.cur >= 0
    ensures var (s1, pid) := Spawn(s, s.procs[s.cur].pid, memory);
      s1.cur == s.cur && Steady(Return(s1, s.cur, pid), {}, NIL) && Wakes(s, Return(s1, s.cur, pid))
  {
    var (s1, pid) := Spawn(s, s.procs[s.cur].pid, memory);
    SpawnKeeps(s, s.procs[s.cur].pid, memory);
    RunningReturns(s1, pid);
    hide Steady, Spawn;
    WakesTrans(s, s1, Return(s1, s.cur, pid));
  }

  lemma TimerKeeps(s: Sys)
    requires Steady(s, {}, s.cur) && s.cur >= 0
    ensures (forall x :: x in Of(s.q, SleepList) ==> x < N) && Tick(s).cur == s.cur
    ensures Steady(Ready(Tick(s), s.cur), {}, NIL) && Wakes(s, Ready(Tick(s), s.cur))
  {
    TickKeeps(s);
    RunningReady(Tick(s));
    hide Steady, Tick;
    WakesTrans(s, Tick(s), Ready(Tick(s), s.cur));
  }

  lemma PlainKeeps(s: Sys, irc: int, allowed: bv32)
    requires Steady(s, {}, s.cur) && s.cur >= 0
    ensures var r := Return(Put(s, s.cur, s.procs[s.cur].(allowed := allowed)), s.cur, irc);
      Steady(r, {}, NIL) && Wakes(s, r)
  {
    var p := s.procs[s.cur].(allowed := allowed);
    var s1 := Put(s, s.cur, p);
    KeepPut(s, {}, s.cur, s.cur, p);
    RunningReturns(s1, irc);
    hide Steady;
    WakesTrans(s, s1, Return(s1, s.cur, irc));
  }

  /** Every request, of any process in any state that satisfies the invariant. */
  lemma HandleKeeps(s: Sys, e: Request)
    requires Steady(s, {}, s.cur) && Enabled(s, e)
    ensures Handleable(s) && Wakes(s, Handle(s, e))
    ensures Steady(Handle(s, e), {}, if e.Keyboard? then s.cur else NIL)
  {
    hide Steady, Exit, SendTo, Receive, FallAsleep, Signal, Tick, Spawn, Return, Ready, Put;
    InvHandleable(s);
    match e
    case Create(memory) => CreateKeeps(s, memory);
    case Yield => RunningReady(s);
    case Stop => ExitKeeps(s);
    case Send(dest, buf) => SendKeeps(s, dest, buf);
    case Recv(src, buf) => ReceiveKeeps(s, src, buf);
    case Sleep(ms) => SleepKeeps(s, ms);
    case Timer => TimerKeeps(s);
    case Kill(pid, sig) => SignalKeepsIff(s, pid, sig);
    case SigWait => ParkSteady(s, WAITING);
    case Read => ParkSteady(s, READING);
    case Plain(irc, allowed) => PlainKeeps(s, irc, allowed);
    case Keyboard(x, n) =>
      if x < N && s.procs[x].state.READING? {
        ReturnUnlisted(s, x, n);
      }
  }

  lemma RunSteady(s: Sys, x: nat)
    requires Steady(s, {}, NIL) && Of(s.q, ReadyQueue) != [] && Of(s.q, ReadyQueue)[0] == x
    ensures x < N && Steady(Run(s.(q := s.q[ReadyQueue := Of(s.q, ReadyQueue)[1..]]), x), {}, x)
  {
    var l := Of(s.q, ReadyQueue);
    FirstIn(l);
    var p, q' := s.procs[x].(state := RUNNING), s.q[ReadyQueue := l[1..]];
    assert RemoveOne(l, x) == l[1..];
    PlacedLeave(s.procs, s.q, s.pids, {}, x, ReadyQueue);
    assert {} + {x} == {x} && {x} - {x} == {};
    PlacedLoose(s.procs, q', s.pids, {x}, x, p);
    PlacedNowhere(s.procs[x := p], q', s.pids, {x}, x);
    SaneQuiet(s.procs, s.pids, x, p);
    hide Placed, Sane, Sleeping;
  }

  /** Moving the idle process from the front to the end of the ready queue. */
  lemma RotateSteady(s: Sys, x: nat)
    requires Steady(s, {}, NIL) && Of(s.q, ReadyQueue) != [] && Of(s.q, ReadyQueue)[0] == x
    ensures var l := Of(s.q, ReadyQueue); x < N && Steady(s.(q := s.q[ReadyQueue := l[1..] + [x]]), {}, NIL)
  {
    var l := Of(s.q, ReadyQueue);
    FirstIn(l);
    var q' := s.q[ReadyQueue := l[1..]];
    assert RemoveOne(l, x) == l[1..];
    PlacedLeave(s.procs, s.q, s.pids, {}, x, ReadyQueue);
    assert {} + {x} == {x} && {x} - {x} == {};
    PlacedJoin(s.procs, q', s.pids, {x}, x, s.procs[x], ReadyQueue, |l| - 1);
    assert l[1..][..|l| - 1] + [x] + l[1..][|l| - 1..] == l[1..] + [x] && s.procs[x := s.procs[x]] == s.procs;
    assert q'[ReadyQueue := l[1..] + [x]] == s.q[ReadyQueue := l[1..] + [x]];
    hide Placed, Sane, Sleeping;
  }

  /**
   Choosing the next process keeps everything in place; it stops only if nothing is ready,
   and picks the idle process only if nothing else is.
   */
  lemma SelectKeeps(s: Sys)
    requires Steady(s, {}, NIL) && IdleReady(s.procs, s.idle)
    ensures forall x :: x in Of(s.q, ReadyQueue) ==> x < N
    ensures var r := Select(s);
      && Inv(r) && r.idle == s.idle
      && (r.cur == NIL <==> Of(s.q, ReadyQueue) == [])
      && (r.cur == s.idle && s.idle != NIL ==> Of(r.q, ReadyQueue) == [])
  {
    var l := Of(s.q, ReadyQueue);
    hide Placed, Sane, Sleeping;
    ReadyBelow(s);
    if l != [] {
      if l[0] != s.idle || |l| == 1 {
        RunSteady(s, l[0]);
        assert |l| == 1 ==> l[1..] == [];
      } else {
        var s1 := s.(q := s.q[ReadyQueue := l[1..] + [l[0]]]);
        RotateSteady(s, l[0]);
        assert Of(s1.q, ReadyQueue)[0] == l[1] && Of(s1.q, ReadyQueue)[1..] == l[2..] + [l[0]];
        RunSteady(s1, l[1]);
        assert s1.q[ReadyQueue := l[2..] + [l[0]]] == s.q[ReadyQueue := l[2..] + [l[0]]];
        RotateIs(s);
      }
    }
  }

  lemma ReadyBelow(s: Sys)
    requires Steady(s, {}, NIL)
    ensures |s.procs| == N && forall x :: x in Of(s.q, ReadyQueue) ==> x < N && s.procs[x].state.READY?
    ensures IdleReady(s.procs, s.idle) && s.idle != NIL ==> s.idle in Of(s.q, ReadyQueue)
    ensures |Of(s.q, ReadyQueue)| >= 2 ==> Of(s.q, ReadyQueue)[0] != Of(s.q, ReadyQueue)[1]
  {
    if IdleReady(s.procs, s.idle) && s.idle != NIL {
      assert Belongs(s.procs[s.idle], s.pids, ReadyQueue);
    }
  }

  lemma RotateIs(s: Sys)
    requires |s.procs| == N && |Of(s.q, ReadyQueue)| >= 2 && Of(s.q, ReadyQueue)[0] == s.idle
    requires forall x :: x in Of(s.q, ReadyQueue) ==> x < N && s.procs[x].state.READY?
    ensures var l := Of(s.q, ReadyQueue);
      l[1] < N && Select(s) == Run(s.(q := s.q[ReadyQueue := l[2..] + [l[0]]]), l[1])
  {
    var l := Of(s.q, ReadyQueue);
    assert l[0] in l && l[1] in l;
    assert s.procs[l[0] := s.procs[l[0]].(state := READY)] == s.procs;
  }

  /** Only the process chosen changes, and only its state. */
  lemma SelectOthers(s: Sys)
    requires Steady(s, {}, NIL) && IdleReady(s.procs, s.idle)
    ensures forall x :: x in Of(s.q, ReadyQueue) ==> x < N
    ensures |s.procs| == N && Select(s).pids == s.pids && Select(s).left == s.left && Select(s).idle == s.idle
    ensures forall x :: 0 <= x < N ==>
      Select(s).procs[x] == if x == Select(s).cur then s.procs[x].(state := RUNNING) else s.procs[x]
  {
    ReadyBelow(s);
    hide Steady;
    var l := Of(s.q, ReadyQueue);
    if l != [] {
      assert l[0] in l;
      if l[0] == s.idle && |l| >= 2 {
        RotateIs(s);
        assert l[1] in l;
      }
    }
  }

  /** Only a ready process is chosen to run. */
  lemma NotChosen(s: Sys, x: nat)
    requires Steady(s, {}, NIL) && IdleReady(s.procs, s.idle) && x < N
    ensures |s.procs| == N && (forall y :: y in Of(s.q, ReadyQueue) ==> y < N)
    ensures !s.procs[x].state.READY? ==> Select(s).cur != x && Select(s).procs[x] == s.procs[x]
  {
    SelectOthers(s);
    ReadyBelow(s);
    hide Sane, Sleeping;
    var l := Of(s.q, ReadyQueue);
    assert |l| > 0 ==> l[0] in l;
    assert |l| > 1 ==> l[1] in l;
  }

  lemma IdleStays(s: Sys, e: Request)
    requires Inv(s) && Enabled(s, e) && Handleable(s) && Wakes(s, Handle(s, e))
    ensures IdleReady(Handle(s, e).procs, s.idle)
  {
    if s.idle == s.cur && e.Timer? {
      TickKeeps(s);
    }
  }

  lemma TurnKeeps(s: Sys, e: Request)
    requires Inv(s) && Enabled(s, e)
    ensures Handleable(s)
    ensures e.Keyboard? ==> Inv(Handle(s, e))
    ensures !e.Keyboard? ==> Steady(Handle(s, e), {}, NIL) && IdleReady(Handle(s, e).procs, Handle(s, e).idle)
    ensures !e.Keyboard? ==> (forall x :: x in Of(Handle(s, e).q, ReadyQueue) ==> x < N) && Inv(Select(Handle(s, e)))
  {
    HandleKeeps(s, e);
    IdleStays(s, e);
    KeyboardCur(s, e);
    hide Handle, Select, Steady;
    if !e.Keyboard? {
      SelectKeeps(Handle(s, e));
    }
  }

  lemma KeyboardCur(s: Sys, e: Request)
    requires Handleable(s)
    ensures e.Keyboard? ==> Handle(s, e).cur == s.cur
  {
  }

  /** A turn: the request of the running process, then the choice of the next. */
  ghost function Turn(s: Sys, e: Request): (r: Sys)
    requires Inv(s) && Enabled(s, e)
    ensures Inv(r)
  {
    TurnKeeps(s, e);
    if e.Keyboard? then Handle(s, e) else Select(Handle(s, e))
  }

  /** A turn that is no keyboard interrupt, in two steps. */
  lemma TurnIs(s: Sys, e: Request)
    requires Inv(s) && Enabled(s, e) && !e.Keyboard?
    ensures Handleable(s) && Steady(Handle(s, e), {}, NIL) && IdleReady(Handle(s, e).procs, Handle(s, e).idle)
    ensures (forall x :: x in Of(Handle(s, e).q, ReadyQueue) ==> x < N) && Turn(s, e) == Select(Handle(s, e))
  {
    TurnKeeps(s, e);
  }

  // ------------------------------------------------------------------
  // Runs

  /** Every request of the run is possible when its turn comes. */
  ghost predicate Runnable(s: Sys, run: seq<Request>)
    requires Inv(s)
    decreases |run|
  {
    run == [] || (Enabled(s, run[0]) && Runnable(Turn(s, run[0]), run[1..]))
  }

  ghost function After(s: Sys, run: seq<Request>): (r: Sys)
    requires Inv(s) && Runnable(s, run)
    ensures Inv(r)
    decreases |run|
  {
    if run == [] then s else After(Turn(s, run[0]), run[1..])
  }

  /** init_pcb_table: everything stopped. */
  function Empty(): Sys {
    Sys(seq(N, _ => Proc(0, 0, STOPPED, 0, 0, [], 0, 0)), map[], map[], map[], 1, NIL, NIL)
  }

  /** initproc: create the root and the idle process, then run the first that is ready. */
  function Boot(): Sys {
    var (s1, root) := Spawn(Empty(), 0, true);
    var (s2, idle) := Spawn(s1, 0, true);
    s2.(idle := if idle in s2.pids then s2.pids[idle] else NIL)
  }

  lemma EmptySteady()
    ensures Steady(Empty(), {}, NIL)
  {
  }

  /** With memory and an unused entry, create succeeds. */
  lemma SpawnWorks(s: Sys, parent: nat, x: nat)
    requires Steady(s, {}, s.cur) && x < N && s.procs[x].state.STOPPED?
    ensures var (r, pid) := Spawn(s, parent, true);
      && pid > 0 && pid in r.pids && r.pids[pid] < N && r.procs[r.pids[pid]].state.READY?
      && forall y :: 0 <= y < N && y != r.pids[pid] ==> r.procs[y] == s.procs[y]
  {
    FreshPid(s, {}, s.cur);
    hide NextFree;
  }

  /** The invariant holds when the first process runs. */
  lemma BootInv()
    ensures Steady(Boot(), {}, NIL) && IdleReady(Boot().procs, Boot().idle) && Boot().idle != NIL
    ensures (forall x :: x in Of(Boot().q, ReadyQueue) ==> x < N) && Inv(Select(Boot())) && Select(Boot()).cur >= 0
  {
    EmptySteady();
    var s0 := Empty();
    SpawnKeeps(s0, 0, true);
    SpawnWorks(s0, 0, 0);
    var (s1, root) := Spawn(s0, 0, true);
    var x := if s1.pids[root] == 0 then 1 else 0;
    assert s1.procs[x] == s0.procs[x] && s0.procs[x].state.STOPPED?;
    SpawnKeeps(s1, 0, true);
    SpawnWorks(s1, 0, x);
    hide Spawn, Steady, Empty, Select;
    var s2 := Boot();
    BootSteady();
    SelectKeeps(s2);
    ReadyBelow(s2);
  }

  lemma BootSteady()
    ensures var s := Boot(); Steady(s, {}, NIL) <==> Steady(s.(idle := NIL), {}, NIL)
  {
    hide Spawn;
  }

  /** The first process chosen after booting. */
  ghost function Booted(): (s: Sys)
    ensures Inv(s)
  {
    BootInv();
    Select(Boot())
  }

  /**
   In every state that any run of requests reaches: the lists hold each process at most once
   in all, in the list its state says and in none if its state says so; nobody queues at a
   stopped process; and nobody waits to send to a process that waits to receive from it.
   */
  lemma EveryRun(run: seq<Request>)
    requires Runnable(Booted(), run)
    ensures var s := After(Booted(), run);
      && |s.procs| == N && (forall h :: Distinct(Of(s.q, h)))
      && (forall g, h, x {:trigger x in Of(s.q, g), Of(s.q, h)} :: x in Of(s.q, g) && x in Of(s.q, h) ==> g == h)
      && (forall h, x {:trigger x in Of(s.q, h)} :: x in Of(s.q, h) ==> x < N && Belongs(s.procs[x], s.pids, h))
      && (forall x: nat :: x < N ==> (Linked(s.procs[x]) <==> exists h :: x in Of(s.q, h)))
      && (forall d: nat :: d < N && s.procs[d].state.STOPPED? ==> Of(s.q, Senders(d)) == [] == Of(s.q, Receivers(d)))
      && (forall a, d :: 0 <= a < N && 0 <= d < N ==> !Missed(s.procs[a], s.procs[d]))
  {
    hide After, Booted, Runnable;
    var s := After(Booted(), run);
    forall x: nat | x < N
      ensures Linked(s.procs[x]) <==> exists h :: x in Of(s.q, h)
    {
      InAListIff(s, x);
    }
    forall d: nat | d < N && s.procs[d].state.STOPPED?
      ensures Of(s.q, Senders(d)) == [] == Of(s.q, Receivers(d))
    {
      StoppedQueuesEmpty(s, d);
    }
    forall g, h, x | x in Of(s.q, g) && x in Of(s.q, h)
      ensures g == h
    {
      OnePlace(s.procs, s.q, s.pids, {}, g, h, x);
    }
  }
}
