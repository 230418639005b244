/**
 When a ready process runs, and what a send or receive comes to, said in terms of the
 states of the processes.
 */
module KernelSchedule {
  import opened Basics
  import opened KernelState
  import opened KernelSteps
  import opened KernelInv
  import opened KernelTurn
  import opened KernelRuns
  import opened KernelTheorems

  // ------------------------------------------------------------------
  // The ready queue is first in, first out

  lemma {:induction false} UnblockReady(s: Sys, h: Head)
    requires (h.Senders? || h.Receivers?) && forall x :: x in Of(s.q, h) ==> x < |s.procs|
    ensures Of(s.q, ReadyQueue) <= Of(Unblock(s, h).q, ReadyQueue)
    decreases |Of(s.q, h)|
  {
    var l := Of(s.q, h);
    if l != [] {
      assert l[0] in l && forall x :: x in l[1..] ==> x in l;
      UnblockReady(Return(s.(q := s.q[h := l[1..]]), l[0], SYS_SR_NO_PID), h);
    }
  }

  lemma {:induction false} WakeReady(s: Sys)
    requires forall x :: x in Of(s.q, SleepList) ==> x < |s.procs|
    ensures Of(s.q, ReadyQueue) <= Of(Wake(s).q, ReadyQueue)
    decreases |Of(s.q, SleepList)|
  {
    var l := Of(s.q, SleepList);
    if l != [] && l[0] in s.left && s.left[l[0]] == 0 {
      assert l[0] in l && forall x :: x in l[1..] ==> x in l;
      WakeReady(Return(s.(q := s.q[SleepList := l[1..]], left := s.left - {l[0]}), l[0], 0));
    }
  }

  lemma ExitReady(s: Sys)
    requires Handleable(s)
    ensures Of(s.q, ReadyQueue) <= Of(Exit(s).q, ReadyQueue)
  {
    UnblockReady(s, Senders(s.cur));
    UnblockFrame(s, Senders(s.cur));
    UnblockReady(Unblock(s, Senders(s.cur)), Receivers(s.cur));
    hide Unblock;
  }

  lemma SignalLists(s: Sys, pid: nat, sig: int, h: Head)
    requires Handleable(s) && !Trapped(s, pid, sig)
    ensures Of(s.q, ReadyQueue) <= Of(Signal(s, pid, sig).q, ReadyQueue)
    ensures h != ReadyQueue ==> Of(Signal(s, pid, sig).q, h) == Of(s.q, h)
  {
    hide Takes, SignalTo;
    if 0 <= sig < 32 && pid in s.pids && Takes(s.procs[s.pids[pid]], sig) {
      SignalToLists(s, s.pids[pid], sig, h);
    }
  }

  lemma SignalToLists(s: Sys, t: nat, sig: nat, h: Head)
    requires t < |s.procs| && sig < 32 && !Queued(s.procs[t])
    ensures Of(s.q, ReadyQueue) <= Of(SignalTo(s, t, sig).q, ReadyQueue)
    ensures h != ReadyQueue ==> Of(SignalTo(s, t, sig).q, h) == Of(s.q, h)
  {
    hide Record, UpTo, PlaceOf;
  }

  lemma SendLists(s: Sys, dest: nat, buf: seq<byte>, d: nat)
    requires Handleable(s)
    ensures Of(s.q, ReadyQueue) <= Of(SendTo(s, dest, buf).q, ReadyQueue)
    ensures var l, l' := Of(s.q, Senders(d)), Of(SendTo(s, dest, buf).q, Senders(d));
      l' == l || l' == l + [s.cur as nat]
  {
    hide RemoveOne, Meet;
    if dest in s.pids {
      var p, t, s1 := s.cur as nat, s.pids[dest], Args(s, dest, buf);
      MeetLists(Leave(s1, Receivers(p), t), p, t, t);
      MeetLists(s1, p, t, t);
    }
  }

  lemma ReceiveLists(s: Sys, src: nat, buf: seq<byte>, d: nat)
    requires Handleable(s)
    ensures Of(s.q, ReadyQueue) <= Of(Receive(s, src, buf).q, ReadyQueue)
    ensures var l, l' := Of(s.q, Senders(d)), Of(Receive(s, src, buf).q, Senders(d));
      l' == l || (d == s.cur && exists x :: x in l && l' == RemoveOne(l, x))
  {
    hide RemoveOne, Meet;
    var p, l := s.cur as nat, Of(s.q, Senders(s.cur));
    FirstIn(l);
    var s1 := Args(s, src, buf);
    if src == 0 {
      if l != [] {
        MeetLists(Leave(s1, Senders(p), l[0]), l[0], p, l[0]);
      }
    } else if src in s.pids {
      MeetLists(Leave(s1, Senders(p), s.pids[src]), s.pids[src], p, s.pids[src]);
    }
  }

  lemma MeetLists(s: Sys, a: nat, d: nat, other: nat)
    requires |s.procs| == N && a < N && d < N && 0 <= s.cur < N && other < N
    ensures Of(s.q, ReadyQueue) <= Of(Meet(s, a, d, other).q, ReadyQueue)
    ensures forall h :: h != ReadyQueue ==> Of(Meet(s, a, d, other).q, h) == Of(s.q, h)
  {
  }

  lemma SpawnLists(s: Sys, parent: nat, memory: bool, h: Head)
    requires Handleable(s)
    ensures Of(s.q, ReadyQueue) <= Of(Spawn(s, parent, memory).0.q, ReadyQueue)
    ensures h != ReadyQueue ==> Of(Spawn(s, parent, memory).0.q, h) == Of(s.q, h)
  {
    hide NextFree, Unused;
  }

  /** Whatever a request does, it only adds to the end of the ready queue. */
  lemma HandleAppends(s: Sys, e: Request)
    requires Handleable(s) && (e.Kill? ==> !Trapped(s, e.pid, e.sig))
    ensures Of(s.q, ReadyQueue) <= Of(Handle(s, e).q, ReadyQueue)
  {
    hide Exit, Wake, Rank, SendTo, Receive, Signal, Spawn;
    match e
    case Stop => ExitReady(s);
    case Timer => WakeReady(s.(left := CountDown(s.left)));
    case Send(dest, buf) => SendLists(s, dest, buf, 0);
    case Recv(src, buf) => ReceiveLists(s, src, buf, 0);
    case Kill(pid, sig) => SignalLists(s, pid, sig, SleepList);
    case Create(memory) => SpawnLists(s, s.procs[s.cur].pid, memory, SleepList);
    case _ =>
  }

  /** One turn: a process other than idle either runs or moves up by at least one. */
  lemma MovesUp(s: Sys, e: Request, x: nat, k: nat)
    requires Inv(s) && Enabled(s, e) && !e.Keyboard? && x != s.idle
    requires k < |Of(s.q, ReadyQueue)| && Of(s.q, ReadyQueue)[k] == x
    ensures var t := Turn(s, e);
      t.cur == x || exists j :: 0 <= j < k && j < |Of(t.q, ReadyQueue)| && Of(t.q, ReadyQueue)[j] == x
  {
    TurnKeeps(s, e);
    InvHandleable(s);
    HandleAppends(s, e);
    HandleIdle(s, e);
    hide Inv, Steady, Handle;
    SelectMoves(Handle(s, e), x, k);
  }

  lemma HandleIdle(s: Sys, e: Request)
    requires Inv(s) && Enabled(s, e)
    ensures Handleable(s) && Handle(s, e).idle == s.idle
  {
    HandleKeeps(s, e);
    hide Handle, Steady;
  }

  lemma SelectMoves(s: Sys, x: nat, k: nat)
    requires |s.procs| == N && (forall y :: y in Of(s.q, ReadyQueue) ==> y < N) && x != s.idle
    requires k < |Of(s.q, ReadyQueue)| && Of(s.q, ReadyQueue)[k] == x
    ensures var t := Select(s);
      t.cur == x || exists j :: 0 <= j < k && j < |Of(t.q, ReadyQueue)| && Of(t.q, ReadyQueue)[j] == x
  {
    var l, t := Of(s.q, ReadyQueue), Select(s);
    var m := Of(t.q, ReadyQueue);
    if l[0] != s.idle {
      assert k > 0 ==> m[k - 1] == x;
    } else {
      assert m == l[2..] + [l[0]];
      assert k > 1 ==> m[k - 2] == x;
    }
  }

  lemma KeyboardAppends(s: Sys, e: Request, x: nat, k: nat)
    requires Inv(s) && Enabled(s, e) && e.Keyboard?
    requires k < |Of(s.q, ReadyQueue)| && Of(s.q, ReadyQueue)[k] == x
    ensures Turn(s, e).idle == s.idle
    ensures k < |Of(Turn(s, e).q, ReadyQueue)| && Of(Turn(s, e).q, ReadyQueue)[k] == x
  {
    TurnKeeps(s, e);
  }

  lemma TurnIdle(s: Sys, e: Request)
    requires Inv(s) && Enabled(s, e)
    ensures Turn(s, e).idle == s.idle
  {
    HandleIdle(s, e);
    TurnKeeps(s, e);
    hide Inv, Steady, Handle, Select, Handleable;
    if !e.Keyboard? {
      SelectKeeps(Handle(s, e));
    }
  }

  /** The turns of a run: keyboard interrupts do not end one. */
  function Rounds(run: seq<Request>): (n: nat)
    ensures n <= |run|
  {
    if run == [] then 0 else (if run[0].Keyboard? then 0 else 1) + Rounds(run[1..])
  }

  /** x is chosen to run at the end of some turn of the run. */
  ghost predicate Runs(s: Sys, run: seq<Request>, x: nat)
    requires Inv(s) && Runnable(s, run)
    decreases |run|
  {
    run != [] && (Turn(s, run[0]).cur == x || Runs(Turn(s, run[0]), run[1..], x))
  }

  /**
   A process other than idle at position k of the ready queue runs within k + 1 turns,
   whatever the requests in between append to the queue.
   */
  lemma {:induction false} ScheduledWithin(s: Sys, x: nat, k: nat, run: seq<Request>)
    requires Inv(s) && x != s.idle && Runnable(s, run) && Rounds(run) >= k + 1
    requires k < |Of(s.q, ReadyQueue)| && Of(s.q, ReadyQueue)[k] == x
    ensures Runs(s, run, x)
    decreases |run|
  {
    var e, t := run[0], Turn(s, run[0]);
    TurnIdle(s, e);
    if e.Keyboard? {
      KeyboardAppends(s, e, x, k);
      hide Inv, Turn;
      ScheduledWithin(t, x, k, run[1..]);
    } else {
      MovesUp(s, e, x, k);
      hide Inv, Turn;
      if t.cur != x {
        var j :| 0 <= j < k && j < |Of(t.q, ReadyQueue)| && Of(t.q, ReadyQueue)[j] == x;
        ScheduledWithin(t, x, j, run[1..]);
      }
    }
  }

  /** With an idle process dispatch never runs out of processes, and idle runs only when no other is ready. */
  lemma IdleOnlyWhenAlone(s: Sys, e: Request)
    requires Inv(s) && Enabled(s, e) && s.idle != NIL && !e.Keyboard?
    ensures Turn(s, e).cur >= 0
    ensures Turn(s, e).cur == s.idle ==> Of(Turn(s, e).q, ReadyQueue) == []
  {
    TurnKeeps(s, e);
    HandleIdle(s, e);
    hide Inv, Handle;
    ReadyBelow(Handle(s, e));
    SelectKeeps(Handle(s, e));
  }

  // ------------------------------------------------------------------
  // What a send or receive comes to

  /** d waits for a message from a process with this pid. */
  predicate Awaits(d: Proc, pid: nat) {
    d.state.RECEIVING? && (d.partner == 0 || d.partner == pid)
  }

  /**
   Sender and receiver after a match: both ready, the smaller length for both, the bytes
   and the pid for the receiver.
   */
  ghost predicate Matched(a: Proc, d: Proc, a': Proc, d': Proc) {
    var n := Min(|a.buf|, |d.buf|);
    && a' == a.(state := READY, irc := n)
    && d' == d.(state := READY, irc := n, partner := a.pid, buf := d'.buf)
    && |d'.buf| == |d.buf| && d'.buf[..n] == a.buf[..n] && d'.buf[n..] == d.buf[n..]
  }

  lemma MeetMatches(s: Sys, a: nat, d: nat, other: nat)
    requires |s.procs| == N && a < N && d < N && a != d && ((s.cur == a && other == d) || (s.cur == d && other == a))
    ensures var r := Meet(s, a, d, other);
      && Matched(s.procs[a], s.procs[d], r.procs[a], r.procs[d])
      && (forall x :: 0 <= x < N && x != a && x != d ==> r.procs[x] == s.procs[x])
      && (forall h :: h != ReadyQueue ==> Of(r.q, h) == Of(s.q, h))
      && Of(r.q, ReadyQueue) == Of(s.q, ReadyQueue) + [s.cur as nat, other]
  {
    TransferIs(s, a, d, other);
    MeetOrder(s, a, d, other);
    hide Meet;
  }

  lemma MeetOrder(s: Sys, a: nat, d: nat, other: nat)
    requires a < |s.procs| && d < |s.procs| && 0 <= s.cur < |s.procs| && other < |s.procs|
    ensures Of(Meet(s, a, d, other).q, ReadyQueue) == Of(s.q, ReadyQueue) + [s.cur as nat, other]
  {
    hide Transfer;
    TransferQueues(s, a, d);
    assert Of(s.q, ReadyQueue) + [s.cur as nat] + [other] == Of(s.q, ReadyQueue) + [s.cur as nat, other];
  }

  lemma TransferQueues(s: Sys, a: nat, d: nat)
    requires a < |s.procs| && d < |s.procs|
    ensures Transfer(s, a, d).q == s.q && Transfer(s, a, d).cur == s.cur
  {
  }

  lemma LookupIs(s: Sys, d: nat, pid: nat)
    requires Inv(s) && d < N && !s.procs[d].state.STOPPED? && s.procs[d].pid == pid
    ensures pid in s.pids && s.pids[pid] == d && pid != 0 && |s.procs| == N
  {
    assert Fine(s.procs[d], d, s.pids);
  }

  lemma WaitsForIff(s: Sys, p: nat, d: nat)
    requires Inv(s) && p < N && d < N && s.procs[p].state.RUNNING?
    ensures d in Of(s.q, Receivers(p)) <==>
      s.procs[d].state.RECEIVING? && s.procs[d].partner != 0 && s.procs[d].partner == s.procs[p].pid
    ensures d in Of(s.q, Senders(p)) <==> s.procs[d].state.SENDING? && s.procs[d].partner == s.procs[p].pid
  {
    assert Fine(s.procs[p], p, s.pids) && Fine(s.procs[d], d, s.pids);
    assert d in Of(s.q, Receivers(p)) <==> Belongs(s.procs[d], s.pids, Receivers(p));
    assert d in Of(s.q, Senders(p)) <==> Belongs(s.procs[d], s.pids, Senders(p));
  }

  /**
   A send to a live process: the message is passed exactly when that process waits for the
   sender or for anyone; otherwise the sender waits last in its queue.
   */
  lemma SendOutcome(s: Sys, d: nat, buf: seq<byte>)
    requires Inv(s) && s.cur >= 0 && d < N && d != s.cur && !s.procs[d].state.STOPPED?
    ensures var p, r := s.cur as nat, SendTo(s, s.procs[d].pid, buf);
      var a := s.procs[p].(partner := s.procs[d].pid, buf := buf);
      && (forall x :: 0 <= x < N && x != p && x != d ==> r.procs[x] == s.procs[x])
      && (Awaits(s.procs[d], a.pid) ==>
           && Matched(a, s.procs[d], r.procs[p], r.procs[d])
           && Of(r.q, ReadyQueue) == Of(s.q, ReadyQueue) + [p, d])
      && (!Awaits(s.procs[d], a.pid) ==>
           && r.procs[p] == a.(state := SENDING) && r.procs[d] == s.procs[d]
           && Of(r.q, Senders(d)) == Of(s.q, Senders(d)) + [p] && Of(r.q, ReadyQueue) == Of(s.q, ReadyQueue))
  {
    hide Inv, Steady, RemoveOne, Meet, Matched, Return;
    var p := s.cur as nat;
    RunnerLive(s);
    LookupIs(s, d, s.procs[d].pid);
    LookupIs(s, p, s.procs[p].pid);
    WaitsForIff(s, p, d);
    if Awaits(s.procs[d], s.procs[p].pid) {
      var s1 := Args(s, s.procs[d].pid, buf);
      MeetMatches(if d in Of(s.q, Receivers(p)) then Leave(s1, Receivers(p), d) else s1, p, d, d);
    }
  }

  /** A send to itself or to nobody fails at once. */
  lemma SendFails(s: Sys, dest: nat, buf: seq<byte>)
    requires Inv(s) && s.cur >= 0
    requires forall d :: 0 <= d < N && d != s.cur && s.procs[d].pid == dest ==> s.procs[d].state.STOPPED?
    ensures var p, r := s.cur as nat, SendTo(s, dest, buf);
      var irc := if s.procs[p].pid == dest then SYS_SR_SELF else SYS_SR_NO_PID;
      r == s.(procs := s.procs[p := s.procs[p].(partner := dest, buf := buf, irc := irc, state := READY)],
              q := s.q[ReadyQueue := Of(s.q, ReadyQueue) + [p]])
  {
    assert dest in s.pids ==> s.pids[dest] == s.cur;
    hide Steady;
  }

  /** Nor does a receive from itself or from nobody wait. */
  lemma ReceiveFails(s: Sys, src: nat, buf: seq<byte>)
    requires Inv(s) && s.cur >= 0 && src != 0
    requires forall a :: 0 <= a < N && a != s.cur && s.procs[a].pid == src ==> s.procs[a].state.STOPPED?
    ensures Handleable(s)
    ensures var p, r := s.cur as nat, Receive(s, src, buf);
      var irc := if s.procs[p].pid == src then SYS_SR_SELF else SYS_SR_NO_PID;
      r == s.(procs := s.procs[p := s.procs[p].(partner := src, buf := buf, irc := irc, state := READY)],
              q := s.q[ReadyQueue := Of(s.q, ReadyQueue) + [p]])
  {
    InvRequests(s);
    assert src in s.pids ==> s.pids[src] == s.cur;
    hide Steady;
  }

  /** A receive from a live process: matched exactly when that process waits to send to the receiver. */
  lemma ReceiveOutcome(s: Sys, a: nat, buf: seq<byte>)
    requires Inv(s) && s.cur >= 0 && a < N && a != s.cur && !s.procs[a].state.STOPPED?
    ensures Handleable(s)
    ensures var p, r := s.cur as nat, Receive(s, s.procs[a].pid, buf);
      var d := s.procs[p].(partner := s.procs[a].pid, buf := buf);
      var waits := s.procs[a].state.SENDING? && s.procs[a].partner == d.pid;
      && (forall x :: 0 <= x < N && x != p && x != a ==> r.procs[x] == s.procs[x])
      && (waits ==>
           && Matched(s.procs[a], d, r.procs[a], r.procs[p])
           && Of(r.q, ReadyQueue) == Of(s.q, ReadyQueue) + [p, a])
      && (!waits ==>
           && r.procs[p] == d.(state := RECEIVING) && r.procs[a] == s.procs[a]
           && Of(r.q, Receivers(a)) == Of(s.q, Receivers(a)) + [p] && Of(r.q, ReadyQueue) == Of(s.q, ReadyQueue))
  {
    hide Inv, Steady, RemoveOne, Meet, Matched;
    InvRequests(s);
    var p := s.cur as nat;
    RunnerLive(s);
    LookupIs(s, a, s.procs[a].pid);
    LookupIs(s, p, s.procs[p].pid);
    WaitsForIff(s, p, a);
    if a in Of(s.q, Senders(p)) {
      MeetMatches(Leave(Args(s, s.procs[a].pid, buf), Senders(p), a), a, p, a);
    }
  }

  /** A receive from anyone takes the sender that came first, and blocks only if nobody waits to send. */
  lemma ReceiveAnyOutcome(s: Sys, buf: seq<byte>)
    requires Inv(s) && s.cur >= 0
    ensures Handleable(s)
    ensures var p, r, l := s.cur as nat, Receive(s, 0, buf), Of(s.q, Senders(s.cur));
      var d := s.procs[p].(partner := 0, buf := buf);
      && (l == [] ==>
            r.procs[p] == d.(state := RECEIVING) && forall x :: 0 <= x < N && x != p ==> r.procs[x] == s.procs[x])
      && (l != [] ==>
           && l[0] < N && Of(r.q, Senders(p)) == l[1..]
           && Matched(s.procs[l[0]], d, r.procs[l[0]], r.procs[p])
           && Of(r.q, ReadyQueue) == Of(s.q, ReadyQueue) + [p, l[0]]
           && forall x :: 0 <= x < N && x != p && x != l[0] ==> r.procs[x] == s.procs[x])
  {
    hide Inv, Steady, Meet, Matched;
    InvRequests(s);
    var p, l := s.cur as nat, Of(s.q, Senders(s.cur));
    RunnerLive(s);
    LookupIs(s, p, s.procs[p].pid);
    FirstIn(l);
    if l != [] {
      WaitsForIff(s, p, l[0]);
      assert RemoveOne(l, l[0]) == l[1..];
      MeetMatches(Leave(Args(s, 0, buf), Senders(p), l[0]), l[0], p, l[0]);
    }
  }

  lemma RunnerLive(s: Sys)
    requires Inv(s) && s.cur >= 0
    ensures |s.procs| == N && s.cur < N && s.procs[s.cur].state.RUNNING?
  {
  }

  /** The senders waiting for d stay in order of arrival: one joins last, one is taken out, or d ends. */
  lemma SendersInOrder(s: Sys, e: Request, d: nat)
    requires Inv(s) && Enabled(s, e) && d < N
    ensures Handleable(s)
    ensures var l, l' := Of(s.q, Senders(d)), Of(Handle(s, e).q, Senders(d));
      || l' == l
      || (e.Send? && l' == l + [s.cur as nat])
      || (e.Recv? && s.cur == d && exists x :: x in l && l' == RemoveOne(l, x))
      || (e.Stop? && s.cur == d && l' == [])
  {
    hide Inv, Steady, Exit, Wake, Rank, SendTo, Receive, Signal, Spawn, RemoveOne, FallAsleep;
    InvRequests(s);
    match e
    case Sleep(ms) => SleepSenders(s, ms, d);
    case Stop => ExitSenders(s, d);
    case Timer => WakeSenders(s.(left := CountDown(s.left)), d);
    case Send(dest, buf) => SendLists(s, dest, buf, d);
    case Recv(src, buf) => ReceiveLists(s, src, buf, d);
    case Kill(pid, sig) => SignalLists(s, pid, sig, Senders(d));
    case Create(memory) => SpawnLists(s, s.procs[s.cur].pid, memory, Senders(d));
    case _ =>
  }

  lemma SleepSenders(s: Sys, ms: nat, d: nat)
    requires Handleable(s)
    ensures Of(FallAsleep(s, ms).q, Senders(d)) == Of(s.q, Senders(d))
  {
    hide Rank, Ticks;
  }

  lemma ExitSenders(s: Sys, d: nat)
    requires Handleable(s)
    ensures Of(Exit(s).q, Senders(d)) == if d == s.cur then [] else Of(s.q, Senders(d))
  {
    UnblockFrame(s, Senders(s.cur));
    UnblockFrame(Unblock(s, Senders(s.cur)), Receivers(s.cur));
    hide Unblock;
  }

  lemma {:induction false} WakeSenders(s: Sys, d: nat)
    requires forall x :: x in Of(s.q, SleepList) ==> x < |s.procs|
    ensures Of(Wake(s).q, Senders(d)) == Of(s.q, Senders(d))
    decreases |Of(s.q, SleepList)|
  {
    var l := Of(s.q, SleepList);
    if l != [] && l[0] in s.left && s.left[l[0]] == 0 {
      assert l[0] in l && forall x :: x in l[1..] ==> x in l;
      WakeSenders(Return(s.(q := s.q[SleepList := l[1..]], left := s.left - {l[0]}), l[0], 0), d);
    }
  }
}
