/**
 Waiting for a signal or for the keyboard: what ends it, and that nothing else does.
 */
module KernelWaits {
  import opened Basics
  import opened KernelState
  import opened KernelSteps
  import opened KernelInv
  import opened KernelTurn
  import opened KernelRuns
  import opened KernelTheorems
  import opened KernelSchedule
  import opened KernelOutcomes

  /** Blocked in no list: waiting for a signal, or for the keyboard. */
  predicate Parked(p: Proc) {
    p.state.WAITING? || p.state.READING?
  }

  /** A signal that the process takes, or the end of its read. */
  predicate Disturbs(p: Proc, x: nat, e: Request) {
    || (e.Kill? && e.pid == p.pid && 0 <= e.sig < 32 && InMask(p.allowed, e.sig))
    || (e.Keyboard? && e.reader == x && p.state.READING?)
  }

  lemma SendLeaves(s: Sys, x: nat, dest: nat, buf: seq<byte>)
    requires Inv(s) && s.cur >= 0 && x < N && x != s.cur && |s.procs| == N && Parked(s.procs[x])
    ensures SendTo(s, dest, buf).procs[x] == s.procs[x]
  {
    hide Inv, Receive, SendTo;
    if d: nat :| d < N && d != s.cur && s.procs[d].pid == dest && !s.procs[d].state.STOPPED? {
      SendOutcome(s, d, buf);
    } else {
      SendFails(s, dest, buf);
    }
  }

  lemma ReceiveLeaves(s: Sys, x: nat, src: nat, buf: seq<byte>)
    requires Inv(s) && s.cur >= 0 && x < N && x != s.cur && |s.procs| == N && Parked(s.procs[x])
    ensures Handleable(s) && Receive(s, src, buf).procs[x] == s.procs[x]
  {
    hide Inv, Receive, SendTo, Matched;
    InvHandleableHere(s);
    if src == 0 {
      SendersSend(s, x);
      ReceiveAnyOutcome(s, buf);
    } else if a: nat :| a < N && a != s.cur && s.procs[a].pid == src && !s.procs[a].state.STOPPED? {
      ReceiveOutcome(s, a, buf);
    } else {
      ReceiveFails(s, src, buf);
    }
  }

  lemma InvHandleableHere(s: Sys)
    requires Inv(s) && s.cur >= 0
    ensures Handleable(s) && |s.procs| == N && s.cur < N
  {
    hide Steady;
    InvHandleable(s);
    RunnerLive(s);
  }

  lemma SendersSend(s: Sys, x: nat)
    requires Inv(s) && s.cur >= 0 && x < N && |s.procs| == N && Parked(s.procs[x])
    ensures forall h :: x !in Of(s.q, h)
    ensures x !in s.left
  {
    forall h
      ensures x !in Of(s.q, h)
    {
      assert x in Of(s.q, h) ==> Belongs(s.procs[x], s.pids, h);
    }
    assert x !in Of(s.q, SleepList);
  }

  lemma KillLeaves(s: Sys, x: nat, pid: nat, sig: int)
    requires Inv(s) && s.cur >= 0 && x < N && x != s.cur && |s.procs| == N && Parked(s.procs[x])
    requires !Disturbs(s.procs[x], x, Kill(pid, sig))
    ensures Handleable(s) && Signal(s, pid, sig).procs[x] == s.procs[x]
  {
    hide Inv, Signal, InMask, Recorded;
    InvHandleableHere(s);
    if 0 <= sig < 32 {
      if t: nat :| Lives(s, t, pid) {
        if t == s.cur {
          SelfSignalOutcome(s, sig);
        } else {
          SignalOutcome(s, t, pid, sig);
        }
      } else {
        SignalFails(s, pid, sig);
      }
    } else {
      SignalFails(s, pid, sig);
    }
  }

  /** Whatever the running process asks for, a parked process is not touched by it. */
  lemma HandleLeaves(s: Sys, e: Request, x: nat)
    requires Inv(s) && Enabled(s, e) && x < N && x != s.cur && |s.procs| == N && Parked(s.procs[x])
    requires !Disturbs(s.procs[x], x, e)
    ensures Handleable(s) && Handle(s, e).procs[x] == s.procs[x]
  {
    hide Inv, Handle, Disturbs;
    InvHandleableHere(s);
    SendersSend(s, x);
    match e
    case Create(memory) => CreateLeaves(s, x, memory);
    case Stop => StopOutcome(s);
    case Send(dest, buf) =>
      SendLeaves(s, x, dest, buf);
      HandleIs(s, e);
    case Recv(src, buf) =>
      ReceiveLeaves(s, x, src, buf);
      HandleIs(s, e);
    case Timer => TickOutcome(s);
    case Kill(pid, sig) =>
      KillLeaves(s, x, pid, sig);
      HandleIsSignal(s, pid, sig);
    case Keyboard(y, n) => KeyboardLeaves(s, x, y, n);
    case _ => HandleIs(s, e);
  }

  lemma HandleIs(s: Sys, e: Request)
    requires Handleable(s)
    ensures e.Send? ==> Handle(s, e) == SendTo(s, e.dest, e.out)
    ensures e.Recv? ==> Handle(s, e) == Receive(s, e.src, e.into)
    ensures e.Yield? || e.Sleep? || e.SigWait? || e.Read? || e.Plain? ==>
      forall x :: 0 <= x < N && x != s.cur ==> Handle(s, e).procs[x] == s.procs[x]
  {
    hide SendTo, Receive, Rank;
  }

  lemma CreateLeaves(s: Sys, x: nat, memory: bool)
    requires Inv(s) && s.cur >= 0 && x < N && x != s.cur && |s.procs| == N && !s.procs[x].state.STOPPED?
    ensures Handleable(s) && Handle(s, Create(memory)).procs[x] == s.procs[x]
  {
    hide Inv, Handle, Spawn, New, Taken;
    if !memory {
      CreateFails(s, memory);
    } else if i: nat :| FirstStopped(s, i) {
      var pid, k := CreateOutcome(s, i);
    } else {
      NoneStopped(s);
      CreateFails(s, memory);
    }
  }

  lemma NoneStopped(s: Sys)
    requires |s.procs| == N && forall i: nat :: !FirstStopped(s, i)
    ensures forall i :: 0 <= i < N ==> !s.procs[i].state.STOPPED?
  {
    var i := 0;
    while i < N
      invariant 0 <= i <= N && forall j :: 0 <= j < i ==> !s.procs[j].state.STOPPED?
    {
      assert !FirstStopped(s, i);
      i := i + 1;
    }
  }

  lemma KeyboardLeaves(s: Sys, x: nat, y: nat, n: nat)
    requires Handleable(s) && x < N && !Disturbs(s.procs[x], x, Keyboard(y, n))
    ensures Handle(s, Keyboard(y, n)).procs[x] == s.procs[x]
  {
  }

  /** A turn leaves a parked process as it is, unless it is what that process waits for. */
  lemma TurnLeaves(s: Sys, e: Request, x: nat)
    requires Inv(s) && Enabled(s, e) && x < N && x != s.cur && |s.procs| == N && Parked(s.procs[x])
    requires !Disturbs(s.procs[x], x, e)
    ensures |Turn(s, e).procs| == N && Turn(s, e).procs[x] == s.procs[x] && Turn(s, e).cur != x
  {
    hide Disturbs, Handle, Select, Steady, IdleReady;
    HandleLeaves(s, e, x);
    RunnerState(Turn(s, e), x);
    if !e.Keyboard? {
      TurnIs(s, e);
      NotChosen(Handle(s, e), x);
    }
  }

  lemma RunnerState(s: Sys, x: nat)
    requires Inv(s) && x < N
    ensures |s.procs| == N && (s.procs[x].state.RUNNING? <==> x == s.cur)
  {
  }

  /** No event of a run is one that this process waits for. */
  predicate Quiet(p: Proc, x: nat, run: seq<Request>) {
    forall i :: 0 <= i < |run| ==> !Disturbs(p, x, run[i])
  }

  /** So it stays as it is through every run without one. */
  lemma {:induction false} StaysParked(s: Sys, x: nat, run: seq<Request>)
    requires Inv(s) && x < N && x != s.cur && |s.procs| == N && Parked(s.procs[x])
    requires Runnable(s, run) && Quiet(s.procs[x], x, run)
    ensures |After(s, run).procs| == N && After(s, run).procs[x] == s.procs[x] && After(s, run).cur != x
    decreases |run|
  {
    hide Turn, Inv, Enabled, Disturbs;
    if run != [] {
      assert !Disturbs(s.procs[x], x, run[0]);
      TurnLeaves(s, run[0], x);
      assert forall i :: 0 <= i < |run[1..]| ==> run[1..][i] == run[i + 1];
      StaysParked(Turn(s, run[0]), x, run[1..]);
    }
  }

  /** Asking to wait for a signal, or for the keyboard, parks the process and changes no other. */
  lemma Parks(s: Sys, e: Request)
    requires Inv(s) && Enabled(s, e) && (e.SigWait? || e.Read?)
    ensures |s.procs| == |Turn(s, e).procs| == N && Turn(s, e).cur != s.cur
    ensures Turn(s, e).procs[s.cur] == s.procs[s.cur].(state := if e.SigWait? then WAITING else READING)
  {
    hide Handle, Select, Steady, IdleReady;
    InvHandleableHere(s);
    TurnIs(s, e);
    ParkedIs(s, e);
    NotChosen(Handle(s, e), s.cur);
  }

  lemma ParkedIs(s: Sys, e: Request)
    requires Handleable(s) && (e.SigWait? || e.Read?)
    ensures Handle(s, e).procs[s.cur] == s.procs[s.cur].(state := if e.SigWait? then WAITING else READING)
  {
  }

  /**
   A process that waits for a signal waits through every run without one that it allows, and
   the first one that it does allow makes it ready or running, with the number as result.
   */
  lemma SigWaitEnds(s: Sys, run: seq<Request>, sig: nat)
    requires Inv(s) && Enabled(s, SigWait) && |s.procs| == N && sig < 32 && InMask(s.procs[s.cur].allowed, sig)
    requires Runnable(Turn(s, SigWait), run) && Quiet(s.procs[s.cur].(state := WAITING), s.cur, run)
    ensures var x, t := s.cur as nat, After(Turn(s, SigWait), run);
      && t.procs[x] == s.procs[x].(state := WAITING)
      && (Enabled(t, Kill(s.procs[x].pid, sig)) ==>
           var u := Turn(t, Kill(s.procs[x].pid, sig));
           ReadyOrRunning(u, x) && u.procs[x].irc == sig && Recorded(s.procs[x], u.procs[x], sig))
  {
    hide Inv, Turn, InMask, Recorded, ReadyOrRunning;
    var x := s.cur as nat;
    Parks(s, SigWait);
    StaysParked(Turn(s, SigWait), x, run);
    var t := After(Turn(s, SigWait), run);
    if Enabled(t, Kill(s.procs[x].pid, sig)) {
      KillWakes(t, x, sig);
      RunnerState(Turn(t, Kill(s.procs[x].pid, sig)), x);
      SameBefore(s.procs[x], t.procs[x], Turn(t, Kill(s.procs[x].pid, sig)).procs[x], sig);
    }
  }

  lemma SameBefore(p: Proc, q: Proc, r: Proc, sig: nat)
    requires sig < 32 && Recorded(q, r, sig) && p.pending == q.pending && p.allowed == q.allowed
    ensures Recorded(p, r, sig)
  {
    hide InMask;
  }

  lemma KillWakes(s: Sys, x: nat, sig: nat)
    requires Inv(s) && x < N && |s.procs| == N && s.procs[x].state.WAITING? && sig < 32
    requires InMask(s.procs[x].allowed, sig) && Enabled(s, Kill(s.procs[x].pid, sig)) && x != s.cur
    ensures var u := Turn(s, Kill(s.procs[x].pid, sig));
      ReadyOrRunning(u, x) && u.procs[x].irc == sig && Recorded(s.procs[x], u.procs[x], sig)
  {
    hide Inv, InMask, Signal, Select;
    var e := Kill(s.procs[x].pid, sig);
    SignalOutcome(s, x, s.procs[x].pid, sig);
    TurnIs(s, e);
    HandleIsSignal(s, s.procs[x].pid, sig);
    SelectOthers(Handle(s, e));
    ReadyListed(Turn(s, e), x);
    hide Handle, Turn;
    SameRecord(s.procs[x], Handle(s, e).procs[x], Turn(s, e).procs[x], sig);
  }

  lemma HandleIsSignal(s: Sys, pid: nat, sig: int)
    requires Handleable(s)
    ensures Handle(s, Kill(pid, sig)) == Signal(s, pid, sig)
  {
  }

  lemma SameRecord(p: Proc, q: Proc, r: Proc, sig: nat)
    requires sig < 32 && Recorded(p, q, sig) && r.pending == q.pending
    ensures Recorded(p, r, sig)
  {
    hide InMask;
  }

  /** A read waits through every run without its end, and that gives it the count, at the end of the ready queue. */
  lemma ReadEnds(s: Sys, run: seq<Request>, n: nat)
    requires Inv(s) && Enabled(s, Read) && |s.procs| == N
    requires Runnable(Turn(s, Read), run) && Quiet(s.procs[s.cur].(state := READING), s.cur, run)
    ensures var x, t := s.cur as nat, After(Turn(s, Read), run);
      && t.procs[x] == s.procs[x].(state := READING)
      && (Enabled(t, Keyboard(x, n)) ==>
           var u := Turn(t, Keyboard(x, n));
           && u.procs == t.procs[x := t.procs[x].(irc := n, state := READY)] && u.cur == t.cur
           && Of(u.q, ReadyQueue) == Of(t.q, ReadyQueue) + [x])
  {
    hide Inv, Turn;
    var x := s.cur as nat;
    Parks(s, Read);
    StaysParked(Turn(s, Read), x, run);
    var t := After(Turn(s, Read), run);
    if Enabled(t, Keyboard(x, n)) {
      KeyboardEnds(t, x, n);
    }
  }

  lemma KeyboardEnds(s: Sys, x: nat, n: nat)
    requires Inv(s) && x < N && |s.procs| == N && s.procs[x].state.READING? && Enabled(s, Keyboard(x, n))
    ensures var u := Turn(s, Keyboard(x, n));
      && u.procs == s.procs[x := s.procs[x].(irc := n, state := READY)] && u.cur == s.cur
      && Of(u.q, ReadyQueue) == Of(s.q, ReadyQueue) + [x]
  {
    InvHandleableHere(s);
    ReturnAdds(s, x, n);
    hide Inv, Return;
  }

  /** The other requests that end at once give their result and go to the end of the ready queue. */
  lemma AtOnce(s: Sys, e: Request)
    requires Inv(s) && s.cur >= 0 && (e.Yield? || e.Plain? || e == Sleep(0))
    ensures Handleable(s)
    ensures var p, r := s.cur as nat, Handle(s, e);
      && r.procs[p].state.READY? && Of(r.q, ReadyQueue) == Of(s.q, ReadyQueue) + [p]
      && (forall x :: 0 <= x < N && x != p ==> r.procs[x] == s.procs[x])
      && r.procs[p].irc == (if e.Plain? then e.irc else s.procs[p].irc)
      && r.procs[p].allowed == (if e.Plain? then e.allowed else s.procs[p].allowed)
      && r.procs[p].pending == s.procs[p].pending
  {
    InvHandleableHere(s);
    hide Inv;
  }
}
