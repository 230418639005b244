/**
 What each request does to the process table: the functions of c/disp.c, c/msg.c,
 c/sleep.c, c/create.c and c/signal.c on the value Sys.
 */
module KernelSteps {
  import opened Basics
  import opened KernelState

  // ------------------------------------------------------------------
  // The ready queue

  function Put(s: Sys, x: nat, p: Proc): Sys
    requires x < |s.procs|
  {
    s.(procs := s.procs[x := p])
  }

  /** ready(): to the end of the ready queue. */
  function Ready(s: Sys, x: nat): (r: Sys)
    requires x < |s.procs|
    ensures |r.procs| == |s.procs|
  {
    Put(s, x, s.procs[x].(state := READY)).(q := s.q[ReadyQueue := Of(s.q, ReadyQueue) + [x]])
  }

  function Return(s: Sys, x: nat, irc: int): (r: Sys)
    requires x < |s.procs|
    ensures |r.procs| == |s.procs|
  {
    Ready(Put(s, x, s.procs[x].(irc := irc)), x)
  }

  function Leave(s: Sys, h: Head, x: nat): Sys {
    s.(q := s.q[h := RemoveOne(Of(s.q, h), x)])
  }

  /** Join a list at its end, in the given state. */
  function Wait(s: Sys, x: nat, state: State, h: Head): (r: Sys)
    requires x < |s.procs|
    ensures |r.procs| == |s.procs|
  {
    Put(s, x, s.procs[x].(state := state)).(q := s.q[h := Of(s.q, h) + [x]])
  }

  /**
   The next process to run: the first in the ready queue, but the idle process only if
   no other is ready.
   */
  function Select(s: Sys): (r: Sys)
    requires |s.procs| == N && forall x :: x in Of(s.q, ReadyQueue) ==> x < N
    ensures |r.procs| == N
  {
    var l := Of(s.q, ReadyQueue);
    if l == [] then s.(cur := NIL)
    else
      assert l[0] in l;
      if l[0] != s.idle then Run(s.(q := s.q[ReadyQueue := l[1..]]), l[0])
      else if |l| == 1 then Run(s.(q := s.q[ReadyQueue := []]), l[0])
      else
        assert l[1] in l;
        Run(Ready(s.(q := s.q[ReadyQueue := l[2..]]), l[0]), l[1])
  }

  function Run(s: Sys, x: nat): (r: Sys)
    requires x < |s.procs|
    ensures |r.procs| == |s.procs|
  {
    Put(s, x, s.procs[x].(state := RUNNING)).(cur := x)
  }

  // ------------------------------------------------------------------
  // Messages

  /** Both sides get the smaller length; the receiver also gets the bytes and the sender's pid. */
  function Transfer(s: Sys, a: nat, d: nat): (r: Sys)
    requires a < |s.procs| && d < |s.procs|
    ensures |r.procs| == |s.procs|
  {
    var (src, dest) := (s.procs[a], s.procs[d]);
    var n := Min(|src.buf|, |dest.buf|);
    var s1 := Put(s, d, dest.(irc := n, partner := src.pid, buf := src.buf[..n] + dest.buf[n..]));
    Put(s1, a, s1.procs[a].(irc := n))
  }

  /** The arguments of a send or receive of the running process. */
  function Args(s: Sys, partner: nat, buf: seq<byte>): Sys
    requires 0 <= s.cur < |s.procs|
  {
    Put(s, s.cur, s.procs[s.cur].(partner := partner, buf := buf))
  }

  /** Copy, and ready both: first the running process, then the one that waited. */
  function Meet(s: Sys, a: nat, d: nat, other: nat): (r: Sys)
    requires a < |s.procs| && d < |s.procs| && 0 <= s.cur < |s.procs| && other < |s.procs|
    ensures |r.procs| == |s.procs|
  {
    Ready(Ready(Transfer(s, a, d), s.cur), other)
  }

  function SendTo(s0: Sys, dest: nat, buf: seq<byte>): (r: Sys)
    requires 0 <= s0.cur < |s0.procs| && forall pid :: pid in s0.pids ==> s0.pids[pid] < |s0.procs|
    ensures |r.procs| == |s0.procs|
  {
    var s, p := Args(s0, dest, buf), s0.cur;
    if s.procs[p].pid == dest then Return(s, p, SYS_SR_SELF)
    else if dest !in s.pids then Return(s, p, SYS_SR_NO_PID)
    else
      var d := s.pids[dest];
      if d in Of(s.q, Receivers(p)) then Meet(Leave(s, Receivers(p), d), p, d, d)
      else if s.procs[d].state.RECEIVING? && s.procs[d].partner == 0 then Meet(s, p, d, d)
      else Wait(s, p, SENDING, Senders(d))
  }

  function Receive(s0: Sys, src: nat, buf: seq<byte>): (r: Sys)
    requires 0 <= s0.cur < |s0.procs| && forall pid :: pid in s0.pids ==> s0.pids[pid] < |s0.procs|
    requires forall h, x :: x in Of(s0.q, h) ==> x < |s0.procs|
    ensures |r.procs| == |s0.procs|
  {
    var s, p := Args(s0, src, buf), s0.cur;
    var l := Of(s.q, Senders(p));
    if s.procs[p].pid == src then Return(s, p, SYS_SR_SELF)
    else if src != 0 && src !in s.pids then Return(s, p, SYS_SR_NO_PID)
    else if src != 0 then
      var a := s.pids[src];
      if a in l then Meet(Leave(s, Senders(p), a), a, p, a)
      else Wait(s, p, RECEIVING, Receivers(a))
    else if l != [] then
      assert l[0] in l;
      Meet(Leave(s, Senders(p), l[0]), l[0], p, l[0])
    else Put(s, p, s.procs[p].(state := RECEIVING))
  }

  // ------------------------------------------------------------------
  // Sleeping

  /** The time slices in a number of milliseconds, rounded up. */
  function Ticks(ms: nat): nat {
    ms / 10 + if ms % 10 != 0 then 1 else 0
  }

  /** Where a sleeper with d ticks to go belongs: after all that wake no later. */
  function Rank(l: seq<nat>, left: map<nat, nat>, d: nat): (k: nat)
    requires forall x :: x in l ==> x in left
    ensures k <= |l|
    ensures forall i :: 0 <= i < k ==> left[l[i]] <= d
    ensures k < |l| ==> left[l[k]] > d
  {
    if l == [] || left[l[0]] > d then 0 else 1 + Rank(l[1..], left, d)
  }

  function FallAsleep(s: Sys, ms: nat): (r: Sys)
    requires 0 <= s.cur < |s.procs| && forall x :: x in Of(s.q, SleepList) ==> x in s.left
    ensures |r.procs| == |s.procs|
  {
    var p, d, l := s.cur, Ticks(ms), Of(s.q, SleepList);
    if d == 0 then Ready(s, p)
    else
      var k := Rank(l, s.left, d);
      Put(s, p, s.procs[p].(state := SLEEPING)).(q := s.q[SleepList := l[..k] + [p] + l[k..]], left := s.left[p := d])
  }

  function CountDown(left: map<nat, nat>): map<nat, nat> {
    map x | x in left :: if left[x] > 0 then left[x] - 1 else 0
  }

  /** Wake the sleepers at the front whose time has come. */
  function Wake(s: Sys): (r: Sys)
    requires forall x :: x in Of(s.q, SleepList) ==> x < |s.procs|
    ensures |r.procs| == |s.procs|
    decreases |Of(s.q, SleepList)|
  {
    var l := Of(s.q, SleepList);
    if l == [] || l[0] !in s.left || s.left[l[0]] > 0 then s
    else
      assert l[0] in l && forall x :: x in l[1..] ==> x in l;
      Wake(Return(s.(q := s.q[SleepList := l[1..]], left := s.left - {l[0]}), l[0], 0))
  }

  /** tick() */
  function Tick(s: Sys): (r: Sys)
    requires forall x :: x in Of(s.q, SleepList) ==> x < |s.procs|
    ensures |r.procs| == |s.procs|
  {
    Wake(s.(left := CountDown(s.left)))
  }

  // ------------------------------------------------------------------
  // Creating and stopping

  /** The pids getNextPid does not give out: those in use, and 0. */
  function Busy(pids: map<nat, nat>): set<nat> {
    pids.Keys + {0}
  }

  /** The first pid from n on, modulo 2^32, that is not busy. */
  function NextFree(n: nat, busy: set<nat>): nat
    decreases |busy|
  {
    if n in busy then
      BusyWithout(busy, n);
      NextFree((n + 1) % WORD, busy - {n})
    else n
  }

  lemma BusyWithout(busy: set<nat>, n: nat)
    requires n in busy
    ensures |busy - {n}| < |busy|
  {
  }

  /** The first stopped entry from i on, or N. */
  function Unused(procs: seq<Proc>, i: nat): (k: nat)
    requires i <= |procs|
    ensures i <= k <= |procs|
    ensures k < |procs| ==> procs[k].state.STOPPED?
    ensures forall j :: i <= j < k ==> !procs[j].state.STOPPED?
    decreases |procs| - i
  {
    if i == |procs| || procs[i].state.STOPPED? then i else Unused(procs, i + 1)
  }

  /** create(): `memory` says whether kmalloc found room for the stack. The pid, or SYSERR. */
  function Spawn(s: Sys, parent: nat, memory: bool): (r: (Sys, int))
    ensures |r.0.procs| == |s.procs|
  {
    var i := Unused(s.procs, 0);
    if !memory || i == |s.procs| then (s, SYSERR)
    else
      var pid := NextFree(s.nextPid, Busy(s.pids));
      var p := Proc(pid, parent, READY, 0, 0, [], 0, 0);
      (Ready(Put(s, i, p).(pids := s.pids[pid := i], nextPid := (pid + 1) % WORD), i), pid)
  }

  /** Everyone in a list returns with SYS_SR_NO_PID. */
  function Unblock(s: Sys, h: Head): (r: Sys)
    requires h != ReadyQueue && forall x :: x in Of(s.q, h) ==> x < |s.procs|
    ensures |r.procs| == |s.procs|
    decreases |Of(s.q, h)|
  {
    var l := Of(s.q, h);
    if l == [] then s
    else
      assert l[0] in l && forall x :: x in l[1..] ==> x in l;
      Unblock(Return(s.(q := s.q[h := l[1..]]), l[0], SYS_SR_NO_PID), h)
  }

  /** cleanup() */
  function Exit(s: Sys): (r: Sys)
    requires 0 <= s.cur < |s.procs| && forall h, x :: x in Of(s.q, h) ==> x < |s.procs|
    ensures |r.procs| == |s.procs|
  {
    var p := s.cur;
    var s1 := Unblock(s, Senders(p));
    UnblockFrame(s, Senders(p));
    var s2 := Unblock(s1, Receivers(p));
    Put(s2, p, s2.procs[p].(state := STOPPED)).(pids := s2.pids - {s2.procs[p].pid})
  }

  lemma {:induction false} UnblockFrame(s: Sys, h: Head)
    requires h != ReadyQueue && forall x :: x in Of(s.q, h) ==> x < |s.procs|
    ensures Of(Unblock(s, h).q, h) == []
    ensures forall g :: g != h && g != ReadyQueue ==> Of(Unblock(s, h).q, g) == Of(s.q, g)
    decreases |Of(s.q, h)|
  {
    var l := Of(s.q, h);
    if l != [] {
      assert l[0] in l && forall x :: x in l[1..] ==> x in l;
      UnblockFrame(Return(s.(q := s.q[h := l[1..]]), l[0], SYS_SR_NO_PID), h);
    }
  }

  // ------------------------------------------------------------------
  // Signals

  function SigBit(sig: nat): bv32
    requires sig < 32
  {
    1 << sig
  }

  function Record(p: Proc, sig: nat): (r: Proc)
    requires sig < 32
    ensures r == p.(pending := r.pending)
  {
    p.(pending := Or(p.pending, SigBit(sig)))
  }

  /** Where a process in some list is. */
  function PlaceOf(p: Proc, pids: map<nat, nat>): Head {
    if p.state.SLEEPING? then SleepList
    else if p.state.SENDING? && p.partner in pids then Senders(pids[p.partner])
    else if p.state.RECEIVING? && p.partner in pids then Receivers(pids[p.partner])
    else ReadyQueue
  }

  /** Blocked in a list. */
  predicate Queued(p: Proc) {
    Linked(p) && !p.state.READY?
  }

  function UpTo(l: seq<nat>, x: nat): seq<nat> {
    if l == [] then [] else if l[0] == x then [x] else [l[0]] + UpTo(l[1..], x)
  }

  /**
   What clearing the link of a process that is still in a list does to that list: it ends
   there. Once another process is readied behind it, the link is set again, and the cut list
   runs on into the ready queue.
   */
  function CutAfter(s: Sys, t: nat): Sys
    requires t < |s.procs|
  {
    var h := PlaceOf(s.procs[t], s.pids);
    if Queued(s.procs[t]) then s.(q := s.q[h := UpTo(Of(s.q, h), t)]) else s
  }

  /**
   signal() on a process that takes it: record it, and make a blocked process ready. The
   process is not taken out of the list it is blocked in.
   */
  function SignalTo(s: Sys, t: nat, sig: nat): (r: Sys)
    requires t < |s.procs| && sig < 32
    ensures |r.procs| == |s.procs|
  {
    var s1 := Put(s, t, Record(s.procs[t], sig));
    match s.procs[t].state
    case STOPPED | RUNNING | READY => s1
    case WAITING => Return(s1, t, sig)
    case _ => Return(CutAfter(s1, t), t, -129)
  }

  predicate Takes(p: Proc, sig: nat)
    requires sig < 32
  {
    And(p.allowed, SigBit(sig)) != 0
  }

  function Signal(s: Sys, pid: nat, sig: int): (r: Sys)
    requires 0 <= s.cur < |s.procs| && forall pid :: pid in s.pids ==> s.pids[pid] < |s.procs|
    ensures |r.procs| == |s.procs|
  {
    if sig < 0 || sig >= 32 then Return(s, s.cur, -12)
    else if pid !in s.pids then Return(s, s.cur, -33)
    else if !Takes(s.procs[s.pids[pid]], sig) then Return(s, s.cur, 0)
    else Return(SignalTo(s, s.pids[pid], sig), s.cur, 0)
  }

  // ------------------------------------------------------------------
  // Requests

  /**
   What ends a turn of the running process. Plain stands for the requests that only set
   the caller's return value or its allowed signals; Keyboard is an interrupt that completes
   a read and does not end the turn.
   */
  datatype Request =
    | Create(memory: bool) | Yield | Stop
    | Send(dest: nat, out: seq<byte>) | Recv(src: nat, into: seq<byte>)
    | Sleep(ms: nat) | Timer | Kill(pid: nat, sig: int) | SigWait | Read
    | Plain(irc: int, allowed: bv32) | Keyboard(reader: nat, count: nat)

  ghost predicate Handleable(s: Sys) {
    && |s.procs| == N && 0 <= s.cur < N
    && (forall pid :: pid in s.pids ==> s.pids[pid] < N)
    && (forall h, x :: x in Of(s.q, h) ==> x < N)
    && (forall x :: x in Of(s.q, SleepList) ==> x in s.left)
  }

  /** The body of the switch in dispatch(), with to_ready. */
  ghost function Handle(s: Sys, e: Request): (r: Sys)
    requires Handleable(s)
    ensures |r.procs| == N
  {
    var p := s.cur;
    match e
    case Create(memory) =>
      var (s1, pid) := Spawn(s, s.procs[p].pid, memory);
      Return(s1, p, pid)
    case Yield => Ready(s, p)
    case Stop => Exit(s)
    case Send(dest, buf) => SendTo(s, dest, buf)
    case Recv(src, buf) => Receive(s, src, buf)
    case Sleep(ms) => FallAsleep(s, ms)
    case Timer => Ready(Tick(s), p)
    case Kill(pid, sig) => Signal(s, pid, sig)
    case SigWait => Put(s, p, s.procs[p].(state := WAITING))
    case Read => Put(s, p, s.procs[p].(state := READING))
    case Plain(irc, allowed) => Return(Put(s, p, s.procs[p].(allowed := allowed)), p, irc)
    case Keyboard(x, n) => if x < N && s.procs[x].state.READING? then Return(s, x, n) else s
  }
}
