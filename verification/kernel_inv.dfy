/**
 Every request keeps the invariant of the process table: what each function of
 KernelSteps does to places, pids, partners, sleepers and the running process.
 */
module KernelInv {
  import opened Basics
  import opened KernelState
  import opened KernelSteps

  /** Nobody but the running process stops being ready. */
  ghost predicate Wakes(s: Sys, s': Sys) {
    && |s.procs| == |s'.procs| && s'.idle == s.idle
    && forall x :: 0 <= x < |s.procs| && x != s.cur ==>
         s'.procs[x].state == s.procs[x].state || s'.procs[x].state.READY?
  }

  lemma WakesTrans(s: Sys, s1: Sys, s2: Sys)
    requires Wakes(s, s1) && Wakes(s1, s2) && s1.cur == s.cur
    ensures Wakes(s, s2)
  {
  }

  // ------------------------------------------------------------------
  // Building blocks

  /** Changing what neither places nor partners depend on. */
  lemma KeepPut(s: Sys, loose: set<nat>, cur: int, x: nat, p: Proc)
    requires Steady(s, loose, cur) && x < N
    requires p.pid == s.procs[x].pid && p.state == s.procs[x].state
    requires p.partner == s.procs[x].partner || (!p.state.SENDING? && !p.state.RECEIVING?)
    ensures Steady(Put(s, x, p), loose, cur)
  {
    PlacedSame(s.procs, s.q, s.pids, loose, x, p);
    SaneSame(s.procs, s.pids, x, p);
    hide Placed, Sane;
  }

  lemma LeaveSteady(s: Sys, loose: set<nat>, cur: int, h: Head, x: nat)
    requires Steady(s, loose, cur) && x in Of(s.q, h) && h != SleepList
    ensures x < N && Steady(Leave(s, h, x), loose + {x}, cur)
  {
    PlacedLeave(s.procs, s.q, s.pids, loose, x, h);
  }

  lemma PlacedLast(procs: seq<Proc>, q: Lists, pids: map<nat, nat>, loose: set<nat>, x: nat, p: Proc)
    requires Placed(procs, q, pids, loose) && x in loose && x < N && p.state.READY?
    ensures Placed(procs[x := p], q[ReadyQueue := Of(q, ReadyQueue) + [x]], pids, loose - {x})
    ensures Of(q[ReadyQueue := Of(q, ReadyQueue) + [x]], SleepList) == Of(q, SleepList)
  {
    hide Placed;
    var l := Of(q, ReadyQueue);
    PlacedJoin(procs, q, pids, loose, x, p, ReadyQueue, |l|);
    assert l[..|l|] + [x] + l[|l|..] == l + [x];
  }

  /** A loose process becomes ready; if it was running, nobody is now. */
  lemma ReturnSteady(s: Sys, loose: set<nat>, cur: int, x: nat, irc: int)
    requires Steady(s, loose, cur) && x in loose && x < N && !s.procs[x].state.STOPPED?
    ensures Steady(Return(s, x, irc), loose - {x}, if x == cur then NIL else cur)
    ensures s.cur == cur ==> Wakes(s, Return(s, x, irc))
  {
    hide Sane, Sleeping, Of;
    var p := s.procs[x].(irc := irc, state := READY);
    var l := Of(s.q, ReadyQueue);
    PlacedLast(s.procs, s.q, s.pids, loose, x, p);
    SaneQuiet(s.procs, s.pids, x, p);
    assert Return(s, x, irc).procs == s.procs[x := p];
  }

  /** The running process is in no list. */
  lemma RunningLoose(s: Sys, loose: set<nat>, cur: int)
    requires Steady(s, loose, cur) && cur >= 0
    ensures Steady(s, loose + {cur as nat}, cur)
  {
    PlacedUnlisted(s.procs, s.q, s.pids, loose, cur);
  }

  lemma RunningReturns(s: Sys, irc: int)
    requires Steady(s, {}, s.cur) && s.cur >= 0
    ensures Steady(Return(s, s.cur, irc), {}, NIL) && Wakes(s, Return(s, s.cur, irc))
  {
    RunningLoose(s, {}, s.cur);
    ReturnSteady(s, {s.cur as nat}, s.cur, s.cur, irc);
    assert {s.cur as nat} - {s.cur as nat} == {};
  }

  lemma RunningReady(s: Sys)
    requires Steady(s, {}, s.cur) && s.cur >= 0
    ensures Steady(Ready(s, s.cur), {}, NIL) && Wakes(s, Ready(s, s.cur))
  {
    RunningReturns(s, s.procs[s.cur].irc);
    assert Ready(s, s.cur) == Return(s, s.cur, s.procs[s.cur].irc);
  }

  // ------------------------------------------------------------------
  // Messages

  lemma TransferIs(s: Sys, a: nat, d: nat, other: nat)
    requires |s.procs| == N && a < N && d < N && a != d && 0 <= s.cur < N
    requires ((s.cur == a && other == d) || (s.cur == d && other == a))
    ensures var n := Min(|s.procs[a].buf|, |s.procs[d].buf|);
      var r := Meet(s, a, d, other);
      && r.procs == s.procs
           [d := s.procs[d].(irc := n, partner := s.procs[a].pid, state := READY,
                             buf := s.procs[a].buf[..n] + s.procs[d].buf[n..])]
           [a := s.procs[a].(irc := n, state := READY)]
      && r == s.(procs := r.procs, q := s.q[ReadyQueue := Of(s.q, ReadyQueue) + [s.cur as nat] + [other]])
  {
  }

  lemma SteadyShape(s: Sys, loose: set<nat>, cur: int)
    requires Steady(s, loose, cur)
    ensures |s.procs| == N && -1 <= cur < N
  {
  }

  /** A match: both the running process and the one that waited become ready. */
  lemma MeetSteady(s: Sys, a: nat, d: nat, other: nat)
    requires a < N && d < N && a != d && ((s.cur == a && other == d) || (s.cur == d && other == a))
    requires Steady(s, {a, d}, s.cur) && !s.procs[a].state.STOPPED? && !s.procs[d].state.STOPPED?
    ensures Steady(Meet(s, a, d, other), {}, NIL) && Wakes(s, Meet(s, a, d, other))
  {
    hide Meet, Transfer, Ready, Placed, Sane, Sleeping;
    SteadyShape(s, {a, d}, s.cur);
    var r, p := Meet(s, a, d, other), s.cur as nat;
    assert {p, other} == {a, d};
    TransferIs(s, a, d, other);
    var n := Min(|s.procs[a].buf|, |s.procs[d].buf|);
    var d', a' := s.procs[d].(irc := n, partner := s.procs[a].pid, state := READY,
                              buf := s.procs[a].buf[..n] + s.procs[d].buf[n..]),
                  s.procs[a].(irc := n, state := READY);
    SaneQuiet(s.procs, s.pids, d, d');
    SaneQuiet(s.procs[d := d'], s.pids, a, a');
    JoinBoth(s.procs, s.q, s.pids, p, other, if p == a then a' else d', if p == a then d' else a');
    assert s.procs[a := a'][d := d'] == s.procs[d := d'][a := a'];
  }

  lemma JoinBoth(procs: seq<Proc>, q: Lists, pids: map<nat, nat>, x: nat, y: nat, p: Proc, r: Proc)
    requires x < N && y < N && x != y && Placed(procs, q, pids, {x, y}) && p.state.READY? && r.state.READY?
    ensures Placed(procs[x := p][y := r], q[ReadyQueue := Of(q, ReadyQueue) + [x] + [y]], pids, {})
  {
    var l := Of(q, ReadyQueue);
    PlacedJoin(procs, q, pids, {x, y}, x, p, ReadyQueue, |l|);
    assert l[..|l|] + [x] + l[|l|..] == l + [x] && {x, y} - {x} == {y};
    var q1 := q[ReadyQueue := l + [x]];
    PlacedJoin(procs[x := p], q1, pids, {y}, y, r, ReadyQueue, |l + [x]|);
    assert (l + [x])[..|l + [x]|] + [y] + (l + [x])[|l + [x]|..] == l + [x] + [y] && {y} - {y} == {};
    assert q1[ReadyQueue := l + [x] + [y]] == q[ReadyQueue := l + [x] + [y]];
  }

  /** Starting to wait for a message, in that state, misses nobody. */
  ghost predicate MayWait(s: Sys, p: Proc)
    requires |s.procs| == N && 0 <= s.cur < N
  {
    && Fine(p, s.cur, s.pids) && (p.state.SENDING? || p.state.RECEIVING?) && p.pid == s.procs[s.cur].pid
    && forall x :: 0 <= x < N && x != s.cur ==> !Missed(p, s.procs[x]) && !Missed(s.procs[x], p)
  }

  lemma BelongsElsewhere(p: Proc, pids: map<nat, nat>, h: Head)
    requires Belongs(p, pids, h) && (p.state.SENDING? || p.state.RECEIVING?)
    ensures h != SleepList
  {
  }

  /** The running process blocks in a list, sending or receiving. */
  lemma WaitSteady(s: Sys, state: State, h: Head)
    requires Steady(s, {}, s.cur) && s.cur >= 0
    requires MayWait(s, s.procs[s.cur].(state := state)) && Belongs(s.procs[s.cur].(state := state), s.pids, h)
    ensures Steady(Wait(s, s.cur, state, h), {}, NIL) && Wakes(s, Wait(s, s.cur, state, h))
  {
    hide Missed, Fine, Placed, Sane, Sleeping, Belongs;
    SteadyShape(s, {}, s.cur);
    var c := s.cur as nat;
    var p, l := s.procs[c].(state := state), Of(s.q, h);
    BelongsElsewhere(p, s.pids, h);
    RunningLoose(s, {}, c);
    SaneWait(s.procs, s.pids, c, p);
    assert {} + {c} == {c} && {c} - {c} == {};
    PlacedJoin(s.procs, s.q, s.pids, {c}, c, p, h, |l|);
    assert l[..|l|] + [c] + l[|l|..] == l + [c];
  }

  /** The running process blocks in no list. */
  lemma BlockSteady(s: Sys)
    requires Steady(s, {}, s.cur) && s.cur >= 0 && s.procs[s.cur].partner == 0
    requires MayWait(s, s.procs[s.cur].(state := RECEIVING))
    ensures var r := Put(s, s.cur, s.procs[s.cur].(state := RECEIVING));
      Steady(r, {}, NIL) && Wakes(s, r)
  {
    var c := s.cur as nat;
    var p := s.procs[c].(state := RECEIVING);
    RunningLoose(s, {}, c);
    SaneWait(s.procs, s.pids, c, p);
    assert {} + {c} == {c} && {c} - {c} == {};
    PlacedLoose(s.procs, s.q, s.pids, {c}, c, p);
    PlacedNowhere(s.procs[c := p], s.q, s.pids, {c}, c);
    hide Missed, Fine, Placed, Sane;
  }

  lemma ArgsSteady(s: Sys, partner: nat, buf: seq<byte>)
    requires Steady(s, {}, s.cur) && s.cur >= 0
    ensures Steady(Args(s, partner, buf), {}, s.cur) && Wakes(s, Args(s, partner, buf))
  {
    KeepPut(s, {}, s.cur, s.cur, s.procs[s.cur].(partner := partner, buf := buf));
  }

  /** Whoever carries a registered pid is the process registered for it. */
  lemma PidOwner(s: Sys, loose: set<nat>, cur: int, x: nat, pid: nat)
    requires Steady(s, loose, cur) && x < N && pid in s.pids && s.procs[x].pid == pid && !s.procs[x].state.STOPPED?
    ensures s.pids[pid] == x
  {
    assert Fine(s.procs[x], x, s.pids);
  }

  lemma LooseUnlisted(s: Sys, loose: set<nat>, cur: int, x: nat)
    requires Steady(s, loose, cur) && x < N && forall h :: !Belongs(s.procs[x], s.pids, h)
    ensures Steady(s, loose + {x}, cur)
  {
    PlacedUnlisted(s.procs, s.q, s.pids, loose, x);
  }

  /** A process about to send to `dest` misses nobody if `dest` waits neither for it nor for any. */
  lemma NoReceiverMissed(s: Sys, dest: nat)
    requires Steady(s, {}, s.cur) && s.cur >= 0 && dest in s.pids && s.procs[s.cur].partner == dest
    requires s.pids[dest] !in Of(s.q, Receivers(s.cur))
    requires !(s.procs[s.pids[dest]].state.RECEIVING? && s.procs[s.pids[dest]].partner == 0)
    ensures forall x :: 0 <= x < N && x != s.cur ==> !Missed(s.procs[s.cur].(state := SENDING), s.procs[x])
  {
    var p := s.procs[s.cur];
    assert Fine(p, s.cur, s.pids);
    forall x | 0 <= x < N && x != s.cur
      ensures !Missed(p.(state := SENDING), s.procs[x])
    {
      if s.procs[x].state.RECEIVING? && s.procs[x].pid == dest {
        PidOwner(s, {}, s.cur, x, dest);
        assert s.procs[x].partner == p.pid ==> Belongs(s.procs[x], s.pids, Receivers(s.cur));
      }
    }
  }

  lemma SendToLive(s: Sys, dest: nat)
    requires Steady(s, {}, s.cur) && s.cur >= 0 && dest in s.pids
    requires s.procs[s.cur].pid != dest && s.procs[s.cur].partner == dest
    ensures var p, d := s.cur as nat, s.pids[dest];
      var r := if d in Of(s.q, Receivers(p)) then Meet(Leave(s, Receivers(p), d), p, d, d)
               else if s.procs[d].state.RECEIVING? && s.procs[d].partner == 0 then Meet(s, p, d, d)
               else Wait(s, p, SENDING, Senders(d));
      Steady(r, {}, NIL) && Wakes(s, r)
  {
    var p, d := s.cur as nat, s.pids[dest];
    assert p != d;
    if d in Of(s.q, Receivers(p)) {
      var s1 := Leave(s, Receivers(p), d);
      LeaveSteady(s, {}, s.cur, Receivers(p), d);
      RunningLoose(s1, {} + {d}, s.cur);
      assert {} + {d} + {p} == {p, d};
      MeetSteady(s1, p, d, d);
    } else if s.procs[d].state.RECEIVING? && s.procs[d].partner == 0 {
      LooseUnlisted(s, {}, s.cur, d);
      RunningLoose(s, {} + {d}, s.cur);
      assert {} + {d} + {p} == {p, d};
      MeetSteady(s, p, d, d);
    } else {
      assert Fine(s.procs[p], p, s.pids);
      NoReceiverMissed(s, dest);
      WaitSteady(s, SENDING, Senders(d));
    }
  }

  lemma SendKeeps(s0: Sys, dest: nat, buf: seq<byte>)
    requires Steady(s0, {}, s0.cur) && s0.cur >= 0
    ensures Steady(SendTo(s0, dest, buf), {}, NIL) && Wakes(s0, SendTo(s0, dest, buf))
  {
    var s, p := Args(s0, dest, buf), s0.cur as nat;
    ArgsSteady(s0, dest, buf);
    if s.procs[p].pid == dest {
      RunningReturns(s, SYS_SR_SELF);
    } else if dest !in s.pids {
      RunningReturns(s, SYS_SR_NO_PID);
    } else {
      SendToLive(s, dest);
    }
    hide Steady, Meet, Wait, Return;
    WakesTrans(s0, s, SendTo(s0, dest, buf));
  }

  /** A process about to receive misses nobody if none waits to send to it, from `src` or at all. */
  lemma NoSenderMissed(s: Sys, src: nat)
    requires Steady(s, {}, s.cur) && s.cur >= 0 && s.procs[s.cur].partner == src
    requires if src == 0 then Of(s.q, Senders(s.cur)) == []
             else src in s.pids && s.pids[src] !in Of(s.q, Senders(s.cur))
    ensures forall x :: 0 <= x < N && x != s.cur ==> !Missed(s.procs[x], s.procs[s.cur].(state := RECEIVING))
  {
    var p := s.procs[s.cur];
    assert Fine(p, s.cur, s.pids);
    forall x | 0 <= x < N && x != s.cur
      ensures !Missed(s.procs[x], p.(state := RECEIVING))
    {
      if s.procs[x].state.SENDING? && s.procs[x].partner == p.pid {
        if src != 0 && s.procs[x].pid == src {
          PidOwner(s, {}, s.cur, x, src);
        }
        assert Belongs(s.procs[x], s.pids, Senders(s.cur));
      }
    }
  }

  /** Accepting a sender that waits. */
  lemma AcceptSteady(s: Sys, a: nat)
    requires Steady(s, {}, s.cur) && s.cur >= 0 && a in Of(s.q, Senders(s.cur))
    ensures a < N && Steady(Meet(Leave(s, Senders(s.cur), a), a, s.cur, a), {}, NIL)
    ensures Wakes(s, Meet(Leave(s, Senders(s.cur), a), a, s.cur, a))
  {
    var p := s.cur as nat;
    var s1 := Leave(s, Senders(p), a);
    LeaveSteady(s, {}, s.cur, Senders(p), a);
    assert Belongs(s.procs[a], s.pids, Senders(p));
    RunningLoose(s1, {} + {a}, s.cur);
    assert {} + {a} + {p} == {a, p};
    MeetSteady(s1, a, p, a);
  }

  lemma ReceiveKeeps(s0: Sys, src: nat, buf: seq<byte>)
    requires Steady(s0, {}, s0.cur) && s0.cur >= 0
    ensures Steady(Receive(s0, src, buf), {}, NIL) && Wakes(s0, Receive(s0, src, buf))
  {
    var s, p := Args(s0, src, buf), s0.cur as nat;
    ArgsSteady(s0, src, buf);
    assert Fine(s.procs[p], p, s.pids);
    var l := Of(s.q, Senders(p));
    FirstIn(l);
    if s.procs[p].pid == src {
      RunningReturns(s, SYS_SR_SELF);
    } else if src != 0 && src !in s.pids {
      RunningReturns(s, SYS_SR_NO_PID);
    } else if src != 0 && s.pids[src] in l {
      AcceptSteady(s, s.pids[src]);
    } else if src == 0 && l != [] {
      AcceptSteady(s, l[0]);
    } else {
      NoSenderMissed(s, src);
      if src == 0 {
        BlockSteady(s);
      } else {
        WaitSteady(s, RECEIVING, Receivers(s.pids[src]));
      }
    }
    hide Steady, Meet, Return;
    WakesTrans(s0, s, Receive(s0, src, buf));
  }
}
